/** The program's preferences (Preferences, tabacchi/preferencesTabacchi.py:143-297): the barcode readers,
    the settings the order deadline depends on and the delivery plan, saved to and loaded from an INI file
    through configparser; and the framing of what a barcode reader sends (ReadBarcodeThread, lines
    91-140). A configuration is a map from section names to sections, and a section lists its options in
    insertion order; configparser lowers option names, so keys are written here in lower case. */
module Prefs {
  import opened Wrappers
  import opened Text
  import opened Calendar
  import opened Deadline
  import opened Worker

  // The texts of the errors Python raises while reading the file and the reader's data.
  const WRONG_FIELDS := "wrong number of values to unpack"
  const INVALID_DATA := "Invalid data from barcode reader."
  const ENDSWITH_STR := "endswith first arg must be bytes or a tuple of bytes, not str"

  function DateError(key: string): string {
    "time data " + key + " does not match format '%d/%m/%Y'"
  }

  function DateTimeError(text: string): string {
    "time data " + text + " does not match format '%d/%m/%Y - %H:%M'"
  }

  type Section = seq<(string, string)>
  type Config = map<string, Section>

  predicate HasKey(sec: Section, key: string) {
    exists k :: 0 <= k < |sec| && sec[k].0 == key
  }

  /** section.get(key): the value of the first option with that name. */
  function Lookup(sec: Section, key: string): (r: Option<string>)
    ensures r.Some? <==> HasKey(sec, key)
    ensures r.Some? ==> exists k :: 0 <= k < |sec| && sec[k] == (key, r.value)
  {
    if |sec| == 0 then None
    else if sec[0].0 == key then Some(sec[0].1)
    else
      var r := Lookup(sec[1..], key);
      assert forall k :: 1 <= k < |sec| ==> sec[k] == sec[1..][k - 1];
      assert HasKey(sec[1..], key) ==> HasKey(sec, key);
      r
  }

  /** Lookup in two concatenated sections. */
  lemma LookupAppend(a: Section, b: Section, key: string)
    ensures Lookup(a + b, key) == if HasKey(a, key) then Lookup(a, key) else Lookup(b, key)
  {
    if |a| > 0 {
      assert (a + b)[1..] == a[1..] + b;
      LookupAppend(a[1..], b, key);
      assert HasKey(a[1..], key) ==> HasKey(a, key) by {
        if HasKey(a[1..], key) {
          var k :| 0 <= k < |a[1..]| && a[1..][k].0 == key;
          assert a[k + 1].0 == key;
        }
      }
    } else {
      assert a + b == b;
    }
  }

  /** section[key] = value: the value of an existing option is replaced in place, a new option is appended. */
  function Set(sec: Section, key: string, value: string): (r: Section)
    ensures !HasKey(sec, key) ==> r == sec + [(key, value)]
  {
    if |sec| == 0 then [(key, value)]
    else if sec[0].0 == key then [(key, value)] + sec[1..]
    else
      assert !HasKey(sec, key) ==> !HasKey(sec[1..], key) by {
        if HasKey(sec[1..], key) {
          var k :| 0 <= k < |sec[1..]| && sec[1..][k].0 == key;
          assert sec[k + 1].0 == key;
        }
      }
      assert sec == [sec[0]] + sec[1..];
      [sec[0]] + Set(sec[1..], key, value)
  }

  /** After section[key] = value, the option reads value and every other option reads as before. */
  lemma {:induction false} SetLookup(sec: Section, key: string, value: string, other: string)
    ensures Lookup(Set(sec, key, value), key) == Some(value)
    ensures other != key ==> Lookup(Set(sec, key, value), other) == Lookup(sec, other)
  {
    if |sec| > 0 && sec[0].0 != key {
      SetLookup(sec[1..], key, value, other);
      var rest := Set(sec[1..], key, value);
      assert ([sec[0]] + rest)[1..] == rest;
    }
  }

  // ---------------------------------------------------------------------------------------------
  // The [Barcode] section

  /** A paired reader: [name, address, RFCOMM port]; the port is None when the file had no port. */
  datatype Device = Device(name: string, addr: string, port: Option<int>)

  const DefaultKey: string := "defaultbarcode"

  function DeviceKey(i: nat): string { "device" + NatToString(i) }
  function AddrKey(i: nat): string { "addr" + NatToString(i) }
  function PortKey(i: nat): string { "port" + NatToString(i) }

  /** The option names of the section never collide. */
  lemma KeysDistinct(i: nat, j: nat)
    ensures DeviceKey(i) != AddrKey(j) && DeviceKey(i) != PortKey(j) && AddrKey(i) != PortKey(j)
    ensures DeviceKey(i) != DefaultKey && AddrKey(i) != DefaultKey && PortKey(i) != DefaultKey
    ensures i != j ==> DeviceKey(i) != DeviceKey(j) && AddrKey(i) != AddrKey(j) && PortKey(i) != PortKey(j)
  {
    assert DeviceKey(i)[0] == 'd' && AddrKey(j)[0] == 'a' && PortKey(j)[0] == 'p' && AddrKey(i)[0] == 'a';
    assert DeviceKey(i)[2] == 'v' && DefaultKey[2] == 'f';
    if DeviceKey(i) == DeviceKey(j) {
      assert DeviceKey(i)[6..] == NatToString(i) && DeviceKey(j)[6..] == NatToString(j);
      NatToStringInjective(i, j);
    }
    if AddrKey(i) == AddrKey(j) {
      assert AddrKey(i)[4..] == NatToString(i) && AddrKey(j)[4..] == NatToString(j);
      NatToStringInjective(i, j);
    }
    if PortKey(i) == PortKey(j) {
      assert PortKey(i)[4..] == NatToString(i) && PortKey(j)[4..] == NatToString(j);
      NatToStringInjective(i, j);
    }
  }

  /** str(port): "None" for a missing port. */
  function PortText(p: Option<int>): string {
    match p
    case None => "None"
    case Some(n) => IntToString(n)
  }

  /** The device options the save loop writes for the first n readers. */
  function DeviceEntries(list: seq<Device>, n: nat): (sec: Section)
    requires n <= |list|
    ensures |sec| == 3 * n
  {
    if n == 0 then []
    else DeviceEntries(list, n - 1)
         + [(DeviceKey(n - 1), list[n - 1].name), (AddrKey(n - 1), list[n - 1].addr),
            (PortKey(n - 1), PortText(list[n - 1].port))]
  }

  /** An option is in two concatenated sections when it is in either. */
  lemma HasKeyAppend(a: Section, b: Section, key: string)
    ensures HasKey(a + b, key) <==> HasKey(a, key) || HasKey(b, key)
  {
    LookupAppend(a, b, key);
  }

  /** The entries of the first n readers hold no option of reader m >= n. */
  lemma {:induction false} EntriesLack(list: seq<Device>, n: nat, m: nat)
    requires n <= |list| && n <= m
    ensures !HasKey(DeviceEntries(list, n), DeviceKey(m))
    ensures !HasKey(DeviceEntries(list, n), AddrKey(m))
    ensures !HasKey(DeviceEntries(list, n), PortKey(m))
  {
    if n > 0 {
      var p := DeviceEntries(list, n - 1);
      var t := [(DeviceKey(n - 1), list[n - 1].name), (AddrKey(n - 1), list[n - 1].addr),
                (PortKey(n - 1), PortText(list[n - 1].port))];
      EntriesLack(list, n - 1, m);
      KeysDistinct(n - 1, m);
      KeysDistinct(m, n - 1);
      HasKeyAppend(p, t, DeviceKey(m));
      HasKeyAppend(p, t, AddrKey(m));
      HasKeyAppend(p, t, PortKey(m));
    }
  }

  /** The [Barcode] section as save writes it. */
  function BarcodeSection(list: seq<Device>, defaultBarcode: int): Section {
    [(DefaultKey, IntToString(defaultBarcode))] + DeviceEntries(list, |list|)
  }

  /** The options of reader n are not yet in the section when the save loop reaches it. */
  lemma FreshKeys(list: seq<Device>, defaultBarcode: int, n: nat)
    requires n <= |list|
    ensures var s := [(DefaultKey, IntToString(defaultBarcode))] + DeviceEntries(list, n);
            !HasKey(s, DeviceKey(n)) && !HasKey(s, AddrKey(n)) && !HasKey(s, PortKey(n))
  {
    var head: Section := [(DefaultKey, IntToString(defaultBarcode))];
    EntriesLack(list, n, n);
    KeysDistinct(n, n);
    HasKeyAppend(head, DeviceEntries(list, n), DeviceKey(n));
    HasKeyAppend(head, DeviceEntries(list, n), AddrKey(n));
    HasKeyAppend(head, DeviceEntries(list, n), PortKey(n));
  }

  /** One turn of the save loop: the three options of reader i go after those of the readers before it. */
  lemma SaveDeviceStep(list: seq<Device>, defaultBarcode: int, i: nat)
    requires i < |list|
    ensures var head: Section := [(DefaultKey, IntToString(defaultBarcode))];
            var s := head + DeviceEntries(list, i);
            Set(Set(Set(s, DeviceKey(i), list[i].name), AddrKey(i), list[i].addr), PortKey(i), PortText(list[i].port))
            == head + DeviceEntries(list, i + 1)
  {
    var head: Section := [(DefaultKey, IntToString(defaultBarcode))];
    var s := head + DeviceEntries(list, i);
    var d, a, p := (DeviceKey(i), list[i].name), (AddrKey(i), list[i].addr), (PortKey(i), PortText(list[i].port));
    FreshKeys(list, defaultBarcode, i);
    KeysDistinct(i, i);
    assert Set(s, d.0, d.1) == s + [d];
    HasKeyAppend(s, [d], a.0);
    assert Set(s + [d], a.0, a.1) == s + [d] + [a];
    HasKeyAppend(s + [d], [a], p.0);
    assert Set(s + [d] + [a], p.0, p.1) == s + [d] + [a] + [p];
    assert DeviceEntries(list, i + 1) == DeviceEntries(list, i) + [d, a, p];
  }

  /** The [Barcode] part of save (lines 255-264): written only when some reader is configured. */
  method SaveBarcode(list: seq<Device>, defaultBarcode: int) returns (sec: Option<Section>)
    ensures sec.None? <==> |list| == 0
    ensures sec.Some? ==> sec.value == BarcodeSection(list, defaultBarcode)
  {
    if |list| == 0 {
      return None;
    }
    var s: Section := [(DefaultKey, IntToString(defaultBarcode))];
    var i := 0;
    while i < |list|
      invariant i <= |list|
      invariant s == [(DefaultKey, IntToString(defaultBarcode))] + DeviceEntries(list, i)
    {
      SaveDeviceStep(list, defaultBarcode, i);
      s := Set(s, DeviceKey(i), list[i].name);
      s := Set(s, AddrKey(i), list[i].addr);
      s := Set(s, PortKey(i), PortText(list[i].port));
      i := i + 1;
    }
    sec := Some(s);
  }

  /** The distinct option names of a section. */
  function KeySet(sec: Section): (ks: set<string>)
    ensures |ks| <= |sec|
    ensures forall k :: 0 <= k < |sec| ==> sec[k].0 in ks
  {
    if |sec| == 0 then {}
    else
      var rest := KeySet(sec[1..]);
      assert forall k :: 1 <= k < |sec| ==> sec[k] == sec[1..][k - 1];
      {sec[0].0} + rest
  }

  /** The names device0 .. device{n-1}. */
  function DeviceKeys(n: nat): (ks: set<string>)
    ensures |ks| == n
    ensures forall j :: 0 <= j < n ==> DeviceKey(j) in ks
    ensures forall key :: key in ks ==> exists j :: 0 <= j < n && key == DeviceKey(j)
  {
    if n == 0 then {}
    else
      var rest := DeviceKeys(n - 1);
      assert DeviceKey(n - 1) !in rest by {
        forall j | 0 <= j < n - 1
          ensures DeviceKey(j) != DeviceKey(n - 1)
        {
          KeysDistinct(j, n - 1);
        }
      }
      rest + {DeviceKey(n - 1)}
  }

  /** The load loop reads consecutive device options, so it cannot read more than the section holds. */
  lemma PresentBound(sec: Section, n: nat)
    requires forall j :: 0 <= j < n ==> HasKey(sec, DeviceKey(j))
    ensures n <= |sec|
  {
    var d := DeviceKeys(n);
    var ks := KeySet(sec);
    forall key | key in d
      ensures key in ks
    {
      var j :| 0 <= j < n && key == DeviceKey(j);
      var k :| 0 <= k < |sec| && sec[k].0 == DeviceKey(j);
    }
    assert d <= ks;
    SubsetCard(d, ks);
  }

  lemma SubsetCard<T>(a: set<T>, b: set<T>)
    requires a <= b
    ensures |a| <= |b|
  {
    if a != {} {
      var x :| x in a;
      SubsetCard(a - {x}, b - {x});
    }
  }

  /** barcode.getint('defaultbarcode', -1). */
  function DefaultOf(sec: Section): (r: Result<int>)
    ensures !HasKey(sec, DefaultKey) ==> r == Ok(-1)
  {
    match Lookup(sec, DefaultKey)
    case None => Ok(-1)
    case Some(v) =>
      match ParseInt(v)
      case None => Err(ValueError("invalid literal for int(): " + v))
      case Some(n) => Ok(n)
  }

  /** The readers the load loop appends from index i on, and the error that ends it, if any: for each
      present device{i}, getint(port{i}) (None when absent, ValueError when not a number), then
      addr{i} (KeyError when absent). */
  function ReadDevices(sec: Section, i: nat): (r: (seq<Device>, Option<Error>))
    requires forall j :: 0 <= j < i ==> HasKey(sec, DeviceKey(j))
    decreases |sec| - i
  {
    match Lookup(sec, DeviceKey(i))
    case None => ([], None)
    case Some(name) =>
      var port := Lookup(sec, PortKey(i));
      if port.Some? && ParseInt(port.value).None? then ([], Some(ValueError("invalid literal for int(): " + port.value)))
      else
        match Lookup(sec, AddrKey(i))
        case None => ([], Some(KeyError(AddrKey(i))))
        case Some(addr) =>
          PresentBound(sec, i + 1);
          var rest := ReadDevices(sec, i + 1);
          ([Device(name, addr, if port.Some? then ParseInt(port.value) else None)] + rest.0, rest.1)
  }

  /** The three options of reader j in a section hold that reader's name, address and port text. */
  predicate Saved(sec: Section, j: nat, d: Device) {
    && Lookup(sec, DeviceKey(j)) == Some(d.name)
    && Lookup(sec, AddrKey(j)) == Some(d.addr)
    && Lookup(sec, PortKey(j)) == Some(PortText(d.port))
  }

  /** The values of the saved options. */
  lemma {:induction false} LookupEntries(list: seq<Device>, n: nat, j: nat)
    requires n <= |list| && j < n
    ensures Saved(DeviceEntries(list, n), j, list[j])
  {
    var p := DeviceEntries(list, n - 1);
    var t := [(DeviceKey(n - 1), list[n - 1].name), (AddrKey(n - 1), list[n - 1].addr),
              (PortKey(n - 1), PortText(list[n - 1].port))];
    assert DeviceEntries(list, n) == p + t;
    if j < n - 1 {
      LookupEntries(list, n - 1, j);
      SavedAppend(p, t, j, list[j]);
    } else {
      LookupLast(list, p, t, j);
    }
  }

  /** The options of the last reader written are read from its own three entries. */
  lemma LookupLast(list: seq<Device>, p: Section, t: Section, j: nat)
    requires j < |list| && p == DeviceEntries(list, j)
    requires t == [(DeviceKey(j), list[j].name), (AddrKey(j), list[j].addr), (PortKey(j), PortText(list[j].port))]
    ensures Saved(p + t, j, list[j])
  {
    EntriesLack(list, j, j);
    KeysDistinct(j, j);
    LookupTriple(DeviceKey(j), list[j].name, AddrKey(j), list[j].addr, PortKey(j), PortText(list[j].port));
    LookupSecond3(p, t, DeviceKey(j), AddrKey(j), PortKey(j));
  }

  /** Options found in the first of two sections are read from it. */
  lemma SavedAppend(p: Section, t: Section, j: nat, d: Device)
    requires Saved(p, j, d)
    ensures Saved(p + t, j, d)
  {
    LookupFirst3(p, t, DeviceKey(j), AddrKey(j), PortKey(j));
  }

  /** Three options found in the first of two sections are read from it. */
  lemma LookupFirst3(p: Section, t: Section, a: string, b: string, c: string)
    requires Lookup(p, a).Some? && Lookup(p, b).Some? && Lookup(p, c).Some?
    ensures Lookup(p + t, a) == Lookup(p, a) && Lookup(p + t, b) == Lookup(p, b) && Lookup(p + t, c) == Lookup(p, c)
  {
    LookupAppend(p, t, a);
    LookupAppend(p, t, b);
    LookupAppend(p, t, c);
  }

  /** Three options missing from the first of two sections are read from the second. */
  lemma LookupSecond3(p: Section, t: Section, a: string, b: string, c: string)
    requires !HasKey(p, a) && !HasKey(p, b) && !HasKey(p, c)
    ensures Lookup(p + t, a) == Lookup(t, a) && Lookup(p + t, b) == Lookup(t, b) && Lookup(p + t, c) == Lookup(t, c)
  {
    LookupAppend(p, t, a);
    LookupAppend(p, t, b);
    LookupAppend(p, t, c);
  }

  lemma LookupTriple(a: string, x: string, b: string, y: string, c: string, z: string)
    requires a != b && a != c && b != c
    ensures Lookup([(a, x), (b, y), (c, z)], a) == Some(x)
    ensures Lookup([(a, x), (b, y), (c, z)], b) == Some(y)
    ensures Lookup([(a, x), (b, y), (c, z)], c) == Some(z)
  {
    var t := [(a, x), (b, y), (c, z)];
    assert t[1..] == [(b, y), (c, z)];
    assert t[1..][1..] == [(c, z)];
    assert Lookup(t[1..][1..], c) == Some(z);
    assert Lookup(t[1..], c) == Some(z);
  }

  /** What the saved section holds for reader i: its three options, or no device option past the end. */
  lemma SavedLookups(list: seq<Device>, defaultBarcode: int, i: nat)
    requires i <= |list|
    ensures var sec := BarcodeSection(list, defaultBarcode);
            if i == |list| then Lookup(sec, DeviceKey(i)) == None
            else Lookup(sec, DeviceKey(i)) == Some(list[i].name) && Lookup(sec, AddrKey(i)) == Some(list[i].addr)
                 && Lookup(sec, PortKey(i)) == Some(PortText(list[i].port))
  {
    var head: Section := [(DefaultKey, IntToString(defaultBarcode))];
    var e := DeviceEntries(list, |list|);
    KeysDistinct(i, i);
    LookupAppend(head, e, DeviceKey(i));
    LookupAppend(head, e, AddrKey(i));
    LookupAppend(head, e, PortKey(i));
    if i == |list| {
      EntriesLack(list, |list|, i);
    } else {
      LookupEntries(list, |list|, i);
    }
  }

  /** getint reads back what str() wrote for a port. */
  lemma PortRoundTrip(p: Option<int>)
    requires p.Some?
    ensures ParseInt(PortText(p)) == p
  {
    IntStringRoundTrip(p.value);
  }

  /** One turn of the load loop on a reader whose options are all present and whose port is a number. */
  lemma ReadStep(sec: Section, i: nat, name: string, addr: string, p: string, n: int)
    requires forall j :: 0 <= j < i ==> HasKey(sec, DeviceKey(j))
    requires Lookup(sec, DeviceKey(i)) == Some(name) && Lookup(sec, AddrKey(i)) == Some(addr)
    requires Lookup(sec, PortKey(i)) == Some(p) && ParseInt(p) == Some(n)
    ensures forall j :: 0 <= j < i + 1 ==> HasKey(sec, DeviceKey(j))
    ensures ReadDevices(sec, i) == ([Device(name, addr, Some(n))] + ReadDevices(sec, i + 1).0, ReadDevices(sec, i + 1).1)
  {
  }

  /** The readers of list from i on are saved in sec: each with its three options, and no device option
      after the last. */
  predicate SavedFrom(sec: Section, list: seq<Device>, i: nat)
    requires i <= |list|
  {
    && Lookup(sec, DeviceKey(|list|)) == None
    && forall k :: i <= k < |list| ==>
         list[k].port.Some? && Lookup(sec, DeviceKey(k)) == Some(list[k].name)
         && Lookup(sec, AddrKey(k)) == Some(list[k].addr) && Lookup(sec, PortKey(k)) == Some(PortText(list[k].port))
  }

  /** A section that holds exactly the options of the readers of list reads back as list from reader i on. */
  lemma {:induction false} ReadBack(sec: Section, list: seq<Device>, i: nat)
    requires i <= |list| && SavedFrom(sec, list, i)
    requires forall j :: 0 <= j < i ==> HasKey(sec, DeviceKey(j))
    ensures ReadDevices(sec, i) == (list[i..], None)
    decreases |list| - i
  {
    if i == |list| {
      assert list[i..] == [];
    } else {
      assert HasKey(sec, DeviceKey(i)) && SavedFrom(sec, list, i + 1);
      ReadBack(sec, list, i + 1);
      ReadBackStep(sec, list, i);
    }
  }

  /** Reader i is read, then the readers after it. */
  lemma ReadBackStep(sec: Section, list: seq<Device>, i: nat)
    requires i < |list| && SavedFrom(sec, list, i)
    requires forall j :: 0 <= j <= i ==> HasKey(sec, DeviceKey(j))
    requires ReadDevices(sec, i + 1) == (list[i + 1..], None)
    ensures ReadDevices(sec, i) == (list[i..], None)
  {
    var d := list[i];
    var rest := list[i + 1..];
    DropOne(list, i);
    assert d.port.Some? && Lookup(sec, DeviceKey(i)) == Some(d.name) && Lookup(sec, AddrKey(i)) == Some(d.addr)
           && Lookup(sec, PortKey(i)) == Some(PortText(d.port));
    ReadOne(sec, d, i, rest);
  }

  lemma DropOne<T>(s: seq<T>, i: nat)
    requires i < |s|
    ensures s[i..] == [s[i]] + s[i + 1..]
  {
  }

  /** The step of ReadBack: reader i is read, then the rest. */
  lemma ReadOne(sec: Section, d: Device, i: nat, rest: seq<Device>)
    requires forall j :: 0 <= j < i ==> HasKey(sec, DeviceKey(j))
    requires d.port.Some? && Lookup(sec, DeviceKey(i)) == Some(d.name) && Lookup(sec, AddrKey(i)) == Some(d.addr)
             && Lookup(sec, PortKey(i)) == Some(PortText(d.port))
    requires HasKey(sec, DeviceKey(i)) ==> ReadDevices(sec, i + 1) == (rest, None)
    ensures ReadDevices(sec, i) == ([d] + rest, None)
  {
    PortRoundTrip(d.port);
    ReadStep(sec, i, d.name, d.addr, PortText(d.port), d.port.value);
    assert Device(d.name, d.addr, Some(d.port.value)) == d;
  }

  /** Barcode round trip: loading what save wrote restores the readers and the default reader. */
  lemma BarcodeRoundTrip(list: seq<Device>, defaultBarcode: int)
    requires forall k :: 0 <= k < |list| ==> list[k].port.Some?
    ensures DefaultOf(BarcodeSection(list, defaultBarcode)) == Ok(defaultBarcode)
    ensures ReadDevices(BarcodeSection(list, defaultBarcode), 0) == (list, None)
  {
    var sec := BarcodeSection(list, defaultBarcode);
    IntStringRoundTrip(defaultBarcode);
    assert Lookup(sec, DefaultKey) == Some(IntToString(defaultBarcode));
    forall k | 0 <= k <= |list|
      ensures k == |list| ==> Lookup(sec, DeviceKey(k)) == None
      ensures k < |list| ==> Lookup(sec, DeviceKey(k)) == Some(list[k].name)
                             && Lookup(sec, AddrKey(k)) == Some(list[k].addr)
                             && Lookup(sec, PortKey(k)) == Some(PortText(list[k].port))
    {
      SavedLookups(list, defaultBarcode, k);
    }
    ReadBack(sec, list, 0);
  }

  // ---------------------------------------------------------------------------------------------
  // The deadline settings of the [Tabacchi] section

  function BoolText(b: bool): string { if b then "True" else "False" }

  function Lower(s: string): (r: string)
    ensures |r| == |s|
  {
    if |s| == 0 then ""
    else [if 'A' <= s[0] <= 'Z' then (s[0] as int + 32) as char else s[0]] + Lower(s[1..])
  }

  /** configparser's getboolean on a value: its words for true and false, in any case. */
  function ParseBool(v: string): (r: Option<bool>)
    ensures r.Some? <==> Lower(v) in {"1", "yes", "true", "on", "0", "no", "false", "off"}
    ensures r == Some(true) <==> Lower(v) in {"1", "yes", "true", "on"}
  {
    var l := Lower(v);
    if l == "1" || l == "yes" || l == "true" || l == "on" then Some(true)
    else if l == "0" || l == "no" || l == "false" || l == "off" then Some(false)
    else None
  }

  /** The words save writes read back as the same truth value. */
  lemma BoolRoundTrip(b: bool)
    ensures ParseBool(BoolText(b)) == Some(b)
  {
    if b {
      assert Lower("True") == "true" by {
        assert Lower("True") == ['t'] + Lower("rue");
        assert Lower("rue") == "rue";
      }
    } else {
      assert Lower("False") == "false" by {
        assert Lower("False") == ['f'] + Lower("alse");
        assert Lower("alse") == "alse";
      }
    }
  }

  /** section.getint(key, fallback). */
  function GetInt(sec: Section, key: string, fallback: int): (r: Result<int>)
    ensures !HasKey(sec, key) ==> r == Ok(fallback)
  {
    match Lookup(sec, key)
    case None => Ok(fallback)
    case Some(v) =>
      match ParseInt(v)
      case None => Err(ValueError("invalid literal for int(): " + v))
      case Some(n) => Ok(n)
  }

  /** The four options of [Tabacchi] the deadline rule reads, as save writes them. */
  function SettingsSection(s: Settings): Section {
    [("pianoconsegnedasito", BoolText(s.pianoConsegneDaSito)), ("giornolevata", IntToString(s.giornoLevata)),
     ("orainvio", IntToString(s.oraInvio)), ("ggperordine", IntToString(s.ggPerOrdine))]
  }

  /** The load of those options, one after the other: a malformed one raises ValueError and leaves the
      ones after it as they were. A missing pianoConsegneDaSito reads as None, which counts as false. */
  function ReadSettings(sec: Section, before: Settings): (r: (Settings, Option<Error>))
    ensures r.1.None? <==> (!HasKey(sec, "pianoconsegnedasito") || ParseBool(Lookup(sec, "pianoconsegnedasito").value).Some?)
                           && GetInt(sec, "giornolevata", 3).Ok? && GetInt(sec, "orainvio", 11).Ok?
                           && GetInt(sec, "ggperordine", 2).Ok?
    ensures r.1.None? ==> (r.0.pianoConsegneDaSito <==>
                             HasKey(sec, "pianoconsegnedasito")
                             && ParseBool(Lookup(sec, "pianoconsegnedasito").value) == Some(true))
    ensures r.1.None? ==> GetInt(sec, "giornolevata", 3) == Ok(r.0.giornoLevata)
                          && GetInt(sec, "orainvio", 11) == Ok(r.0.oraInvio)
                          && GetInt(sec, "ggperordine", 2) == Ok(r.0.ggPerOrdine)
  {
    var v := Lookup(sec, "pianoconsegnedasito");
    if v.Some? && ParseBool(v.value).None? then (before, Some(ValueError("Not a boolean: " + v.value)))
    else
      var s1 := before.(pianoConsegneDaSito := v.Some? && ParseBool(v.value) == Some(true));
      match GetInt(sec, "giornolevata", 3)
      case Err(e) => (s1, Some(e))
      case Ok(g) =>
        var s2 := s1.(giornoLevata := g);
        match GetInt(sec, "orainvio", 11)
        case Err(e) => (s2, Some(e))
        case Ok(o) =>
          var s3 := s2.(oraInvio := o);
          match GetInt(sec, "ggperordine", 2)
          case Err(e) => (s3, Some(e))
          case Ok(gg) => (s3.(ggPerOrdine := gg), None)
  }

  /** Loading the saved settings gives them back, whatever was loaded before. */
  lemma SettingsRoundTrip(s: Settings, before: Settings)
    ensures ReadSettings(SettingsSection(s), before) == (s, None)
  {
    var sec := SettingsSection(s);
    var t1, t2, t3 := sec[1..], sec[2..], sec[3..];
    assert t1[1..] == t2 && t2[1..] == t3 && sec[1..] == t1;
    assert "giornolevata"[0] == 'g' && "orainvio"[0] == 'o' && "ggperordine"[1] == 'g' && "giornolevata"[1] == 'i';
    assert Lookup(t3, "ggperordine") == Some(IntToString(s.ggPerOrdine));
    assert Lookup(t2, "orainvio") == Some(IntToString(s.oraInvio));
    assert Lookup(t2, "ggperordine") == Lookup(t3, "ggperordine");
    assert Lookup(t1, "giornolevata") == Some(IntToString(s.giornoLevata));
    assert Lookup(t1, "orainvio") == Lookup(t2, "orainvio");
    assert Lookup(t1, "ggperordine") == Lookup(t2, "ggperordine");
    IntStringRoundTrip(s.giornoLevata);
    IntStringRoundTrip(s.oraInvio);
    IntStringRoundTrip(s.ggPerOrdine);
    BoolRoundTrip(s.pianoConsegneDaSito);
  }

  // ---------------------------------------------------------------------------------------------
  // The catalog date and the stamp and signature sizes of [Tabacchi]

  const CATALOG_DATE_TYPE := "strptime() argument 1 must be str, not datetime.date"

  function IsoDateError(text: string): string {
    "time data '" + text + "' does not match format '%Y-%m-%d'"
  }

  function FloatError(text: string): string {
    "could not convert string to float: '" + text + "'"
  }

  /** The other [Tabacchi] values load converts, and can fail on: the catalog date, then the widths and
      heights of the stamp and signature images. A size is kept as the float literal it was read from. */
  datatype Extras = Extras(dataCatalogo: Date, timbroW: string, timbroH: string, firmaW: string, firmaH: string)

  predicate ValidExtras(x: Extras) {
    ValidDate(x.dataCatalogo) && FloatLiteral(x.timbroW) && FloatLiteral(x.timbroH)
    && FloatLiteral(x.firmaW) && FloatLiteral(x.firmaH)
  }

  /** strptime(tabacchi.get('dataCatalogo', date.today()), '%Y-%m-%d'). Without the option strptime is
      handed today's date object, not a text, and raises TypeError; a text of another form raises
      ValueError. */
  function CatalogDate(sec: Section): (r: Result<Date>)
    ensures !HasKey(sec, "datacatalogo") ==> r.Err? && r.error.TypeError?
    ensures HasKey(sec, "datacatalogo") ==> (r.Ok? <==> ParseIsoDate(Lookup(sec, "datacatalogo").value).Some?)
    ensures r.Ok? ==> ValidDate(r.value) && FormatIsoDate(r.value) == Lookup(sec, "datacatalogo").value
  {
    match Lookup(sec, "datacatalogo")
    case None => Err(TypeError(CATALOG_DATE_TYPE))
    case Some(v) =>
      match ParseIsoDate(v)
      case None => Err(ValueError(IsoDateError(v)))
      case Some(d) => FormatParseIsoDate(v); Ok(d)
  }

  /** section.getfloat(key, 0): the literal read, or the fallback 0 without the option. */
  function GetFloat(sec: Section, key: string): (r: Result<string>)
    ensures !HasKey(sec, key) ==> r == Ok("0")
    ensures HasKey(sec, key) ==> (r.Ok? <==> FloatLiteral(Lookup(sec, key).value))
                                 && (r.Ok? ==> r.value == Lookup(sec, key).value)
    ensures r.Ok? ==> FloatLiteral(r.value)
  {
    match Lookup(sec, key)
    case None => assert IsDigit("0"[0]); Ok("0")
    case Some(v) => if FloatLiteral(v) then Ok(v) else Err(ValueError(FloatError(v)))
  }

  /** The four sizes all read as floats. */
  predicate SizesParse(sec: Section) {
    GetFloat(sec, "timbrow").Ok? && GetFloat(sec, "timbroh").Ok? && GetFloat(sec, "firmaw").Ok?
    && GetFloat(sec, "firmah").Ok?
  }

  /** The four getfloat calls of lines 227-230, in order: a malformed size raises ValueError and leaves
      the sizes after it as they were. */
  function ReadSizes(sec: Section, before: Extras): (r: (Extras, Option<Error>))
    ensures r.1.None? <==> SizesParse(sec)
    ensures r.1.None? ==> r.0 == before.(timbroW := GetFloat(sec, "timbrow").value,
                                         timbroH := GetFloat(sec, "timbroh").value,
                                         firmaW := GetFloat(sec, "firmaw").value,
                                         firmaH := GetFloat(sec, "firmah").value)
    ensures r.0.dataCatalogo == before.dataCatalogo
    ensures ValidExtras(before) ==> ValidExtras(r.0)
  {
    match GetFloat(sec, "timbrow")
    case Err(e) => (before, Some(e))
    case Ok(tw) =>
      var x1 := before.(timbroW := tw);
      match GetFloat(sec, "timbroh")
      case Err(e) => (x1, Some(e))
      case Ok(th) =>
        var x2 := x1.(timbroH := th);
        match GetFloat(sec, "firmaw")
        case Err(e) => (x2, Some(e))
        case Ok(fw) =>
          var x3 := x2.(firmaW := fw);
          match GetFloat(sec, "firmah")
          case Err(e) => (x3, Some(e))
          case Ok(fh) => (x3.(firmaH := fh), None)
  }

  /** The [Tabacchi] options save writes that the model keeps, in save's order: the deadline settings,
      the catalog date, then the four sizes. */
  function TabacchiSection(s: Settings, x: Extras): Section
    requires ValidDate(x.dataCatalogo)
  {
    SettingsSection(s)
    + [("datacatalogo", FormatIsoDate(x.dataCatalogo)), ("timbrow", x.timbroW), ("timbroh", x.timbroH),
       ("firmaw", x.firmaW), ("firmah", x.firmaH)]
  }

  /** Loading the saved [Tabacchi] section gives back the settings, the catalog date and the sizes. */
  lemma TabacchiRoundTrip(s: Settings, x: Extras, before: Settings, held: Extras)
    requires ValidExtras(x)
    ensures var sec := TabacchiSection(s, x);
            && CatalogDate(sec) == Ok(x.dataCatalogo)
            && ReadSettings(sec, before) == (s, None)
            && ReadSizes(sec, held.(dataCatalogo := x.dataCatalogo)) == (x, None)
  {
    var a := SettingsSection(s);
    var b := TabacchiSection(s, x)[4..];
    assert TabacchiSection(s, x) == a + b;
    SettingsRoundTrip(s, before);
    SettingsPrefix(a, b, before);
    ExtrasLookups(s, b, x);
    assert GetFloat(a + b, "timbrow") == Ok(x.timbroW) && GetFloat(a + b, "timbroh") == Ok(x.timbroH);
    assert GetFloat(a + b, "firmaw") == Ok(x.firmaW) && GetFloat(a + b, "firmah") == Ok(x.firmaH);
    ParseFormatIsoDate(x.dataCatalogo);
  }

  /** Options appended after the four deadline settings do not change how they read. */
  lemma SettingsPrefix(a: Section, b: Section, before: Settings)
    requires HasKey(a, "pianoconsegnedasito") && HasKey(a, "giornolevata") && HasKey(a, "orainvio")
    requires HasKey(a, "ggperordine")
    ensures ReadSettings(a + b, before) == ReadSettings(a, before)
  {
    LookupAppend(a, b, "pianoconsegnedasito");
    LookupAppend(a, b, "giornolevata");
    LookupAppend(a, b, "orainvio");
    LookupAppend(a, b, "ggperordine");
    assert GetInt(a + b, "giornolevata", 3) == GetInt(a, "giornolevata", 3);
    assert GetInt(a + b, "orainvio", 11) == GetInt(a, "orainvio", 11);
    assert GetInt(a + b, "ggperordine", 2) == GetInt(a, "ggperordine", 2);
  }

  /** The catalog date and the sizes read from the options save appends after the settings. */
  lemma ExtrasLookups(s: Settings, b: Section, x: Extras)
    requires ValidDate(x.dataCatalogo)
    requires b == [("datacatalogo", FormatIsoDate(x.dataCatalogo)), ("timbrow", x.timbroW), ("timbroh", x.timbroH),
                   ("firmaw", x.firmaW), ("firmah", x.firmaH)]
    ensures var a := SettingsSection(s);
            && Lookup(a + b, "datacatalogo") == Some(FormatIsoDate(x.dataCatalogo))
            && Lookup(a + b, "timbrow") == Some(x.timbroW) && Lookup(a + b, "timbroh") == Some(x.timbroH)
            && Lookup(a + b, "firmaw") == Some(x.firmaW) && Lookup(a + b, "firmah") == Some(x.firmaH)
  {
    var b1, b2, b3, b4 := b[1..], b[2..], b[3..], b[4..];
    assert b1[1..] == b2 && b2[1..] == b3 && b3[1..] == b4 && b4[1..] == [];
    assert "timbrow"[6] != "timbroh"[6] && "firmaw"[5] != "firmah"[5];
    assert Lookup(b4, "firmah") == Some(x.firmaH);
    assert Lookup(b3, "firmaw") == Some(x.firmaW) && Lookup(b3, "firmah") == Lookup(b4, "firmah");
    assert Lookup(b2, "timbroh") == Some(x.timbroH);
    assert Lookup(b2, "firmaw") == Lookup(b3, "firmaw") && Lookup(b2, "firmah") == Lookup(b3, "firmah");
    assert Lookup(b1, "timbrow") == Some(x.timbroW) && Lookup(b1, "timbroh") == Lookup(b2, "timbroh");
    assert Lookup(b1, "firmaw") == Lookup(b2, "firmaw") && Lookup(b1, "firmah") == Lookup(b2, "firmah");
    AfterSettings(s, b, "datacatalogo");
    AfterSettings(s, b, "timbrow");
    AfterSettings(s, b, "timbroh");
    AfterSettings(s, b, "firmaw");
    AfterSettings(s, b, "firmah");
  }

  /** An option whose name starts otherwise than the four settings' names is looked up past them. */
  lemma AfterSettings(s: Settings, b: Section, key: string)
    requires |key| > 0 && key[0] in {'d', 't', 'f'}
    ensures Lookup(SettingsSection(s) + b, key) == Lookup(b, key)
  {
    var a := SettingsSection(s);
    assert a[0].0[0] == 'p' && a[1].0[0] == 'g' && a[2].0[0] == 'o' && a[3].0[0] == 'g';
    LookupAppend(a, b, key);
  }

  // ---------------------------------------------------------------------------------------------
  // The [PianoLevate] section

  /** The option name of a plan row: its delivery date. */
  function PlanKey(row: PlanRow): string
    requires ValidRow(row)
  {
    FormatDate(row.consegna)
  }

  /** The option value: deadline, ordine, stato, canale and tipo, joined by commas. */
  function PlanValue(row: PlanRow): string
    requires ValidRow(row)
  {
    FormatDateTime(row.dataLimite) + "," + Join([row.ordine, row.stato, row.canale, row.tipo], ',')
  }

  /** The section the save loop builds: rows with the same delivery date share one option. */
  function PlanSection(plan: seq<PlanRow>): Section
    requires ValidPlan(plan)
  {
    if |plan| == 0 then []
    else
      var last := plan[|plan| - 1];
      Set(PlanSection(plan[..|plan| - 1]), PlanKey(last), PlanValue(last))
  }

  /** The save loop of the plan (lines 291-296). */
  method SavePlan(plan: seq<PlanRow>) returns (sec: Section)
    requires ValidPlan(plan)
    ensures sec == PlanSection(plan)
  {
    sec := [];
    var i := 0;
    while i < |plan|
      invariant i <= |plan|
      invariant sec == PlanSection(plan[..i])
    {
      PlanSectionStep(plan, i);
      sec := Set(sec, PlanKey(plan[i]), PlanValue(plan[i]));
      i := i + 1;
    }
    assert plan[..|plan|] == plan;
  }

  lemma PlanSectionStep(plan: seq<PlanRow>, i: nat)
    requires ValidPlan(plan) && i < |plan|
    ensures PlanSection(plan[..i + 1]) == Set(PlanSection(plan[..i]), PlanKey(plan[i]), PlanValue(plan[i]))
  {
    assert plan[..i + 1][..i] == plan[..i];
  }

  /** The rows the load loop appends, and the error that stops it: a key that is not a date, a value that
      does not split into exactly five fields, or a deadline that is not a date-time raise ValueError. */
  function ReadPlan(items: Section): (r: (seq<PlanRow>, Option<Error>))
    ensures ValidPlan(r.0) && |r.0| <= |items|
  {
    if |items| == 0 then ([], None)
    else
      var (key, value) := items[0];
      var fields := Split(value, ',');
      match ParseDate(key)
      case None => ([], Some(ValueError(DateError(key))))
      case Some(consegna) =>
        if |fields| != 5 then ([], Some(ValueError(WRONG_FIELDS)))
        else
          match ParseDateTime(fields[0])
          case None => ([], Some(ValueError(DateTimeError(fields[0]))))
          case Some(dataLimite) =>
            var rest := ReadPlan(items[1..]);
            ([PlanRow(consegna, dataLimite, fields[1], fields[2], fields[3], fields[4])] + rest.0, rest.1)
  }

  /** No two rows share a delivery date. */
  predicate DistinctDeliveries(plan: seq<PlanRow>) {
    forall i, j :: 0 <= i < j < |plan| ==> plan[i].consegna != plan[j].consegna
  }

  /** No text field holds the separator. */
  predicate NoCommas(plan: seq<PlanRow>) {
    forall i :: 0 <= i < |plan| ==>
      ',' !in plan[i].ordine && ',' !in plan[i].stato && ',' !in plan[i].canale && ',' !in plan[i].tipo
  }

  /** The option a row is saved as; only valid rows are saved. */
  function PlanOption(row: PlanRow): (string, string) {
    if ValidRow(row) then (PlanKey(row), PlanValue(row)) else ("", "")
  }

  /** f applied to each item, in order. */
  function MapItems<R, B>(f: R -> B, items: seq<R>): seq<B> {
    if |items| == 0 then [] else [f(items[0])] + MapItems(f, items[1..])
  }

  lemma {:induction false} MapItemsAt<R, B>(f: R -> B, items: seq<R>)
    ensures |MapItems(f, items)| == |items|
    ensures forall k :: 0 <= k < |items| ==> MapItems(f, items)[k] == f(items[k])
  {
    if |items| > 0 {
      MapItemsAt(f, items[1..]);
    }
  }

  lemma {:induction false} MapItemsSnoc<R, B>(f: R -> B, items: seq<R>)
    requires |items| > 0
    ensures MapItems(f, items) == MapItems(f, items[..|items| - 1]) + [f(items[|items| - 1])]
  {
    var m := MapItems(f, items);
    var r := MapItems(f, items[..|items| - 1]) + [f(items[|items| - 1])];
    MapItemsAt(f, items);
    MapItemsAt(f, items[..|items| - 1]);
    assert |m| == |r|;
    forall k | 0 <= k < |m| ensures m[k] == r[k] {
      if k < |items| - 1 {
        assert items[..|items| - 1][k] == items[k];
      }
    }
  }

  /** The section as a plain list of options, one per row. */
  function PlanEntries(plan: seq<PlanRow>): (sec: Section)
    requires ValidPlan(plan)
  {
    MapItems(PlanOption, plan)
  }

  lemma PlanEntriesAt(plan: seq<PlanRow>)
    requires ValidPlan(plan)
    ensures |PlanEntries(plan)| == |plan|
    ensures forall k :: 0 <= k < |plan| ==> PlanEntries(plan)[k] == (PlanKey(plan[k]), PlanValue(plan[k]))
  {
    MapItemsAt(PlanOption, plan);
  }

  /** A delivery date that no row has is not an option of the list. */
  lemma KeyAbsent(plan: seq<PlanRow>, d: Date)
    requires ValidPlan(plan) && ValidDate(d)
    requires forall k :: 0 <= k < |plan| ==> plan[k].consegna != d
    ensures !HasKey(PlanEntries(plan), FormatDate(d))
  {
    PlanEntriesAt(plan);
    ParseFormatDate(d);
    forall k | 0 <= k < |plan| ensures PlanEntries(plan)[k].0 != FormatDate(d) {
      ParseFormatDate(plan[k].consegna);
    }
  }

  /** With distinct delivery dates every row has its own option, in row order. */
  lemma {:induction false} PlanSectionEntries(plan: seq<PlanRow>)
    requires ValidPlan(plan) && DistinctDeliveries(plan)
    ensures PlanSection(plan) == PlanEntries(plan)
  {
    if |plan| > 0 {
      var init := plan[..|plan| - 1];
      var last := plan[|plan| - 1];
      InitDistinct(plan);
      PlanSectionEntries(init);
      MapItemsSnoc(PlanOption, plan);
      KeyAbsent(init, last.consegna);
    }
  }

  /** Without its last row the plan still has valid rows and distinct dates, none the last row's. */
  lemma InitDistinct(plan: seq<PlanRow>)
    requires ValidPlan(plan) && DistinctDeliveries(plan) && |plan| > 0
    ensures var init := plan[..|plan| - 1];
            && ValidPlan(init) && DistinctDeliveries(init) && ValidDate(plan[|plan| - 1].consegna)
            && forall k :: 0 <= k < |init| ==> init[k].consegna != plan[|plan| - 1].consegna
  {
  }

  /** A saved value splits back into its five fields. */
  lemma SplitPlanValue(row: PlanRow)
    requires ValidRow(row)
    requires ',' !in row.ordine && ',' !in row.stato && ',' !in row.canale && ',' !in row.tipo
    ensures Split(PlanValue(row), ',') == [FormatDateTime(row.dataLimite), row.ordine, row.stato, row.canale, row.tipo]
  {
    var parts := [FormatDateTime(row.dataLimite), row.ordine, row.stato, row.canale, row.tipo];
    FormatChars(row.dataLimite);
    assert PlanValue(row) == Join(parts, ',') by {
      assert parts[1..] == [row.ordine, row.stato, row.canale, row.tipo];
    }
    SplitJoin(parts, ',');
  }

  lemma {:induction false} ReadEntries(plan: seq<PlanRow>)
    requires ValidPlan(plan) && NoCommas(plan)
    ensures ReadPlan(PlanEntries(plan)) == (plan, None)
    decreases |plan|
  {
    if |plan| > 0 {
      ReadEntries(plan[1..]);
      ReadEntriesStep(plan);
    }
  }

  /** Reading the section back, one more row at its head. */
  lemma ReadEntriesStep(plan: seq<PlanRow>)
    requires ValidPlan(plan) && |plan| > 0
    requires ',' !in plan[0].ordine && ',' !in plan[0].stato && ',' !in plan[0].canale && ',' !in plan[0].tipo
    requires ReadPlan(PlanEntries(plan[1..])) == (plan[1..], None)
    ensures ReadPlan(PlanEntries(plan)) == (plan, None)
  {
    var row := plan[0];
    var items := PlanEntries(plan[1..]);
    assert PlanEntries(plan) == [PlanOption(row)] + items;
    ReadRowStep(row, items);
    HeadTail(plan);
  }

  lemma HeadTail<T>(s: seq<T>)
    requires |s| > 0
    ensures s == [s[0]] + s[1..]
  {
  }

  /** A saved row at the head of the section is read back, and the reading goes on with the rest. */
  lemma ReadRowStep(row: PlanRow, items: Section)
    requires ValidRow(row)
    requires ',' !in row.ordine && ',' !in row.stato && ',' !in row.canale && ',' !in row.tipo
    ensures ReadPlan([PlanOption(row)] + items) == ([row] + ReadPlan(items).0, ReadPlan(items).1)
  {
    var s := [PlanOption(row)] + items;
    assert s[0] == (PlanKey(row), PlanValue(row)) && s[1..] == items;
    ParseFormatDate(row.consegna);
    ParseFormatDateTime(row.dataLimite);
    SplitPlanValue(row);
  }

  /** Plan round trip: loading what save wrote gives the rows back, when no two share a delivery date
      and no field holds a comma. */
  lemma PlanRoundTrip(plan: seq<PlanRow>)
    requires ValidPlan(plan) && DistinctDeliveries(plan) && NoCommas(plan)
    ensures ReadPlan(PlanSection(plan)) == (plan, None)
  {
    PlanSectionEntries(plan);
    ReadEntries(plan);
  }

  // ---------------------------------------------------------------------------------------------
  // Framing of what a barcode reader sends (ReadBarcodeThread.run, lines 124-140)

  const BarcodeSuffix: string := "\r\n"

  /** A chunk that ends the read loop with an error: not empty and not ending in the suffix. */
  predicate BadChunk(c: string) { |c| > 0 && !EndsWith(c, BarcodeSuffix) }

  /** The codes delivered to the callback from the chunks recv returns, and whether the loop ended with
      the error: an empty chunk is skipped, a chunk ending in the suffix is delivered without it, and any
      other chunk raises. */
  function Frames(chunks: seq<string>): (r: (seq<string>, bool))
    ensures |r.0| <= |chunks|
  {
    if |chunks| == 0 then ([], false)
    else
      var c := chunks[0];
      var rest := Frames(chunks[1..]);
      if |c| == 0 then rest
      else if EndsWith(c, BarcodeSuffix) then ([c[..|c| - |BarcodeSuffix|]] + rest.0, rest.1)
      else ([], true)
  }

  /** The loop ends with the error exactly when some chunk is bad. */
  lemma {:induction false} FramesError(chunks: seq<string>)
    ensures Frames(chunks).1 <==> exists k :: 0 <= k < |chunks| && BadChunk(chunks[k])
  {
    if |chunks| > 0 {
      FramesError(chunks[1..]);
      assert forall k :: 1 <= k < |chunks| ==> chunks[k] == chunks[1..][k - 1];
      if exists k :: 1 <= k < |chunks| && BadChunk(chunks[k]) {
        var k :| 1 <= k < |chunks| && BadChunk(chunks[k]);
        assert BadChunk(chunks[1..][k - 1]);
      }
    }
  }

  /** The chunks a reader sends for a list of codes, one frame each. */
  function Framed(codes: seq<string>): (chunks: seq<string>)
    ensures |chunks| == |codes|
  {
    if |codes| == 0 then [] else [codes[0] + BarcodeSuffix] + Framed(codes[1..])
  }

  /** Framing round trip: the codes sent one per frame are delivered unchanged and in order. */
  lemma {:induction false} FramesRoundTrip(codes: seq<string>)
    ensures Frames(Framed(codes)) == (codes, false)
  {
    if |codes| > 0 {
      var c := codes[0] + BarcodeSuffix;
      FramesRoundTrip(codes[1..]);
      assert Framed(codes)[1..] == Framed(codes[1..]);
      assert c[..|c| - |BarcodeSuffix|] == codes[0];
      assert EndsWith(c, BarcodeSuffix) by {
        assert c[|c| - |BarcodeSuffix|..] == BarcodeSuffix;
      }
      assert codes == [codes[0]] + codes[1..];
    }
  }

  /** One more chunk after an error-free prefix. */
  lemma {:induction false} FramesSnoc(chunks: seq<string>, c: string)
    requires !Frames(chunks).1
    ensures Frames(chunks + [c]) ==
      if |c| == 0 then Frames(chunks)
      else if EndsWith(c, BarcodeSuffix) then (Frames(chunks).0 + [c[..|c| - |BarcodeSuffix|]], false)
      else (Frames(chunks).0, true)
  {
    if |chunks| > 0 {
      var c0 := chunks[0];
      assert (chunks + [c])[1..] == chunks[1..] + [c];
      assert (chunks + [c])[0] == c0;
      FramesSnoc(chunks[1..], c);
      var tail := Frames(chunks[1..] + [c]);
      if |c0| == 0 {
        assert Frames(chunks + [c]) == tail;
        assert Frames(chunks) == Frames(chunks[1..]);
      } else {
        assert EndsWith(c0, BarcodeSuffix);
        assert Frames(chunks + [c]) == ([c0[..|c0| - |BarcodeSuffix|]] + tail.0, tail.1);
        var code0 := c0[..|c0| - |BarcodeSuffix|];
        assert Frames(chunks).0 == [code0] + Frames(chunks[1..]).0;
        if |c| > 0 && EndsWith(c, BarcodeSuffix) {
          var code := c[..|c| - |BarcodeSuffix|];
          assert [code0] + (Frames(chunks[1..]).0 + [code]) == ([code0] + Frames(chunks[1..]).0) + [code];
        }
      }
    } else {
      assert chunks + [c] == [c];
      assert [c][1..] == [];
      if |c| > 0 && EndsWith(c, BarcodeSuffix) {
        var code := c[..|c| - |BarcodeSuffix|];
        assert Frames([c]) == ([code] + [], false);
        assert [code] + [] == Frames(chunks).0 + [code];
      }
    }
  }

  /** Nothing after a bad chunk is read. */
  lemma {:induction false} FramesStop(chunks: seq<string>, more: seq<string>)
    requires Frames(chunks).1
    ensures Frames(chunks + more) == Frames(chunks)
  {
    assert |chunks| > 0;
    assert (chunks + more)[0] == chunks[0];
    assert (chunks + more)[1..] == chunks[1..] + more;
    if !BadChunk(chunks[0]) {
      FramesStop(chunks[1..], more);
    }
  }

  /** run(): the loop over the chunks recv returns. The owner's stop() (its socket shutdown ends the
      pending recv) comes after stopAt chunks; when the chunks run out first, recv blocks and the loop
      is left running. A bad chunk sets the error and ends the loop. */
  method ReadLoop(w: WorkerThread, chunks: seq<string>, stopAt: nat) returns (delivered: seq<string>)
    requires w.status == STARTED
    modifies w
    ensures var seen := if stopAt < |chunks| then chunks[..stopAt] else chunks;
            (Frames(seen).1 <==> exists k :: 0 <= k < |seen| && BadChunk(seen[k]))
            && delivered == Frames(seen).0
            && (Frames(seen).1 ==> w.status == ERROR
                                   && w.error == Some(Exception(INVALID_DATA)))
            && (!Frames(seen).1 ==> w.status == if stopAt <= |chunks| then STOPPED else STARTED)
  {
    delivered := [];
    var k := 0;
    if stopAt == 0 {
      w.Stop();
    }
    while w.status != STOPPED && k < |chunks|
      invariant k <= |chunks| && k <= stopAt
      invariant Frames(chunks[..k]) == (delivered, false)
      invariant w.status == if k == stopAt then STOPPED else STARTED
      decreases |chunks| - k
    {
      var data := chunks[k];
      assert chunks[..k + 1] == chunks[..k] + [data];
      FramesSnoc(chunks[..k], data);
      if |data| > 0 {
        if EndsWith(data, BarcodeSuffix) {
          delivered := delivered + [data[..|data| - |BarcodeSuffix|]];
        } else {
          w.SetError(Exception(INVALID_DATA));
          var seen := if stopAt < |chunks| then chunks[..stopAt] else chunks;
          assert seen == chunks[..k + 1] + seen[k + 1..];
          FramesStop(chunks[..k + 1], seen[k + 1..]);
          FramesError(seen);
          return;
        }
      }
      k := k + 1;
      if k == stopAt {
        w.Stop();
      }
    }
    assert k == |chunks| ==> chunks[..k] == chunks;
    FramesError(if stopAt < |chunks| then chunks[..stopAt] else chunks);
  }

  /** The test of run() as it stands: recv returns bytes, and bytes.endswith with a str suffix raises
      TypeError before any code is delivered. A Python value that is either bytes or str: */
  datatype PyValue = Bytes(b: seq<bv8>) | Str(s: string)

  /** endswith on two values: both bytes or both str, or TypeError. */
  function EndsWithValue(v: PyValue, suffix: PyValue): (r: Result<bool>)
    ensures r.Err? <==> v.Bytes? != suffix.Bytes?
  {
    match (v, suffix)
    case (Bytes(a), Bytes(b)) => Ok(|b| <= |a| && a[|a| - |b|..] == b)
    case (Str(a), Str(b)) => Ok(EndsWith(a, b))
    case _ => Err(TypeError(ENDSWITH_STR))
  }

  /** The loop as written, on the bytes recv returns: the first non-empty chunk raises. */
  function FramesAsWritten(chunks: seq<PyValue>): (r: (seq<PyValue>, Option<Error>))
  {
    if |chunks| == 0 then ([], None)
    else if chunks[0] == Bytes([]) || chunks[0] == Str("") then FramesAsWritten(chunks[1..])
    else
      match EndsWithValue(chunks[0], Str(BarcodeSuffix))
      case Err(e) => ([], Some(e))
      case Ok(b) =>
        if b then
          var rest := FramesAsWritten(chunks[1..]);
          ([Str(chunks[0].s[..|chunks[0].s| - |BarcodeSuffix|])] + rest.0, rest.1)
        else ([], Some(Exception(INVALID_DATA)))
  }

  /** As written, no code is ever delivered, and every non-empty chunk, even a well-framed one, ends the
      loop with TypeError. */
  lemma {:induction false} AsWrittenNeverDelivers(chunks: seq<PyValue>)
    requires forall k :: 0 <= k < |chunks| ==> chunks[k].Bytes?
    ensures FramesAsWritten(chunks).0 == []
    ensures FramesAsWritten(chunks).1.Some? <==> exists k :: 0 <= k < |chunks| && |chunks[k].b| > 0
    ensures FramesAsWritten(chunks).1.Some? ==> FramesAsWritten(chunks).1.value.TypeError?
  {
    if |chunks| > 0 {
      var c := chunks[0];
      if |c.b| == 0 {
        assert c == Bytes([]);
        AsWrittenNeverDelivers(chunks[1..]);
        NonEmptyShift(chunks);
      } else {
        assert EndsWithValue(c, Str(BarcodeSuffix)).Err?;
      }
    }
  }

  /** Some chunk is non-empty iff the first one is or some later one is. */
  lemma NonEmptyShift(chunks: seq<PyValue>)
    requires |chunks| > 0 && forall k :: 0 <= k < |chunks| ==> chunks[k].Bytes?
    ensures (exists k :: 0 <= k < |chunks| && |chunks[k].b| > 0)
            <==> |chunks[0].b| > 0 || exists k :: 0 <= k < |chunks[1..]| && |chunks[1..][k].b| > 0
  {
    if exists k :: 0 <= k < |chunks| && |chunks[k].b| > 0 {
      var k :| 0 <= k < |chunks| && |chunks[k].b| > 0;
      if k > 0 {
        assert chunks[1..][k - 1] == chunks[k];
      }
    }
  }

  /** The code "123" framed by the reader: lost as written, delivered by the intended test. */
  lemma FramedCodeExample()
    ensures FramesAsWritten([Bytes([0x31, 0x32, 0x33, 0x0D, 0x0A])]).1 ==
            Some(TypeError(ENDSWITH_STR))
    ensures Frames(["123\r\n"]) == (["123"], false)
  {
    FramesRoundTrip(["123"]);
    assert ["123"][1..] == [];
    assert "123" + BarcodeSuffix == "123\r\n";
    assert Framed(["123"]) == ["123\r\n"];
  }

  // ---------------------------------------------------------------------------------------------
  // The Preferences object

  /** The fields of Preferences the model keeps. */
  datatype PrefState = PrefState(settings: Settings, extras: Extras, defaultBarcode: int,
                                 barcodeList: seq<Device>, plan: seq<PlanRow>)

  /** The file save writes: [Barcode] only with some reader, [Tabacchi] always, [PianoLevate] only
      when the plan comes from the site. */
  function SavedConfig(st: PrefState): Config
    requires ValidPlan(st.plan) && ValidExtras(st.extras)
  {
    var tab := map["Tabacchi" := TabacchiSection(st.settings, st.extras)];
    var withBarcode := if |st.barcodeList| > 0 then tab["Barcode" := BarcodeSection(st.barcodeList, st.defaultBarcode)] else tab;
    if st.settings.pianoConsegneDaSito then withBarcode["PianoLevate" := PlanSection(st.plan)] else withBarcode
  }

  /** The [Barcode] part of load on a cleared list. */
  function LoadBarcode(sec: Section, st: PrefState): (r: (PrefState, Option<Error>))
    ensures r.0.settings == st.settings && r.0.extras == st.extras && r.0.plan == st.plan
  {
    match DefaultOf(sec)
    case Err(e) => (st, Some(e))
    case Ok(d) =>
      var (devs, e) := ReadDevices(sec, 0);
      (st.(defaultBarcode := d, barcodeList := devs), e)
  }

  /** load(): the state after reading cfg over st, and the exception that interrupted it, if any. The
      reader list is cleared first; the plan read from the file is appended to the one already held. In
      [Tabacchi] the catalog date is read first, then the deadline settings, then the sizes: a missing
      or malformed catalog date stops the load before the settings and the plan, a malformed size
      before the plan. */
  function Loaded(cfg: Config, st: PrefState): (r: (PrefState, Option<Error>))
    ensures |st.plan| <= |r.0.plan| && r.0.plan[..|st.plan|] == st.plan
    ensures "Barcode" !in cfg ==> r.0.barcodeList == [] && r.0.defaultBarcode == st.defaultBarcode
    ensures "Tabacchi" !in cfg ==> r.0.settings == st.settings && r.0.extras == st.extras && r.0.plan == st.plan
    ensures "Tabacchi" in cfg && CatalogDate(cfg["Tabacchi"]).Err? ==>
              r.1.Some? && r.0.settings == st.settings && r.0.extras == st.extras && r.0.plan == st.plan
    ensures "Tabacchi" in cfg && !SizesParse(cfg["Tabacchi"]) ==> r.1.Some? && r.0.plan == st.plan
    ensures "Tabacchi" in cfg && r.1.None? ==> CatalogDate(cfg["Tabacchi"]) == Ok(r.0.extras.dataCatalogo)
    ensures ValidExtras(st.extras) ==> ValidExtras(r.0.extras)
  {
    var st1 := st.(barcodeList := []);
    var (st2, e2) := if "Barcode" in cfg then LoadBarcode(cfg["Barcode"], st1) else (st1, None);
    if e2.Some? || "Tabacchi" !in cfg then (st2, e2)
    else LoadedTabacchi(cfg, st2)
  }

  /** The [Tabacchi] part of load, and the plan it leads to. */
  function LoadedTabacchi(cfg: Config, st: PrefState): (r: (PrefState, Option<Error>))
    requires "Tabacchi" in cfg
    ensures |st.plan| <= |r.0.plan| && r.0.plan[..|st.plan|] == st.plan
    ensures r.0.barcodeList == st.barcodeList && r.0.defaultBarcode == st.defaultBarcode
    ensures CatalogDate(cfg["Tabacchi"]).Err? ==> r == (st, Some(CatalogDate(cfg["Tabacchi"]).error))
    ensures !SizesParse(cfg["Tabacchi"]) ==> r.1.Some? && r.0.plan == st.plan
    ensures r.1.None? ==> CatalogDate(cfg["Tabacchi"]) == Ok(r.0.extras.dataCatalogo)
    ensures ValidExtras(st.extras) ==> ValidExtras(r.0.extras)
  {
    var sec := cfg["Tabacchi"];
    match CatalogDate(sec)
    case Err(e) => (st, Some(e))
    case Ok(d) =>
      var (s3, e3) := ReadSettings(sec, st.settings);
      var st3 := st.(settings := s3, extras := st.extras.(dataCatalogo := d));
      if e3.Some? then (st3, e3)
      else LoadedSizes(cfg, st3)
  }

  /** The sizes of [Tabacchi], then the plan when the settings take it from the site. */
  function LoadedSizes(cfg: Config, st: PrefState): (r: (PrefState, Option<Error>))
    requires "Tabacchi" in cfg
    ensures |st.plan| <= |r.0.plan| && r.0.plan[..|st.plan|] == st.plan
    ensures r.0.settings == st.settings && r.0.barcodeList == st.barcodeList
    ensures r.0.defaultBarcode == st.defaultBarcode && r.0.extras.dataCatalogo == st.extras.dataCatalogo
    ensures !SizesParse(cfg["Tabacchi"]) ==> r.1.Some? && r.0.plan == st.plan
    ensures ValidExtras(st.extras) ==> ValidExtras(r.0.extras)
  {
    var (x, e) := ReadSizes(cfg["Tabacchi"], st.extras);
    var st1 := st.(extras := x);
    if e.Some? then (st1, e)
    else if st.settings.pianoConsegneDaSito && "PianoLevate" in cfg then
      var (rows, e1) := ReadPlan(cfg["PianoLevate"]);
      (st1.(plan := st1.plan + rows), e1)
    else (st1, None)
  }

  /** Save then load: every saved field comes back. The default reader is only kept in the file along
      with some reader, and the plan read back is appended to the plan held before the load. */
  lemma SaveLoadRoundTrip(st: PrefState, before: PrefState)
    requires ValidPlan(st.plan) && DistinctDeliveries(st.plan) && NoCommas(st.plan) && ValidExtras(st.extras)
    requires forall k :: 0 <= k < |st.barcodeList| ==> st.barcodeList[k].port.Some?
    ensures Loaded(SavedConfig(st), before) ==
      (PrefState(st.settings, st.extras, if |st.barcodeList| > 0 then st.defaultBarcode else before.defaultBarcode,
                 st.barcodeList, before.plan + if st.settings.pianoConsegneDaSito then st.plan else []), None)
  {
    var cfg := SavedConfig(st);
    SavedSections(st);
    var st1 := before.(barcodeList := []);
    var st2 := st1.(defaultBarcode := if |st.barcodeList| > 0 then st.defaultBarcode else before.defaultBarcode,
                    barcodeList := st.barcodeList);
    if |st.barcodeList| > 0 {
      BarcodeRoundTrip(st.barcodeList, st.defaultBarcode);
      assert LoadBarcode(cfg["Barcode"], st1) == (st2, None);
    }
    TabacchiRoundTrip(st.settings, st.extras, st2.settings, st2.extras);
    if st.settings.pianoConsegneDaSito {
      PlanRoundTrip(st.plan);
      LoadedSteps(cfg, before, st2, st.settings, st.extras, st.plan);
    } else {
      LoadedSteps(cfg, before, st2, st.settings, st.extras, []);
      AppendNothing(before.plan);
    }
  }

  /** Load, when the barcode section gives st2, the [Tabacchi] section the settings s3 and the extras x,
      and the plan section (read when s3 asks for it) the rows, none of them with an error. */
  lemma LoadedSteps(cfg: Config, before: PrefState, st2: PrefState, s3: Settings, x: Extras, rows: seq<PlanRow>)
    requires "Tabacchi" in cfg
    requires "Barcode" in cfg ==> LoadBarcode(cfg["Barcode"], before.(barcodeList := [])) == (st2, None)
    requires "Barcode" !in cfg ==> st2 == before.(barcodeList := [])
    requires CatalogDate(cfg["Tabacchi"]) == Ok(x.dataCatalogo)
    requires ReadSettings(cfg["Tabacchi"], st2.settings) == (s3, None)
    requires ReadSizes(cfg["Tabacchi"], st2.extras.(dataCatalogo := x.dataCatalogo)) == (x, None)
    requires s3.pianoConsegneDaSito && "PianoLevate" in cfg ==> ReadPlan(cfg["PianoLevate"]) == (rows, None)
    requires !(s3.pianoConsegneDaSito && "PianoLevate" in cfg) ==> rows == []
    ensures Loaded(cfg, before) == (st2.(settings := s3, extras := x, plan := st2.plan + rows), None)
  {
    if !(s3.pianoConsegneDaSito && "PianoLevate" in cfg) {
      AppendNothing(st2.plan);
    }
  }

  /** Which sections save writes, and what each holds. */
  lemma SavedSections(st: PrefState)
    requires ValidPlan(st.plan) && ValidExtras(st.extras)
    ensures var cfg := SavedConfig(st);
            && "Tabacchi" in cfg && cfg["Tabacchi"] == TabacchiSection(st.settings, st.extras)
            && ("Barcode" in cfg <==> |st.barcodeList| > 0)
            && (|st.barcodeList| > 0 ==> cfg["Barcode"] == BarcodeSection(st.barcodeList, st.defaultBarcode))
            && ("PianoLevate" in cfg <==> st.settings.pianoConsegneDaSito)
            && (st.settings.pianoConsegneDaSito ==> cfg["PianoLevate"] == PlanSection(st.plan))
  {
  }

  lemma AppendNothing<T>(s: seq<T>)
    ensures s + [] == s
  {
  }

  lemma PresentNext(sec: Section, i: nat)
    requires forall j :: 0 <= j < i ==> HasKey(sec, DeviceKey(j))
    requires Lookup(sec, DeviceKey(i)).Some?
    ensures forall j :: 0 <= j < i + 1 ==> HasKey(sec, DeviceKey(j))
  {
  }

  lemma PrependNothing<T>(s: seq<T>)
    ensures [] + s == s
  {
  }

  lemma AppendAssoc<T>(s: seq<T>, x: T, t: seq<T>)
    ensures s + ([x] + t) == (s + [x]) + t
  {
  }

  class Preferences {
    var pianoConsegneDaSito: bool
    var giornoLevata: int
    var ggPerOrdine: int
    var oraInvio: int
    var dataCatalogo: Date
    var timbroW: string
    var timbroH: string
    var firmaW: string
    var firmaH: string
    var defaultBarcode: int
    var barcodeList: seq<Device>
    var pianoConsegneList: seq<PlanRow>

    function State(): PrefState
      reads this
    {
      PrefState(Settings(pianoConsegneDaSito, giornoLevata, ggPerOrdine, oraInvio),
                Extras(dataCatalogo, timbroW, timbroH, firmaW, firmaH), defaultBarcode, barcodeList, pianoConsegneList)
    }

    /** Every plan row holds real dates, the catalog date is a real date and the sizes are floats. */
    predicate Valid()
      reads this
    {
      ValidPlan(pianoConsegneList) && ValidDate(dataCatalogo)
      && FloatLiteral(timbroW) && FloatLiteral(timbroH) && FloatLiteral(firmaW) && FloatLiteral(firmaH)
    }

    /** The defaults of __init__, with the catalog date today's. */
    constructor (today: Date)
      requires ValidDate(today)
      ensures Valid()
      ensures State() == PrefState(DefaultSettings, Extras(today, "0", "0", "0", "0"), -1, [], [])
    {
      pianoConsegneDaSito, giornoLevata, ggPerOrdine, oraInvio := false, 3, 2, 11;
      dataCatalogo, timbroW, timbroH, firmaW, firmaH := today, "0", "0", "0", "0";
      defaultBarcode, barcodeList, pianoConsegneList := -1, [], [];
      assert FloatLiteral("0") by {
        assert IsDigit("0"[0]);
      }
    }

    /** save(): the configuration written. */
    method Save() returns (cfg: Config)
      requires Valid()
      ensures cfg == SavedConfig(State())
    {
      cfg := map["Tabacchi" := TabacchiSection(State().settings, State().extras)];
      var barcode := SaveBarcode(barcodeList, defaultBarcode);
      if barcode.Some? {
        cfg := cfg["Barcode" := barcode.value];
      }
      if pianoConsegneDaSito {
        var plan := SavePlan(pianoConsegneList);
        cfg := cfg["PianoLevate" := plan];
      }
    }

    /** The reader loop of load (lines 202-208), appending to the cleared list. */
    static method LoadDevices(sec: Section) returns (list: seq<Device>, err: Option<Error>)
      ensures ReadDevices(sec, 0) == (list, err)
    {
      list := [];
      var i := 0;
      PrependNothing(ReadDevices(sec, 0).0);
      while Lookup(sec, DeviceKey(i)).Some?
        invariant forall j :: 0 <= j < i ==> HasKey(sec, DeviceKey(j))
        invariant ReadDevices(sec, 0) == (list + ReadDevices(sec, i).0, ReadDevices(sec, i).1)
        decreases |sec| - i
      {
        PresentNext(sec, i);
        PresentBound(sec, i + 1);
        var d;
        d, err := ReadDevice(sec, i);
        if err.Some? {
          AppendNothing(list);
          return;
        }
        AppendAssoc(list, d, ReadDevices(sec, i + 1).0);
        list := list + [d];
        i := i + 1;
      }
      AppendNothing(list);
      return list, None;
    }

    /** One turn of that loop, on a present device{i}. */
    static method ReadDevice(sec: Section, i: nat) returns (d: Device, err: Option<Error>)
      requires forall j :: 0 <= j <= i ==> HasKey(sec, DeviceKey(j))
      ensures err.Some? ==> ReadDevices(sec, i) == ([], err)
      ensures err.None? ==> ReadDevices(sec, i) == ([d] + ReadDevices(sec, i + 1).0, ReadDevices(sec, i + 1).1)
    {
      d := Device(Lookup(sec, DeviceKey(i)).value, "", None);
      var port := Lookup(sec, PortKey(i));
      var p: Option<int> := None;
      if port.Some? {
        p := ParseInt(port.value);
        if p.None? {
          return d, Some(ValueError("invalid literal for int(): " + port.value));
        }
      }
      var addr := Lookup(sec, AddrKey(i));
      if addr.None? {
        return d, Some(KeyError(AddrKey(i)));
      }
      d := d.(addr := addr.value, port := p);
      err := None;
    }

    /** The plan loop of load (lines 242-249): each row is appended as soon as it is read. */
    method LoadPlan(items: Section) returns (err: Option<Error>)
      requires Valid()
      modifies this`pianoConsegneList
      ensures Valid()
      ensures (pianoConsegneList, err) == (old(pianoConsegneList) + ReadPlan(items).0, ReadPlan(items).1)
    {
      var k := 0;
      while k < |items|
        invariant k <= |items| && Valid()
        invariant ReadPlan(items).1 == ReadPlan(items[k..]).1
        invariant old(pianoConsegneList) + ReadPlan(items).0 == pianoConsegneList + ReadPlan(items[k..]).0
      {
        var row;
        row, err := ReadPlanRow(items, k);
        if err.Some? {
          AppendNothing(pianoConsegneList);
          return;
        }
        AppendAssoc(pianoConsegneList, row, ReadPlan(items[k + 1..]).0);
        pianoConsegneList := pianoConsegneList + [row];
        k := k + 1;
      }
      assert items[k..] == [];
      AppendNothing(pianoConsegneList);
      return None;
    }

    /** One turn of that loop: the option at k parsed into a row. */
    static method ReadPlanRow(items: Section, k: nat) returns (row: PlanRow, err: Option<Error>)
      requires k < |items|
      ensures err.Some? ==> ReadPlan(items[k..]) == ([], err)
      ensures err.None? ==> ValidRow(row) && ReadPlan(items[k..]) == ([row] + ReadPlan(items[k + 1..]).0, ReadPlan(items[k + 1..]).1)
    {
      var (key, value) := items[k];
      assert items[k..][0] == items[k] && items[k..][1..] == items[k + 1..];
      row := PlanRow(Date(1970, 1, 1), DateTime(Date(1970, 1, 1), 0, 0), "", "", "", "");
      var consegna := ParseDate(key);
      if consegna.None? {
        return row, Some(ValueError(DateError(key)));
      }
      var fields := Split(value, ',');
      if |fields| != 5 {
        return row, Some(ValueError(WRONG_FIELDS));
      }
      var dataLimite := ParseDateTime(fields[0]);
      if dataLimite.None? {
        return row, Some(ValueError(DateTimeError(fields[0])));
      }
      row := PlanRow(consegna.value, dataLimite.value, fields[1], fields[2], fields[3], fields[4]);
      err := None;
    }

    /** load(): the new state and the exception, if any, that interrupted it. */
    method Load(cfg: Config) returns (err: Option<Error>)
      requires Valid()
      modifies this
      ensures Valid()
      ensures (State(), err) == Loaded(cfg, old(State()))
    {
      ghost var st := State();
      barcodeList := [];
      ghost var st1 := st.(barcodeList := []);
      assert State() == st1;
      if "Barcode" in cfg {
        var d := DefaultOf(cfg["Barcode"]);
        if d.Err? {
          assert Loaded(cfg, st) == (st1, Some(d.error));
          return Some(d.error);
        }
        defaultBarcode := d.value;
        barcodeList, err := LoadDevices(cfg["Barcode"]);
        assert (State(), err) == LoadBarcode(cfg["Barcode"], st1);
        if err.Some? {
          assert Loaded(cfg, st) == (State(), err);
          return;
        }
      }
      ghost var st2 := State();
      assert (if "Barcode" in cfg then LoadBarcode(cfg["Barcode"], st1) else (st1, None)) == (st2, None);
      if "Tabacchi" !in cfg {
        assert Loaded(cfg, st) == (st2, None);
        return None;
      }
      assert Loaded(cfg, st) == LoadedTabacchi(cfg, st2);
      err := LoadTabacchi(cfg);
    }

    /** The [Tabacchi] part of load (lines 210-249): the catalog date, the settings, the sizes, then the
        plan when it comes from the site. */
    method LoadTabacchi(cfg: Config) returns (err: Option<Error>)
      requires Valid() && "Tabacchi" in cfg
      modifies this
      ensures Valid()
      ensures (State(), err) == LoadedTabacchi(cfg, old(State()))
    {
      ghost var st := State();
      var sec := cfg["Tabacchi"];
      var d := CatalogDate(sec);
      if d.Err? {
        return Some(d.error);
      }
      var (s, e) := ReadSettings(sec, State().settings);
      PutState(s, State().extras.(dataCatalogo := d.value));
      if e.Some? {
        return e;
      }
      err := LoadSizes(cfg);
    }

    /** The sizes (lines 227-230), then the plan loop when the plan comes from the site. */
    method LoadSizes(cfg: Config) returns (err: Option<Error>)
      requires Valid() && "Tabacchi" in cfg
      modifies this
      ensures Valid()
      ensures (State(), err) == LoadedSizes(cfg, old(State()))
    {
      ghost var st := State();
      var (x, e) := ReadSizes(cfg["Tabacchi"], State().extras);
      PutState(State().settings, x);
      ghost var st1 := st.(extras := x);
      assert State() == st1;
      if e.Some? {
        return e;
      }
      err := None;
      if pianoConsegneDaSito && "PianoLevate" in cfg {
        err := LoadPlan(cfg["PianoLevate"]);
        assert State() == st1.(plan := st1.plan + ReadPlan(cfg["PianoLevate"]).0);
      } else {
        assert LoadedSizes(cfg, st) == (st1, None);
      }
    }

    /** pianoConsegneList[:] = []. */
    method ClearPlan()
      requires Valid()
      modifies this`pianoConsegneList
      ensures Valid() && pianoConsegneList == []
    {
      pianoConsegneList := [];
    }

    /** pianoConsegneList.append(row). */
    method AppendPlanRow(row: PlanRow)
      requires Valid() && ValidRow(row)
      modifies this`pianoConsegneList
      ensures Valid() && pianoConsegneList == old(pianoConsegneList) + [row]
    {
      pianoConsegneList := pianoConsegneList + [row];
    }

    /** Assigns the settings and the extras. */
    method PutState(s: Settings, x: Extras)
      requires ValidPlan(pianoConsegneList) && ValidExtras(x)
      modifies this`pianoConsegneDaSito, this`giornoLevata, this`ggPerOrdine, this`oraInvio, this`dataCatalogo
      modifies this`timbroW, this`timbroH, this`firmaW, this`firmaH
      ensures State() == PrefState(s, x, defaultBarcode, barcodeList, pianoConsegneList)
      ensures Valid()
    {
      pianoConsegneDaSito, giornoLevata, ggPerOrdine, oraInvio := s.pianoConsegneDaSito, s.giornoLevata, s.ggPerOrdine, s.oraInvio;
      dataCatalogo, timbroW, timbroH, firmaW, firmaH := x.dataCatalogo, x.timbroW, x.timbroH, x.firmaW, x.firmaH;
      assert Settings(pianoConsegneDaSito, giornoLevata, ggPerOrdine, oraInvio) == s;
      assert Extras(dataCatalogo, timbroW, timbroH, firmaW, firmaH) == x;
    }
  }
}
