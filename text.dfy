/** String helpers with Python's semantics: str(int), int(str), str.split, str.splitlines,
    str.endswith, str.find and str.rjust. */
module Text {
  import opened Wrappers

  predicate IsDigit(c: char) { '0' <= c <= '9' }

  function DigitChar(d: nat): (c: char)
    requires d < 10
    ensures IsDigit(c)
  {
    ['0','1','2','3','4','5','6','7','8','9'][d]
  }

  function DigitValue(c: char): (d: nat)
    requires IsDigit(c)
    ensures d < 10
  {
    (c as int - '0' as int) as nat
  }

  lemma DigitRoundTrip(d: nat)
    requires d < 10
    ensures DigitValue(DigitChar(d)) == d
  {
  }

  /** str(n) for a natural number: decimal digits, no leading zero. */
  function NatToString(n: nat): (s: string)
    decreases n
  {
    if n < 10 then [DigitChar(n)] else NatToString(n / 10) + [DigitChar(n % 10)]
  }

  /** str(i): a '-' sign in front of the digits of a negative number. */
  function IntToString(i: int): string {
    if i < 0 then "-" + NatToString(-i) else NatToString(i)
  }

  predicate AllDigits(s: string) { forall k :: 0 <= k < |s| ==> IsDigit(s[k]) }

  /** The value of a run of decimal digits, read from the left. */
  function DigitsValue(s: string): nat
    requires AllDigits(s)
    decreases |s|
  {
    if |s| == 0 then 0 else DigitsValue(s[..|s| - 1]) * 10 + DigitValue(s[|s| - 1])
  }

  /** An optional sign followed by at least one ASCII digit. */
  predicate SignedDigits(s: string) {
    |s| > 0 && (AllDigits(s) || ((s[0] == '-' || s[0] == '+') && |s| > 1 && AllDigits(s[1..])))
  }

  /** A float literal as float() accepts it here: an optional sign, then digits with at most one
      decimal point and at least one digit. */
  predicate FloatLiteral(s: string) {
    var body := if |s| > 0 && (s[0] == '-' || s[0] == '+') then s[1..] else s;
    (forall k :: 0 <= k < |body| ==> IsDigit(body[k]) || body[k] == '.')
    && (forall j, k :: 0 <= j < k < |body| && body[j] == '.' ==> body[k] != '.')
    && exists k :: 0 <= k < |body| && IsDigit(body[k])
  }

  /** int(s) on a plain decimal literal: an optional sign followed by at least one digit. */
  function ParseInt(s: string): (r: Option<int>)
    ensures r.Some? ==> 0 < |s|
  {
    if |s| > 0 && (s[0] == '-' || s[0] == '+') then
      var body := s[1..];
      if |body| > 0 && AllDigits(body) then
        Some(if s[0] == '-' then -(DigitsValue(body) as int) else DigitsValue(body) as int)
      else None
    else if |s| > 0 && AllDigits(s) then Some(DigitsValue(s) as int)
    else None
  }

  /** int() accepts exactly an optional sign followed by digits, and gives the digits' value with that
      sign. */
  lemma ParseIntSpec(s: string)
    ensures ParseInt(s).Some? <==> SignedDigits(s)
    ensures ParseInt(s).Some? && AllDigits(s) ==> ParseInt(s).value == DigitsValue(s) as int
    ensures ParseInt(s).Some? && s[0] == '+' ==> ParseInt(s).value == DigitsValue(s[1..]) as int
    ensures ParseInt(s).Some? && s[0] == '-' ==> ParseInt(s).value == -(DigitsValue(s[1..]) as int)
  {
  }

  lemma {:induction false} NatToStringDigits(n: nat)
    ensures |NatToString(n)| > 0 && AllDigits(NatToString(n))
    ensures DigitsValue(NatToString(n)) == n
    decreases n
  {
    if n >= 10 {
      NatToStringDigits(n / 10);
      var s := NatToString(n / 10) + [DigitChar(n % 10)];
      assert s[..|s| - 1] == NatToString(n / 10);
      DigitRoundTrip(n % 10);
    } else {
      DigitRoundTrip(n);
    }
  }

  /** Reading back what str() wrote gives the number back (configuration ports and indices). */
  lemma IntStringRoundTrip(i: int)
    ensures ParseInt(IntToString(i)) == Some(i)
  {
    if i < 0 {
      NatToStringDigits(-i);
      ParseNegative(NatToString(-i));
    } else {
      NatToStringDigits(i);
      ParseUnsigned(NatToString(i));
    }
  }

  lemma ParseNegative(t: string)
    requires |t| > 0 && AllDigits(t)
    ensures ParseInt("-" + t) == Some(-(DigitsValue(t) as int))
  {
    var s := "-" + t;
    assert s[0] == '-' && s[1..] == t;
  }

  lemma ParseUnsigned(t: string)
    requires |t| > 0 && AllDigits(t)
    ensures ParseInt(t) == Some(DigitsValue(t) as int)
  {
    assert IsDigit(t[0]);
  }

  lemma NatToStringInjective(a: nat, b: nat)
    requires NatToString(a) == NatToString(b)
    ensures a == b
  {
    NatToStringDigits(a);
    NatToStringDigits(b);
  }

  /** t occurs in s at i. */
  predicate OccursAt(s: string, t: string, i: nat) {
    i + |t| <= |s| && s[i..i + |t|] == t
  }

  /** t occurs in s (Python's "t in s"). */
  predicate Contains(s: string, t: string) {
    exists i: nat :: i <= |s| && OccursAt(s, t, i)
  }

  predicate StartsWith(s: string, prefix: string) { |prefix| <= |s| && s[..|prefix|] == prefix }
  predicate EndsWith(s: string, suffix: string) { |suffix| <= |s| && s[|s| - |suffix|..] == suffix }

  /** str.find(c): the first index of c, or -1. */
  function Find(s: string, c: char): (r: int)
    ensures -1 <= r < |s|
    ensures r == -1 <==> c !in s
    ensures r >= 0 ==> s[r] == c && c !in s[..r]
  {
    if |s| == 0 then -1
    else if s[0] == c then 0
    else
      var k := Find(s[1..], c);
      assert s[1..] == s[1..][..] && (k >= 0 ==> s[..k + 1] == [s[0]] + s[1..][..k]);
      if k == -1 then -1 else k + 1
  }

  /** s.split(sep) for a one-character separator: the pieces between separators, at least one. */
  function Split(s: string, sep: char): (parts: seq<string>)
    ensures |parts| >= 1
    ensures forall k :: 0 <= k < |parts| ==> sep !in parts[k]
    decreases |s|
  {
    var i := Find(s, sep);
    if i == -1 then [s] else [s[..i]] + Split(s[i + 1..], sep)
  }

  /** sep.join(parts). */
  function Join(parts: seq<string>, sep: char): string {
    if |parts| == 0 then "" else if |parts| == 1 then parts[0] else parts[0] + [sep] + Join(parts[1..], sep)
  }

  /** Splitting what join wrote gives the pieces back when none of them holds the separator. */
  lemma {:induction false} SplitJoin(parts: seq<string>, sep: char)
    requires |parts| >= 1
    requires forall k :: 0 <= k < |parts| ==> sep !in parts[k]
    ensures Split(Join(parts, sep), sep) == parts
    decreases |parts|
  {
    if |parts| > 1 {
      var p := parts[0];
      var tail := parts[1..];
      assert Join(parts, sep) == p + [sep] + Join(tail, sep);
      assert sep !in p;
      SplitStep(p, Join(tail, sep), sep);
      assert forall k :: 0 <= k < |tail| ==> tail[k] == parts[k + 1];
      SplitJoin(tail, sep);
      assert parts == [p] + tail;
    } else {
      assert Join(parts, sep) == parts[0] && sep !in parts[0];
    }
  }

  lemma FindAfterFree(p: string, rest: string, c: char)
    requires c !in p && |rest| > 0 && rest[0] == c
    ensures Find(p + rest, c) == |p|
  {
    var s := p + rest;
    assert s[|p|] == c;
    assert s[..|p|] == p;
  }

  /** A piece free of the separator, then the separator: split yields the piece, then the rest's pieces. */
  lemma SplitStep(p: string, rest: string, sep: char)
    requires sep !in p
    ensures Split(p + [sep] + rest, sep) == [p] + Split(rest, sep)
  {
    var s := p + [sep] + rest;
    assert s[|p|] == sep && s[..|p|] == p;
    assert Find(s, sep) == |p|;
    assert s[|p| + 1..] == rest;
  }

  /** The characters Python's str.splitlines treats as line boundaries ("\r\n" counts as one). */
  predicate IsLineBoundary(c: char) {
    c == '\n' || c == '\r' || c == '\U{0B}' || c == '\U{0C}' || c == '\U{1C}' || c == '\U{1D}'
    || c == '\U{1E}' || c == '\U{85}' || c == '\U{2028}' || c == '\U{2029}'
  }

  function FirstBoundary(s: string): (r: int)
    ensures -1 <= r < |s|
    ensures r == -1 ==> forall k :: 0 <= k < |s| ==> !IsLineBoundary(s[k])
    ensures r >= 0 ==> IsLineBoundary(s[r]) && forall k :: 0 <= k < r ==> !IsLineBoundary(s[k])
  {
    if |s| == 0 then -1
    else if IsLineBoundary(s[0]) then 0
    else var k := FirstBoundary(s[1..]); if k == -1 then -1 else k + 1
  }

  /** s.splitlines(): the lines without their terminators; a final terminator does not open an empty line. */
  function SplitLines(s: string): (lines: seq<string>)
    ensures |s| == 0 <==> |lines| == 0
    ensures forall k, j :: 0 <= k < |lines| && 0 <= j < |lines[k]| ==> !IsLineBoundary(lines[k][j])
    decreases |s|
  {
    if |s| == 0 then []
    else
      var i := FirstBoundary(s);
      if i == -1 then [s]
      else
        var next := if s[i] == '\r' && i + 1 < |s| && s[i + 1] == '\n' then i + 2 else i + 1;
        [s[..i]] + SplitLines(s[next..])
  }

  /** s.rjust(width): left-padded with blanks to at least width characters. */
  function RJust(s: string, width: nat): (r: string)
    ensures |r| == if |s| >= width then |s| else width
    ensures r[|r| - |s|..] == s
    ensures forall k :: 0 <= k < |r| - |s| ==> r[k] == ' '
  {
    if |s| >= width then s else seq(width - |s|, _ => ' ') + s
  }

  /** A number written with exactly two digits, zero-padded ("%02d"). */
  function Pad2(n: nat): (s: string)
    requires n < 100
    ensures |s| == 2 && AllDigits(s) && DigitsValue(s) == n
  {
    var s := [DigitChar(n / 10), DigitChar(n % 10)];
    DigitRoundTrip(n / 10);
    DigitRoundTrip(n % 10);
    TwoDigitsValue(s);
    s
  }

  lemma TwoDigitsValue(b: string)
    requires |b| == 2 && AllDigits(b)
    ensures DigitsValue(b) == DigitValue(b[0]) * 10 + DigitValue(b[1])
  {
    var h := b[..1];
    assert h == [b[0]] && h[..0] == [];
    assert DigitsValue(h) == DigitValue(b[0]);
    assert b[..|b| - 1] == h;
  }

  /** A number written with exactly four digits, zero-padded ("%04d"). */
  function Pad4(n: nat): (s: string)
    requires n < 10000
    ensures |s| == 4 && AllDigits(s) && DigitsValue(s) == n
  {
    var s := Pad2(n / 100) + Pad2(n % 100);
    DigitsValueConcat2(Pad2(n / 100), Pad2(n % 100));
    s
  }

  lemma DigitsValueConcat2(a: string, b: string)
    requires |b| == 2 && AllDigits(a) && AllDigits(b)
    ensures AllDigits(a + b) && DigitsValue(a + b) == DigitsValue(a) * 100 + DigitsValue(b)
  {
    var s := a + b;
    var t := a + [b[0]];
    assert s[..|s| - 1] == t;
    assert t[..|t| - 1] == a;
    assert DigitsValue(t) == DigitsValue(a) * 10 + DigitValue(b[0]);
    assert DigitsValue(s) == DigitsValue(t) * 10 + DigitValue(b[1]);
    TwoDigitsValue(b);
  }

  /** The characters str.strip() removes: those str.isspace() accepts, from \t to \r, from \x1c to the
      blank, the next line \x85, the no-break space \xa0 and the Unicode spaces and separators. */
  predicate IsSpace(c: char) {
    ('\t' <= c <= '\r') || ('\U{1C}' <= c <= ' ') || c == '\U{85}' || c == '\U{A0}' || c == '\U{1680}'
    || ('\U{2000}' <= c <= '\U{200A}') || c == '\U{2028}' || c == '\U{2029}' || c == '\U{202F}'
    || c == '\U{205F}' || c == '\U{3000}'
  }

  /** The number of leading blanks. */
  function LeadingSpaces(s: string): (n: nat)
    ensures n <= |s|
    ensures forall k :: 0 <= k < n ==> IsSpace(s[k])
    ensures n < |s| ==> !IsSpace(s[n])
  {
    if |s| > 0 && IsSpace(s[0]) then 1 + LeadingSpaces(s[1..]) else 0
  }

  /** The length of s without its trailing blanks. */
  function TrailingStart(s: string): (n: nat)
    ensures n <= |s|
    ensures forall k :: n <= k < |s| ==> IsSpace(s[k])
    ensures n > 0 ==> !IsSpace(s[n - 1])
  {
    if |s| > 0 && IsSpace(s[|s| - 1]) then TrailingStart(s[..|s| - 1]) else |s|
  }

  /** s.strip(): s without its leading and trailing blanks. */
  function Strip(s: string): (r: string)
    ensures |r| <= |s|
    ensures |r| > 0 ==> !IsSpace(r[0]) && !IsSpace(r[|r| - 1])
    ensures (forall k :: 0 <= k < |s| ==> !IsSpace(s[k])) ==> r == s
  {
    var a := LeadingSpaces(s);
    var t := s[a..];
    var b := TrailingStart(t);
    assert b > 0 ==> t[0] == s[a];
    t[..b]
  }

  /** Stripping twice strips nothing more. */
  lemma StripIdempotent(s: string)
    ensures Strip(Strip(s)) == Strip(s)
  {
    var r := Strip(s);
    if |r| > 0 {
      assert LeadingSpaces(r) == 0;
      assert TrailingStart(r) == |r|;
    }
  }

  // ---------------------------------------------------------------------------------------------
  // Python's str ordering (also sqlite's BINARY collation on the UTF-8 text)

  /** a <= b for Python strings: code points compared from the left, a proper prefix first. */
  predicate StrLe(a: string, b: string)
    decreases |a|
  {
    |a| == 0 || (|b| > 0 && (a[0] < b[0] || (a[0] == b[0] && StrLe(a[1..], b[1..]))))
  }

  lemma {:induction false} StrLeTransitive(a: string, b: string, c: string)
    requires StrLe(a, b) && StrLe(b, c)
    ensures StrLe(a, c)
    decreases |a|
  {
    if |a| > 0 && a[0] == b[0] && b[0] == c[0] {
      StrLeTransitive(a[1..], b[1..], c[1..]);
    }
  }

  lemma {:induction false} StrLeTotal(a: string, b: string)
    ensures StrLe(a, b) || StrLe(b, a)
    decreases |a|
  {
    if |a| > 0 && |b| > 0 && a[0] == b[0] {
      StrLeTotal(a[1..], b[1..]);
    }
  }

  lemma {:induction false} StrLeAntisymmetric(a: string, b: string)
    requires StrLe(a, b) && StrLe(b, a)
    ensures a == b
    decreases |a|
  {
    if |a| > 0 {
      StrLeAntisymmetric(a[1..], b[1..]);
      assert a == [a[0]] + a[1..] && b == [b[0]] + b[1..];
    }
  }
}
