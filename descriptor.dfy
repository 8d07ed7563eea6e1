/** The column descriptors of the tree views (ExtTreeView.__parseInfoList, tabacchi/utility.py:985-1072).
    A view is described by a list of (header, data type[, model id]) entries. The header may start with
    modifier characters that make the column editable ('*'), sortable ('^'), resizable ('!') or
    expandable ('+'); the data type is a type name optionally followed by "#<int digits>,<decimal digits>"
    and "/<step or i<column>>,<min>,<max>", as in "float#3,3/i5,0,12"; a dictionary in place of the data
    type shows the column's integers through that dictionary. The GTK list store built from the parsed
    types is modelled by the list of Python types handed to it. */
module Descriptor {
  import opened Wrappers
  import opened Text

  // NumEntry.INT_DIGITS and NumEntry.DEC_DIGITS (tabacchi/utility.py:734-735)
  const INT_DIGITS: int := 9
  const DEC_DIGITS: int := 0

  /** ExtTreeView.modifier_chars: EDITABLE, SORTABLE, RESIZABLE, EXPANDABLE. */
  predicate IsModifier(c: char) { c == '*' || c == '^' || c == '!' || c == '+' }

  /** The second element of an entry: a type text, or a dictionary of the values shown. */
  datatype DataType = Named(name: string) | Dict(entries: map<int, string>)

  /** One entry of the model info list; a header of None is a hidden column. */
  datatype Info = Info(desc: Option<string>, dataType: DataType, modelId: Option<int>)

  /** The four flags in the order the property list stores them: edit, sort, expand, resize. */
  datatype Props = Props(edit: bool, sort: bool, expand: bool, resize: bool)

  /** The Python type of a list-store column. */
  datatype StoreType = StrType | IntType | BoolType | FloatType | ObjectType

  /** A spin button's bound: float('-inf'), float('inf') or the text of a float literal. */
  datatype Bound = MinusInf | PlusInf | Number(text: string)

  /** The increment: the index of the column holding it ("i<n>"), or a fixed step. */
  datatype Spin = IndexOf(column: int) | Step(text: string)

  datatype Adjustment = Adjustment(spin: Spin, min: Bound, max: Bound)

  /** Everything one entry contributes: the header without its modifiers, the flags, the model id and
      the list-store slot it names, the dictionary, the bare type name, the store type, the digits and
      the spin adjustment. */
  datatype Column = Column(desc: Option<string>, props: Props, modelId: int, slot: nat,
                           dict: Option<map<int, string>>, name: string, store: StoreType,
                           digits: Option<(int, int)>, adj: Option<Adjustment>)

  // ---------------------------------------------------------------------------------------------
  // The header

  /** The length of the header's leading run of modifier characters: the longest such prefix. */
  function ModifierPrefix(s: string): (n: nat)
    ensures n <= |s| && forall j :: 0 <= j < n ==> IsModifier(s[j])
    ensures n < |s| ==> !IsModifier(s[n])
    decreases |s|
  {
    if |s| == 0 || !IsModifier(s[0]) then 0 else 1 + ModifierPrefix(s[1..])
  }

  function Flags(mods: string): Props {
    Props('*' in mods, '^' in mods, '+' in mods, '!' in mods)
  }

  /** The header shown and the flags of a header; a hidden column has every flag false. */
  function Header(desc: Option<string>): (Option<string>, Props) {
    match desc
    case None => (None, Props(false, false, false, false))
    case Some(d) => var k := ModifierPrefix(d); (Some(d[k..]), Flags(d[..k]))
  }

  predicate AllModifiers(s: string) { forall j :: 0 <= j < |s| ==> IsModifier(s[j]) }

  /** The modifier run is the only prefix of modifiers followed by a non-modifier or the end. */
  lemma {:induction false} PrefixUnique(d: string, m: nat)
    requires m <= |d| && (forall j :: 0 <= j < m ==> IsModifier(d[j])) && (m < |d| ==> !IsModifier(d[m]))
    ensures ModifierPrefix(d) == m
    decreases m
  {
    if m > 0 {
      assert IsModifier(d[0]);
      assert forall j :: 0 <= j < m - 1 ==> d[1..][j] == d[j + 1];
      PrefixUnique(d[1..], m - 1);
    }
  }

  /** A header is cut exactly once at the end of its modifier run, and each flag is set iff its
      character occurs in that run. */
  lemma HeaderFlags(d: string, mods: string, rest: string)
    requires mods + rest == d && AllModifiers(mods)
    requires rest == [] || !IsModifier(rest[0])
    ensures Header(Some(d)) == (Some(rest), Props('*' in mods, '^' in mods, '+' in mods, '!' in mods))
  {
    var k := ModifierPrefix(d);
    PrefixUnique(d, |mods|);
    assert d[..k] == mods && d[k..] == rest;
  }

  /** The header a set of flags is written with, in front of the shown title. */
  function HeaderText(p: Props): string {
    (if p.edit then "*" else "") + (if p.sort then "^" else "") + (if p.resize then "!" else "")
    + (if p.expand then "+" else "")
  }

  /** The written header is all modifiers, and holds each flag's character iff the flag is set. */
  lemma HeaderTextFlags(p: Props)
    ensures AllModifiers(HeaderText(p)) && Flags(HeaderText(p)) == p
  {
    var e, s, r, x := (if p.edit then "*" else ""), (if p.sort then "^" else ""),
                      (if p.resize then "!" else ""), (if p.expand then "+" else "");
    var h := HeaderText(p);
    assert h == e + s + r + x;
    ModifiersCat(e, s);
    ModifiersCat(e + s, r);
    ModifiersCat(e + s + r, x);
    assert '*' in h <==> '*' in e;
    assert '^' in h <==> '^' in s;
    assert '!' in h <==> '!' in r;
    assert '+' in h <==> '+' in x;
  }

  lemma ModifiersCat(a: string, b: string)
    requires AllModifiers(a) && AllModifiers(b)
    ensures AllModifiers(a + b)
  {
    assert forall j :: |a| <= j < |a + b| ==> (a + b)[j] == b[j - |a|];
  }

  /** Writing the flags in front of a title that does not start with a modifier and parsing the header
      gives the flags and the title back. */
  lemma HeaderRoundTrip(p: Props, title: string)
    requires title == [] || !IsModifier(title[0])
    ensures Header(Some(HeaderText(p) + title)) == (Some(title), p)
  {
    HeaderTextFlags(p);
    HeaderFlags(HeaderText(p) + title, HeaderText(p), title);
  }

  // ---------------------------------------------------------------------------------------------
  // The data type

  /** A run of digits is a float literal. */
  lemma DigitsFloat(s: string)
    requires |s| > 0 && AllDigits(s)
    ensures FloatLiteral(s)
  {
    assert IsDigit(s[0]);
  }

  /** float(s). */
  function ParseFloat(s: string): (r: Result<Bound>)
    ensures r.Ok? <==> FloatLiteral(s)
    ensures r.Ok? ==> r.value == Number(s)
  {
    if FloatLiteral(s) then Ok(Number(s)) else Err(ValueError("could not convert string to float: '" + s + "'"))
  }

  /** int(s). */
  function ParseInteger(s: string): (r: Result<int>)
    ensures r.Ok? <==> ParseInt(s).Some?
    ensures r.Ok? ==> r.value == ParseInt(s).value
  {
    match ParseInt(s)
    case Some(v) => Ok(v)
    case None => Err(ValueError("invalid literal for int() with base 10: '" + s + "'"))
  }

  /** s[:place] and s[place + 1:] around the first c, when there is one. */
  function Cut(s: string, c: char): (string, Option<string>) {
    var i := Find(s, c);
    if i == -1 then (s, None) else (s[..i], Some(s[i + 1..]))
  }

  /** A spin value: "i<n>" names column n, anything else is a float step. */
  function ParseSpin(spin: string): Result<Spin> {
    if |spin| > 0 && spin[0] == 'i' then
      match ParseInteger(spin[1..]) case Ok(i) => Ok(IndexOf(i)) case Err(e) => Err(e)
    else
      match ParseFloat(spin) case Ok(b) => Ok(Step(spin)) case Err(e) => Err(e)
  }

  /** The text after '/': the spin value, then the minimum and the maximum, which default to -inf and
      +inf; a spin value starting with 'i' names the column holding the increment. */
  function ParseAdjustment(text: string): Result<Adjustment> {
    var adj := Split(text, ',');
    var s := ParseSpin(adj[0]);
    var lo := if |adj| > 1 then ParseFloat(adj[1]) else Ok(MinusInf);
    var hi := if |adj| > 2 then ParseFloat(adj[2]) else Ok(PlusInf);
    if s.Err? then Err(s.error)
    else if lo.Err? then Err(lo.error)
    else if hi.Err? then Err(hi.error)
    else Ok(Adjustment(s.value, lo.value, hi.value))
  }

  /** The text after '#': the integer digits, then the decimal digits, which default to DEC_DIGITS.
      str.split always gives a first field, so the integer digits are always read from the text. */
  function ParseDigits(text: string): Result<(int, int)> {
    var digstr := Split(text, ',');
    var intDig := ParseInteger(digstr[0]);
    var decDig := if |digstr| > 1 then ParseInteger(digstr[1]) else Ok(DEC_DIGITS);
    if intDig.Err? then Err(intDig.error)
    else if decDig.Err? then Err(decDig.error)
    else Ok((intDig.value, decDig.value))
  }

  /** A data type text taken apart: the bare name, the digits after '#' and the adjustment after '/'. */
  datatype TypeSpec = TypeSpec(name: string, digits: Option<(int, int)>, adj: Option<Adjustment>)

  /** The '/' suffix is cut off first; the '#' suffix is then looked for in what is left. */
  function ParseType(text: string): Result<TypeSpec> {
    var slash := Cut(text, '/');
    var hash := Cut(slash.0, '#');
    var adj := if slash.1.Some? then
                 match ParseAdjustment(slash.1.value) case Ok(a) => Ok(Some(a)) case Err(e) => Err(e)
               else Ok(None);
    var digits := if hash.1.Some? then
                    match ParseDigits(hash.1.value) case Ok(d) => Ok(Some(d)) case Err(e) => Err(e)
                  else Ok(None);
    if adj.Err? then Err(adj.error)
    else if digits.Err? then Err(digits.error)
    else Ok(TypeSpec(hash.0, digits.value, adj.value))
  }

  predicate KnownType(name: string) {
    name == "str" || name == "int" || name == "dict" || name == "bool" || name == "float"
    || name == "currency" || name == "date"
  }

  /** The Python type of a bare type name, with the default digits of the numeric types. */
  function StoreOf(name: string, digits: Option<(int, int)>, fracDigits: int): Result<(StoreType, Option<(int, int)>)> {
    if name == "str" then Ok((StrType, digits))
    else if name == "int" then Ok((IntType, Some(digits.GetOr((INT_DIGITS, 0)))))
    else if name == "dict" then Ok((IntType, digits))
    else if name == "bool" then Ok((BoolType, digits))
    else if name == "float" then Ok((FloatType, Some(digits.GetOr((INT_DIGITS, 3)))))
    else if name == "currency" then Ok((FloatType, Some(digits.GetOr((INT_DIGITS, fracDigits)))))
    else if name == "date" then Ok((ObjectType, digits))
    else Err(ValueError("DataType \"" + name + "\" unknown. Legal values: \"str\", \"int\", \"bool\", \"float\", \"object\", \"dict\""))
  }

  /** The type names the view knows, and what each defaults to when no digits are written: int (9, 0),
      float (9, 3), currency (9, the locale's decimals); every other name is a ValueError. */
  lemma StoreDefaults(name: string, fracDigits: int)
    ensures var r := StoreOf(name, None, fracDigits);
            && (r.Ok? <==> KnownType(name))
            && (r.Err? ==> r.error.ValueError?)
            && (name == "int" ==> r == Ok((IntType, Some((9, 0)))))
            && (name == "dict" ==> r == Ok((IntType, None)))
            && (name == "float" ==> r == Ok((FloatType, Some((9, 3)))))
            && (name == "currency" ==> r == Ok((FloatType, Some((9, fracDigits)))))
            && (name == "str" || name == "bool" || name == "date" ==> r.Ok? && r.value.1 == None)
  {
  }

  lemma StoreKnown(name: string, digits: Option<(int, int)>, fracDigits: int)
    ensures StoreOf(name, digits, fracDigits).Ok? <==> KnownType(name)
  {
  }

  /** Written digits win over the defaults, whatever the type. */
  lemma StoreKeepsDigits(name: string, d: (int, int), fracDigits: int)
    requires KnownType(name)
    ensures StoreOf(name, Some(d), fracDigits).Ok? && StoreOf(name, Some(d), fracDigits).value.1 == Some(d)
  {
  }

  function TypeText(t: DataType): string {
    if t.Dict? then "dict" else t.name
  }

  /** One entry as the loop body reads it, at position pos of a list of n entries; fracDigits is the
      locale's frac_digits. */
  function ColumnOf(info: Info, pos: nat, n: nat, fracDigits: int): (r: Result<Column>)
    ensures r.Ok? ==> r.value.modelId == info.modelId.GetOr(pos) && -(n as int) <= r.value.modelId < n
    ensures r.Ok? ==> r.value.slot < n && (r.value.modelId >= 0 ==> r.value.slot == r.value.modelId)
  {
    Assemble(info, ParseType(TypeText(info.dataType)), pos, n, fracDigits)
  }

  /** The column of an entry whose type text has been read as t. The model id is the position unless
      the entry gives one; Python's negative indices count from the end of the list store. */
  function Assemble(info: Info, t: Result<TypeSpec>, pos: nat, n: nat, fracDigits: int): (r: Result<Column>)
    ensures r.Ok? ==> r.value.modelId == info.modelId.GetOr(pos) && -(n as int) <= r.value.modelId < n
    ensures r.Ok? ==> r.value.slot < n && (r.value.modelId >= 0 ==> r.value.slot == r.value.modelId)
  {
    var modelId := info.modelId.GetOr(pos);
    var dict := if info.dataType.Dict? then Some(info.dataType.entries) else None;
    match t
    case Err(e) => Err(e)
    case Ok(t) =>
      match StoreOf(t.name, t.digits, fracDigits)
      case Err(e) => Err(e)
      case Ok(st) =>
        if !(-(n as int) <= modelId < n) then Err(IndexError("list assignment index out of range"))
        else
          var header := Header(info.desc);
          var slot := if modelId < 0 then modelId + n else modelId;
          Ok(Column(header.0, header.1, modelId, slot, dict, t.name, st.0, st.1, t.adj))
  }

  /** A column shows its entry's header with the flags the header carries. */
  lemma ColumnHeader(info: Info, t: Result<TypeSpec>, pos: nat, n: nat, fracDigits: int)
    ensures var r := Assemble(info, t, pos, n, fracDigits);
            r.Ok? ==> r.value.desc == Header(info.desc).0 && r.value.props == Header(info.desc).1
  {
  }

  /** A column is its entry's header, flags, dictionary and type; it raises exactly when the type text
      does, when the type name is unknown, or when the model id is past the list store (IndexError). */
  lemma ColumnParts(info: Info, t: Result<TypeSpec>, pos: nat, n: nat, fracDigits: int)
    ensures var r := Assemble(info, t, pos, n, fracDigits);
            var id := info.modelId.GetOr(pos);
            && (r.Ok? <==> t.Ok? && KnownType(t.value.name) && -(n as int) <= id < n)
            && (t.Err? ==> r == Err(t.error))
            && (t.Ok? && KnownType(t.value.name) && !(-(n as int) <= id < n) ==> r.Err? && r.error.IndexError?)
            && (r.Ok? ==> (r.value.desc, r.value.props) == Header(info.desc)
                          && r.value.name == t.value.name && r.value.adj == t.value.adj
                          && (r.value.dict.Some? <==> info.dataType.Dict?))
  {
    if t.Ok? {
      StoreKnown(t.value.name, t.value.digits, fracDigits);
    }
  }

  /** A dictionary column is an int column whose values are shown through the dictionary. */
  lemma DictColumn(desc: Option<string>, entries: map<int, string>, pos: nat, n: nat, fracDigits: int)
    requires pos < n
    ensures var r := ColumnOf(Info(desc, Dict(entries), None), pos, n, fracDigits);
            r.Ok? && r.value.store == IntType && r.value.dict == Some(entries) && r.value.digits == None
  {
    assert Find("dict", '/') == -1 && Find("dict", '#') == -1;
  }

  // ---------------------------------------------------------------------------------------------
  // Writing a data type back

  /** The characters of a written number: digits, signs and the decimal point. */
  predicate NumChar(c: char) { IsDigit(c) || c == '-' || c == '+' || c == '.' }

  predicate NumText(s: string) { forall k :: 0 <= k < |s| ==> NumChar(s[k]) }

  function DigitsText(d: (int, int)): string { IntToString(d.0) + "," + IntToString(d.1) }

  function SpinText(s: Spin): string {
    match s
    case IndexOf(i) => "i" + IntToString(i)
    case Step(t) => t
  }

  /** An adjustment that can be written: a literal step and both bounds given as literals. */
  predicate Writable(a: Adjustment) {
    (a.spin.Step? ==> FloatLiteral(a.spin.text))
    && a.min.Number? && FloatLiteral(a.min.text) && a.max.Number? && FloatLiteral(a.max.text)
  }

  function AdjustmentText(a: Adjustment): string
    requires Writable(a)
  {
    SpinText(a.spin) + "," + a.min.text + "," + a.max.text
  }

  /** The type text of a name with its optional digits and adjustment. */
  function SpecText(t: TypeSpec): string
    requires t.adj.Some? ==> Writable(t.adj.value)
  {
    t.name + (if t.digits.Some? then "#" + DigitsText(t.digits.value) else "")
    + (if t.adj.Some? then "/" + AdjustmentText(t.adj.value) else "")
  }

  lemma IntTextChars(i: int)
    ensures |IntToString(i)| > 0 && NumText(IntToString(i))
  {
    if i < 0 {
      var d := NatToString(-i);
      NatToStringDigits(-i);
      assert NumText(d);
      assert NumText("-");
      NumTextAppend("-", d);
    } else {
      NatToStringDigits(i);
    }
  }

  lemma FloatChars(s: string)
    requires FloatLiteral(s)
    ensures |s| > 0 && NumText(s)
  {
    if |s| > 0 && (s[0] == '-' || s[0] == '+') {
      assert forall k :: 1 <= k < |s| ==> s[k] == s[1..][k - 1];
    }
  }

  lemma NumTextAppend(a: string, b: string)
    requires NumText(a) && NumText(b)
    ensures NumText(a + b)
  {
    assert forall k :: |a| <= k < |a + b| ==> (a + b)[k] == b[k - |a|];
  }

  /** A written number holds none of the separators. */
  lemma NoSeparators(s: string)
    requires NumText(s)
    ensures ',' !in s && '/' !in s && '#' !in s
  {
    assert forall k :: 0 <= k < |s| ==> s[k] != ',' && s[k] != '/' && s[k] != '#';
  }

  lemma DigitsTextParses(d: (int, int))
    ensures '/' !in DigitsText(d) && '#' !in DigitsText(d)
    ensures ParseDigits(DigitsText(d)) == Ok(d)
  {
    var a, b := IntToString(d.0), IntToString(d.1);
    IntTextChars(d.0);
    IntTextChars(d.1);
    NoSeparators(a);
    NoSeparators(b);
    assert DigitsText(d) == Join([a, b], ',');
    SplitJoin([a, b], ',');
    IntStringRoundTrip(d.0);
    IntStringRoundTrip(d.1);
    assert '/' !in a + "," + b && '#' !in a + "," + b;
  }

  lemma SpinTextParses(sp: Spin)
    requires sp.Step? ==> FloatLiteral(sp.text)
    ensures ',' !in SpinText(sp)
    ensures ParseSpin(SpinText(sp)) == Ok(sp)
  {
    match sp {
      case IndexOf(i) =>
        IntTextChars(i);
        IntStringRoundTrip(i);
        NoSeparators(IntToString(i));
        assert SpinText(sp) == "i" + IntToString(i) && SpinText(sp)[1..] == IntToString(i);
      case Step(t) =>
        FloatChars(t);
        NoSeparators(t);
        assert t[0] != 'i' by { assert NumChar(t[0]); }
    }
  }

  lemma AdjustmentTextParses(a: Adjustment)
    requires Writable(a)
    ensures ParseAdjustment(AdjustmentText(a)) == Ok(a)
  {
    var sp := SpinText(a.spin);
    FloatChars(a.min.text);
    FloatChars(a.max.text);
    NoSeparators(a.min.text);
    NoSeparators(a.max.text);
    SpinTextParses(a.spin);
    var parts := [sp, a.min.text, a.max.text];
    assert Join(parts[2..], ',') == a.max.text;
    assert Join(parts[1..], ',') == a.min.text + "," + a.max.text;
    assert AdjustmentText(a) == Join(parts, ',');
    SplitJoin(parts, ',');
  }

  /** The text written after a separator c, when there is one. */
  function Suffix(c: char, o: Option<string>): string {
    if o.Some? then [c] + o.value else ""
  }

  /** Cutting at c what was written with it gives the parts back, when the head holds no c. */
  lemma CutSuffix(head: string, c: char, o: Option<string>)
    requires c !in head
    ensures Cut(head + Suffix(c, o), c) == (head, o)
  {
    if o.Some? {
      FindAfterFree(head, [c] + o.value, c);
      var s := head + ([c] + o.value);
      assert s[..|head|] == head && s[|head| + 1..] == o.value;
    } else {
      assert head + Suffix(c, o) == head;
    }
  }

  /** Writing a type name with its digits and adjustment and reading the text back gives them back,
      when the name holds neither separator. */
  lemma TypeRoundTrip(t: TypeSpec)
    requires '/' !in t.name && '#' !in t.name
    requires t.adj.Some? ==> Writable(t.adj.value)
    ensures ParseType(SpecText(t)) == Ok(t)
  {
    var dig := if t.digits.Some? then Some(DigitsText(t.digits.value)) else None;
    var adj := if t.adj.Some? then Some(AdjustmentText(t.adj.value)) else None;
    var head := t.name + Suffix('#', dig);
    if t.digits.Some? {
      DigitsTextParses(t.digits.value);
      assert '/' !in "#" + DigitsText(t.digits.value);
    }
    assert '/' !in head;
    if t.adj.Some? {
      AdjustmentTextParses(t.adj.value);
    }
    assert SpecText(t) == head + Suffix('/', adj);
    CutSuffix(head, '/', adj);
    CutSuffix(t.name, '#', dig);
  }

  /** A text holding a character no number is written with is not a float literal. */
  lemma NotFloat(s: string, k: nat)
    requires k < |s| && !NumChar(s[k])
    ensures !FloatLiteral(s)
  {
    if FloatLiteral(s) {
      FloatChars(s);
    }
  }

  /** A single field that is neither a column reference nor a float literal is refused as a step. */
  lemma BadStep(text: string)
    requires ',' !in text && (|text| > 0 ==> text[0] != 'i') && !FloatLiteral(text)
    ensures ParseAdjustment(text).Err?
  {
    assert Split(text, ',') == [text];
  }

  /** The '/' suffix is cut first, so a '#' written after it belongs to the step: the text is refused
      instead of being read as digits. */
  lemma HashAfterSlash(name: string, step: string, digits: string)
    requires '/' !in name && ',' !in step && ',' !in digits && (|step| > 0 ==> step[0] != 'i')
    ensures ParseType(name + "/" + step + "#" + digits).Err?
  {
    var text := step + "#" + digits;
    assert text[|step|] == '#';
    NotFloat(text, |step|);
    assert ',' !in text;
    assert |text| > 0 ==> text[0] != 'i';
    BadStep(text);
    assert name + "/" + step + "#" + digits == name + Suffix('/', Some(text));
    CutSuffix(name, '/', Some(text));
  }

  // ---------------------------------------------------------------------------------------------
  // The whole list

  /** The descriptor fields of the view, as the dictionaries and lists of ExtTreeView hold them: the
      shown headers and the property lists grow by one per entry; modelId and modelTypes have a slot per
      entry; digits and the adjustments are keyed by position, dictionaries by model id. */
  datatype Columns = Columns(descs: seq<Option<string>>, types: seq<Option<string>>, ids: seq<Option<int>>,
                             dictionaries: map<int, map<int, string>>, digits: map<nat, (int, int)>,
                             props: seq<Props>, adjMin: map<nat, Bound>, adjMax: map<nat, Bound>,
                             adjValues: map<nat, string>, adjIndexes: map<nat, int>)

  /** The fields as the constructor sets them before parsing a list of n entries. */
  function Empty(n: nat): Columns {
    Columns([], seq(n, _ => None), seq(n, _ => None), map[], map[], [], map[], map[], map[], map[])
  }

  /** The fields after the entry at position pos has been read. */
  function Record(st: Columns, pos: nat, c: Column): (r: Columns)
    requires pos < |st.ids| && c.slot < |st.types|
    ensures |r.ids| == |st.ids| && |r.types| == |st.types|
  {
    var adj := c.adj;
    Columns(st.descs + [c.desc],
            st.types[c.slot := Some(c.name)],
            st.ids[pos := Some(c.modelId)],
            if c.dict.Some? then st.dictionaries[c.modelId := c.dict.value] else st.dictionaries,
            if c.digits.Some? then st.digits[pos := c.digits.value] else st.digits,
            st.props + [c.props],
            if adj.Some? then st.adjMin[pos := adj.value.min] else st.adjMin,
            if adj.Some? then st.adjMax[pos := adj.value.max] else st.adjMax,
            if adj.Some? && adj.value.spin.Step? then st.adjValues[pos := adj.value.spin.text] else st.adjValues,
            if adj.Some? && adj.value.spin.IndexOf? then st.adjIndexes[pos := adj.value.spin.column] else st.adjIndexes)
  }

  /** The fields, the list-store types and the error after reading some entries of a list of n. */
  datatype Parsing = Parsing(cols: Columns, model: seq<Option<StoreType>>, err: Option<Error>)

  /** Every entry read so far names a slot of the list store. */
  predicate InRange(rs: seq<Result<Column>>, n: nat) {
    forall k :: 0 <= k < |rs| && rs[k].Ok? ==> rs[k].value.slot < n
  }

  /** Reading the entries in order, from their columns: the first one that raises stops the loop. */
  function Fold(rs: seq<Result<Column>>, n: nat): (p: Parsing)
    requires |rs| <= n && InRange(rs, n)
    ensures |p.cols.ids| == n && |p.cols.types| == n && |p.model| == n
    decreases |rs|
  {
    if |rs| == 0 then Parsing(Empty(n), seq(n, _ => None), None)
    else
      var p := Fold(rs[..|rs| - 1], n);
      if p.err.Some? then p
      else
        match rs[|rs| - 1]
        case Err(e) => p.(err := Some(e))
        case Ok(c) => Parsing(Record(p.cols, |rs| - 1, c), p.model[c.slot := Some(c.store)], None)
  }

  /** f applied to every element of s and its index. */
  function MapIndexed<A, B>(f: (A, nat) -> B, s: seq<A>): (r: seq<B>)
    ensures |r| == |s| && forall k :: 0 <= k < |s| ==> r[k] == f(s[k], k)
  {
    seq(|s|, k requires 0 <= k < |s| => f(s[k], k))
  }

  /** The column of every entry, at its position in a list of n. */
  function Reads(infos: seq<Info>, n: nat, fracDigits: int): (rs: seq<Result<Column>>)
    ensures |rs| == |infos|
  {
    MapIndexed((info: Info, k: nat) => ColumnOf(info, k, n, fracDigits), infos)
  }

  lemma ReadsAt(infos: seq<Info>, n: nat, fracDigits: int, k: nat)
    requires k < |infos|
    ensures Reads(infos, n, fracDigits)[k] == ColumnOf(infos[k], k, n, fracDigits)
  {
  }

  lemma ReadsInRange(infos: seq<Info>, n: nat, fracDigits: int)
    ensures InRange(Reads(infos, n, fracDigits), n)
  {
    var rs := Reads(infos, n, fracDigits);
    forall k | 0 <= k < |rs| && rs[k].Ok?
      ensures rs[k].value.slot < n
    {
      ReadsAt(infos, n, fracDigits, k);
    }
  }

  /** __parseInfoList's fields, list-store types and error for a list of entries. */
  function Run(infos: seq<Info>, fracDigits: int): Parsing {
    ReadsInRange(infos, |infos|, fracDigits);
    Fold(Reads(infos, |infos|, fracDigits), |infos|)
  }

  /** What the parse returns: the types of the list store, or the exception raised. */
  function Returned(p: Parsing): Result<seq<Option<StoreType>>> {
    if p.err.Some? then Err(p.err.value) else Ok(p.model)
  }

  lemma PrefixSnoc<T>(s: seq<T>, k: nat)
    requires k < |s|
    ensures s[..k + 1][..k] == s[..k] && s[..k + 1][k] == s[k]
  {
  }

  /** Once an entry has raised, the entries after it are not read. */
  lemma {:induction false} FoldStops(rs: seq<Result<Column>>, k: nat, n: nat)
    requires k <= |rs| <= n && InRange(rs, n) && Fold(rs[..k], n).err.Some?
    ensures Fold(rs, n) == Fold(rs[..k], n)
    decreases |rs| - k
  {
    if k < |rs| {
      PrefixSnoc(rs, k);
      assert Fold(rs[..k + 1], n) == Fold(rs[..k], n);
      FoldStops(rs, k + 1, n);
    } else {
      assert rs[..k] == rs;
    }
  }

  /** The loop raises iff some entry raises. */
  lemma {:induction false} FoldFails(rs: seq<Result<Column>>, n: nat)
    requires |rs| <= n && InRange(rs, n)
    ensures Fold(rs, n).err.Some? <==> exists k :: 0 <= k < |rs| && rs[k].Err?
    decreases |rs|
  {
    if |rs| > 0 {
      var init := rs[..|rs| - 1];
      FoldFails(init, n);
      assert forall k :: 0 <= k < |init| ==> init[k] == rs[k];
    }
  }

  /** A list read without error: every entry read, one shown header and one property entry per entry,
      in order, each the entry's own; every entry's model id recorded at its position and the
      positions past the list untouched. */
  lemma {:induction false} FoldColumns(rs: seq<Result<Column>>, n: nat)
    requires |rs| <= n && InRange(rs, n) && Fold(rs, n).err.None?
    ensures var p := Fold(rs, n);
            && |p.cols.descs| == |p.cols.props| == |rs|
            && (forall k :: 0 <= k < |rs| ==> rs[k].Ok?)
            && (forall k :: 0 <= k < |rs| ==>
                  p.cols.descs[k] == rs[k].value.desc && p.cols.props[k] == rs[k].value.props
                  && p.cols.ids[k] == Some(rs[k].value.modelId))
            && (forall k :: |rs| <= k < n ==> p.cols.ids[k] == None)
    decreases |rs|
  {
    if |rs| > 0 {
      var init := rs[..|rs| - 1];
      FoldFails(rs, n);
      FoldColumns(init, n);
      assert forall k :: 0 <= k < |init| ==> init[k] == rs[k];
    }
  }

  /** A list read without error: digits and bounds recorded, under the entry's position, exactly for
      the entries that have them. */
  lemma FoldDigits(rs: seq<Result<Column>>, n: nat)
    requires |rs| <= n && InRange(rs, n) && Fold(rs, n).err.None?
    ensures var p := Fold(rs, n);
            && (forall k: nat :: k in p.cols.digits <==> k < |rs| && rs[k].Ok? && rs[k].value.digits.Some?)
            && (forall k: nat :: k in p.cols.digits ==> p.cols.digits[k] == rs[k].value.digits.value)
            && (forall k: nat :: k in p.cols.adjMin <==> k < |rs| && rs[k].Ok? && rs[k].value.adj.Some?)
            && (forall k: nat :: k in p.cols.adjMin ==> p.cols.adjMin[k] == rs[k].value.adj.value.min)
  {
    FoldDigitMap(rs, n);
    FoldMinMap(rs, n);
  }

  /** The step of the fold on a list read without error: the last entry is recorded on the fold of the rest. */
  lemma FoldLast(rs: seq<Result<Column>>, n: nat)
    requires 0 < |rs| <= n && InRange(rs, n) && Fold(rs, n).err.None?
    ensures var init := rs[..|rs| - 1];
            && Fold(init, n).err.None? && rs[|rs| - 1].Ok?
            && Fold(rs, n).cols == Record(Fold(init, n).cols, |rs| - 1, rs[|rs| - 1].value)
            && forall k :: 0 <= k < |init| ==> init[k] == rs[k]
  {
  }

  lemma {:induction false} FoldDigitMap(rs: seq<Result<Column>>, n: nat)
    requires |rs| <= n && InRange(rs, n) && Fold(rs, n).err.None?
    ensures var p := Fold(rs, n);
            && (forall k: nat :: k in p.cols.digits <==> k < |rs| && rs[k].Ok? && rs[k].value.digits.Some?)
            && (forall k: nat :: k in p.cols.digits ==> p.cols.digits[k] == rs[k].value.digits.value)
    decreases |rs|
  {
    if |rs| > 0 {
      var init := rs[..|rs| - 1];
      FoldLast(rs, n);
      var p0 := Fold(init, n);
      var c := rs[|rs| - 1].value;
      var cols := Record(p0.cols, |rs| - 1, c);
      FoldDigitMap(init, n);
      assert cols.digits == if c.digits.Some? then p0.cols.digits[|rs| - 1 := c.digits.value] else p0.cols.digits;
    }
  }

  lemma {:induction false} FoldMinMap(rs: seq<Result<Column>>, n: nat)
    requires |rs| <= n && InRange(rs, n) && Fold(rs, n).err.None?
    ensures var p := Fold(rs, n);
            && (forall k: nat :: k in p.cols.adjMin <==> k < |rs| && rs[k].Ok? && rs[k].value.adj.Some?)
            && (forall k: nat :: k in p.cols.adjMin ==> p.cols.adjMin[k] == rs[k].value.adj.value.min)
    decreases |rs|
  {
    if |rs| > 0 {
      var init := rs[..|rs| - 1];
      FoldLast(rs, n);
      var p0 := Fold(init, n);
      var c := rs[|rs| - 1].value;
      var cols := Record(p0.cols, |rs| - 1, c);
      FoldMinMap(init, n);
      assert cols.adjMin == if c.adj.Some? then p0.cols.adjMin[|rs| - 1 := c.adj.value.min] else p0.cols.adjMin;
    }
  }

  /** When every entry sits at its own position, the list store holds each entry's type at that
      position and the model types each entry's bare type name. */
  lemma {:induction false} FoldPositional(rs: seq<Result<Column>>, n: nat)
    requires |rs| <= n && InRange(rs, n) && Fold(rs, n).err.None?
    requires forall k :: 0 <= k < |rs| && rs[k].Ok? ==> rs[k].value.slot == k
    ensures var p := Fold(rs, n);
            forall k :: 0 <= k < |rs| ==>
              rs[k].Ok? && p.model[k] == Some(rs[k].value.store) && p.cols.types[k] == Some(rs[k].value.name)
    decreases |rs|
  {
    if |rs| > 0 {
      var init := rs[..|rs| - 1];
      FoldFails(rs, n);
      FoldPositional(init, n);
      assert forall k :: 0 <= k < |init| ==> init[k] == rs[k];
    }
  }

  /** The parse raises iff some entry is malformed or names a slot past the list. */
  lemma RunFails(infos: seq<Info>, fracDigits: int)
    ensures Run(infos, fracDigits).err.Some?
            <==> exists k :: 0 <= k < |infos| && ColumnOf(infos[k], k, |infos|, fracDigits).Err?
  {
    var rs := Reads(infos, |infos|, fracDigits);
    ReadsInRange(infos, |infos|, fracDigits);
    FoldFails(rs, |infos|);
    forall k | 0 <= k < |infos|
      ensures rs[k] == ColumnOf(infos[k], k, |infos|, fracDigits)
    {
      ReadsAt(infos, |infos|, fracDigits, k);
    }
  }

  /** Without explicit model ids every entry sits at its own position, so a parse that succeeds puts
      the list-store type and the bare type name of each entry at the entry's position. */
  lemma RunPositional(infos: seq<Info>, fracDigits: int)
    requires Run(infos, fracDigits).err.None?
    requires forall k :: 0 <= k < |infos| ==> infos[k].modelId.None?
    ensures var rs := Reads(infos, |infos|, fracDigits);
            var p := Run(infos, fracDigits);
            forall k :: 0 <= k < |infos| ==>
              rs[k].Ok? && p.model[k] == Some(rs[k].value.store) && p.cols.types[k] == Some(rs[k].value.name)
  {
    var rs := Reads(infos, |infos|, fracDigits);
    ReadsInRange(infos, |infos|, fracDigits);
    forall k | 0 <= k < |infos| && rs[k].Ok?
      ensures rs[k].value.slot == k
    {
      ReadsAt(infos, |infos|, fracDigits, k);
    }
    FoldPositional(rs, |infos|);
  }

  /** The descriptor fields of ExtTreeView. */
  class ColumnModel {
    var modelDescs: seq<Option<string>>
    var modelTypes: seq<Option<string>>
    var modelId: seq<Option<int>>
    var dictionaries: map<int, map<int, string>>
    var digits: map<nat, (int, int)>
    var propList: seq<Props>
    var adjMin: map<nat, Bound>
    var adjMax: map<nat, Bound>
    var adjValues: map<nat, string>
    var adjIndexes: map<nat, int>

    function Snapshot(): Columns
      reads this
    {
      Columns(modelDescs, modelTypes, modelId, dictionaries, digits, propList, adjMin, adjMax, adjValues, adjIndexes)
    }

    /** The fields as ExtTreeView.__init__ sets them for a list of size entries. */
    constructor (size: nat)
      ensures Snapshot() == Empty(size)
    {
      modelDescs := [];
      modelTypes := seq(size, _ => None);
      modelId := seq(size, _ => None);
      dictionaries := map[];
      digits := map[];
      propList := [];
      adjMin := map[];
      adjMax := map[];
      adjValues := map[];
      adjIndexes := map[];
    }

    /** The header loop of one entry: the leading modifier characters and the rest of the header. */
    static method SplitHeader(desc: string) returns (mods: string, rest: string)
      ensures mods + rest == desc && AllModifiers(mods)
      ensures rest == [] || !IsModifier(rest[0])
    {
      var i := 0;
      while i < |desc| && IsModifier(desc[i])
        invariant i <= |desc| && forall j :: 0 <= j < i ==> IsModifier(desc[j])
      {
        i := i + 1;
      }
      mods, rest := desc[..i], desc[i..];
      assert mods + rest == desc;
    }

    /** The header of one entry, read by the loop: the title shown and the four flags. */
    static method ReadHeader(desc: Option<string>) returns (shown: Option<string>, props: Props)
      ensures (shown, props) == Header(desc)
    {
      shown, props := desc, Props(false, false, false, false);
      if desc.Some? {
        var mods, rest := SplitHeader(desc.value);
        HeaderFlags(desc.value, mods, rest);
        shown := Some(rest);
        props := Props('*' in mods, '^' in mods, '+' in mods, '!' in mods);
      }
    }

    /** The body of the loop for the entry at position pos: its header loop, then its type. */
    static method ReadEntry(infos: seq<Info>, pos: nat, fracDigits: int) returns (c: Result<Column>)
      requires pos < |infos|
      ensures c == Reads(infos, |infos|, fracDigits)[pos]
    {
      ReadsAt(infos, |infos|, fracDigits, pos);
      var shown, props := ReadHeader(infos[pos].desc);
      c := ColumnOf(infos[pos], pos, |infos|, fracDigits);
      ColumnHeader(infos[pos], ParseType(TypeText(infos[pos].dataType)), pos, |infos|, fracDigits);
      if c.Ok? {
        assert c.value.(desc := shown, props := props) == c.value;
        c := Ok(c.value.(desc := shown, props := props));
      }
    }

    method SetSnapshot(st: Columns)
      modifies this
      ensures Snapshot() == st
    {
      modelDescs, modelTypes, modelId, dictionaries, digits, propList, adjMin, adjMax, adjValues, adjIndexes :=
        st.descs, st.types, st.ids, st.dictionaries, st.digits, st.props, st.adjMin, st.adjMax, st.adjValues, st.adjIndexes;
    }

    /** __parseInfoList on a freshly constructed view: the fields and the result are those of reading the
        entries in order, stopping at the first one that raises. */
    method ParseInfoList(infos: seq<Info>, fracDigits: int) returns (r: Result<seq<Option<StoreType>>>)
      requires Snapshot() == Empty(|infos|)
      modifies this
      ensures Snapshot() == Run(infos, fracDigits).cols
      ensures r == Returned(Run(infos, fracDigits))
    {
      var cols;
      cols, r := ReadAll(infos, fracDigits);
      SetSnapshot(cols);
    }

    /** The loop over the entries, on the fields' values. */
    static method ReadAll(infos: seq<Info>, fracDigits: int) returns (cols: Columns, r: Result<seq<Option<StoreType>>>)
      ensures cols == Run(infos, fracDigits).cols && r == Returned(Run(infos, fracDigits))
    {
      var n := |infos|;
      ghost var rs := Reads(infos, n, fracDigits);
      ReadsInRange(infos, n, fracDigits);
      cols := Empty(n);
      var model: seq<Option<StoreType>> := seq(n, _ => None);
      var pos := 0;
      while pos < n
        invariant pos <= n
        invariant Fold(rs[..pos], n) == Parsing(cols, model, None)
      {
        var c := ReadEntry(infos, pos, fracDigits);
        if c.Err? {
          PrefixSnoc(rs, pos);
          FoldStops(rs, pos + 1, n);
          r := Err(c.error);
          return;
        }
        cols, model := Advance(rs, n, pos, c.value, cols, model);
        pos := pos + 1;
      }
      assert rs[..n] == rs;
      r := Ok(model);
    }

    /** One turn of the loop, for an entry that did not raise. */
    static method Advance(ghost rs: seq<Result<Column>>, n: nat, pos: nat, c: Column, cols: Columns,
                          model: seq<Option<StoreType>>) returns (cols': Columns, model': seq<Option<StoreType>>)
      requires pos < |rs| <= n && InRange(rs, n) && rs[pos] == Ok(c)
      requires Fold(rs[..pos], n) == Parsing(cols, model, None)
      ensures Fold(rs[..pos + 1], n) == Parsing(cols', model', None)
    {
      PrefixSnoc(rs, pos);
      cols' := Record(cols, pos, c);
      model' := model[c.slot := Some(c.store)];
    }
  }
}
