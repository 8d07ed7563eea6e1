/** The catalog dialog (TabacchiDialog, tabacchi/main.py:365-812): the list of articles being edited, the
    index from barcode to article kept while barcodes are typed or scanned, and the merge of the catalog
    downloaded from the supplier's portal into the list. Widgets, the download and the spreadsheet reader
    are not part of this model: the sheet arrives as its data rows. */
module Catalog {
  import opened Wrappers
  import opened Text
  import opened Calendar
  import opened Store

  /** A row of the dialog's list (the columns IN_MAGAZZINO .. DIRTY). Weights in grams, prices in
      milli-euro. */
  datatype CatRow = CatRow(
    inMagazzino: bool,
    id: ArticleId,
    descrizione: string,
    tipo: string,
    prezzoPezzo: int,
    decorrenza: Date,
    livelloMin: int,
    pezziUnitaMin: int,
    unitaMin: nat,
    prezzoKg: nat,
    barcode: string,
    dirty: bool)

  /** The price of one piece of a pack: the pack's cost shared among its pieces, down to a whole milli-euro,
      0 when the count is unknown. */
  function PiecePrice(prezzoKg: nat, unitaMin: nat, pezzi: int): (p: int)
    ensures pezzi <= 0 ==> p == 0
    ensures pezzi > 0 ==> 0 <= p && p * pezzi <= Cost(unitaMin, prezzoKg) < (p + 1) * pezzi
  {
    if pezzi > 0 then Cost(unitaMin, prezzoKg) / pezzi else 0
  }

  // ---------------------------------------------------------------------------------------------
  // Barcodes

  /** The non-empty barcodes of the list. */
  function Barcodes(rows: seq<CatRow>): set<string> {
    set j | 0 <= j < |rows| && |rows[j].barcode| > 0 :: rows[j].barcode
  }

  /** No barcode is on two rows. */
  predicate DistinctBarcodes(rows: seq<CatRow>) {
    forall i, j :: 0 <= i < j < |rows| && |rows[i].barcode| > 0 ==> rows[i].barcode != rows[j].barcode
  }

  /** A catalog holding the list's barcodes row for row has unique barcodes exactly when the list does:
      the invariant the dialog keeps is the one the reception session relies on. */
  lemma CatalogBarcodes(rows: seq<CatRow>, catalog: seq<Article>)
    requires |catalog| == |rows| && forall i :: 0 <= i < |rows| ==> catalog[i].barcode == rows[i].barcode
    ensures UniqueBarcodes(catalog) <==> DistinctBarcodes(rows)
  {
    assert forall i :: 0 <= i < |rows| ==> (|rows[i].barcode| > 0 <==> catalog[i].barcode != "");
  }

  /** barcodeDict after an accepted change of a row's barcode from prev to next. */
  function Rekeyed(dict: map<string, string>, prev: string, next: string, desc: string): (d: map<string, string>)
    ensures d.Keys == (if |prev| > 0 then dict.Keys - {prev} else dict.Keys) + (if |next| > 0 then {next} else {})
  {
    var d := if |prev| > 0 then dict - {prev} else dict;
    if |next| > 0 then d[next := desc] else d
  }

  // ---------------------------------------------------------------------------------------------
  // Pieces per pack

  /** The pattern \*(\d{1,3})GR matches at i with l digits. */
  predicate GramsAt(s: string, i: nat, l: nat) {
    1 <= l <= 3 && i + l + 3 <= |s| && s[i] == '*' && AllDigits(s[i + 1..i + 1 + l]) && s[i + 1 + l..i + 3 + l] == "GR"
  }

  /** The digit count of a match at i, trying three, two and one digits as the greedy pattern does. */
  function GramsLength(s: string, i: nat): (l: nat)
    ensures l == 0 || GramsAt(s, i, l)
    ensures l == 0 ==> forall l' :: !GramsAt(s, i, l')
  {
    if GramsAt(s, i, 3) then 3 else if GramsAt(s, i, 2) then 2 else if GramsAt(s, i, 1) then 1 else 0
  }

  /** re.search(r"\*(\d{1,3})GR", s) from position i on: the number in the leftmost match. */
  function SearchGrams(s: string, i: nat): (r: Option<nat>)
    decreases |s| - i
  {
    if i >= |s| then None
    else
      var l := GramsLength(s, i);
      if l > 0 then Some(DigitsValue(s[i + 1..i + 1 + l])) else SearchGrams(s, i + 1)
  }

  /** No match from i on exactly when the pattern matches nowhere at or after i. */
  lemma {:induction false} SearchGramsNone(s: string, i: nat)
    ensures SearchGrams(s, i).None? <==> forall j: nat, l :: i <= j && GramsAt(s, j, l) ==> false
    decreases |s| - i
  {
    if i < |s| {
      SearchGramsNone(s, i + 1);
      if GramsLength(s, i) == 0 {
        forall j: nat, l | i <= j && GramsAt(s, j, l) ensures i + 1 <= j {
        }
      }
    }
  }

  /** The search finds the leftmost match, with the longest digit run at it. */
  lemma {:induction false} SearchGramsLeftmost(s: string, i: nat, j: nat)
    requires i <= j && GramsLength(s, j) > 0
    requires forall k :: i <= k < j ==> GramsLength(s, k) == 0
    ensures SearchGrams(s, i) == Some(DigitsValue(s[j + 1..j + 1 + GramsLength(s, j)]))
    decreases j - i
  {
    if i < j {
      SearchGramsLeftmost(s, i + 1, j);
    }
  }

  /** How many pieces of g grams a pack of unitaMin grams holds. */
  function PerPiece(unitaMin: nat, g: nat): (n: nat)
    requires g > 0
    ensures n * g <= unitaMin < (n + 1) * g
  {
    unitaMin / g
  }

  /** __fuzzyCount: the pieces in a pack, from the markers the supplier puts in the description; a weight
      marker "*<g>GR" divides the pack's weight by the piece's. A marker of zero grams divides by zero. */
  function FuzzyCount(unitaMin: nat, descrizione: string): (r: Result<int>)
    ensures r.Err? ==> r.error == ZeroDivisionError && SearchGrams(descrizione, 0) == Some(0)
    ensures r.Ok? ==> r.value >= 0
  {
    if Contains(descrizione, "*CART20") || Contains(descrizione, "*AST20") then Ok(10)
    else if Contains(descrizione, "*AST10") then Ok(20)
    else
      match SearchGrams(descrizione, 0)
      case None => Ok(0)
      case Some(g) => if g == 0 then Err(ZeroDivisionError) else Ok(PerPiece(unitaMin, g))
  }

  lemma ExCarton()
    ensures FuzzyCount(200, "MARLBORO GOLD *CART20") == Ok(10)
  {
    assert OccursAt("MARLBORO GOLD *CART20", "*CART20", 14);
  }

  lemma ExGrams()
    ensures FuzzyCount(500, "TABACCO *25GR") == Ok(20)
  {
    var t := "TABACCO *25GR";
    assert DigitsValue(t[9..11]) == 25 by {
      assert t[9..11] == "25" && "25"[..1] == "2";
    }
    OnlyStar(t, 8);
    NoMarkers(t, 8);
    assert GramsAt(t, 8, 2) && !GramsAt(t, 8, 3);
    SearchGramsLeftmost(t, 0, 8);
  }

  lemma ExLong()
    ensures FuzzyCount(500, "TABACCO *1000GR") == Ok(0)
  {
    var u := "TABACCO *1000GR";
    OnlyStar(u, 8);
    NoMarkers(u, 8);
    assert u[10] == '0' && u[11] == '0' && u[12] == '0';
    NoGramsAt(u, 8);
    SearchGramsNone(u, 0);
  }

  /** Where none of the three characters after the first digit is a 'G', no "GR" closes a match. */
  lemma NoGramsAt(s: string, p: nat)
    requires p + 4 < |s| && s[p + 2] != 'G' && s[p + 3] != 'G' && s[p + 4] != 'G'
    ensures !GramsAt(s, p, 1) && !GramsAt(s, p, 2) && !GramsAt(s, p, 3)
  {
    assert s[p + 2..p + 4][0] == s[p + 2];
    assert s[p + 3..p + 5][0] == s[p + 3];
    if p + 6 <= |s| {
      assert s[p + 4..p + 6][0] == s[p + 4];
    }
  }

  lemma ExZero()
    ensures FuzzyCount(500, "TABACCO *0GR").Err?
  {
    var z := "TABACCO *0GR";
    OnlyStar(z, 8);
    NoMarkers(z, 8);
    assert !GramsAt(z, 8, 3) && !GramsAt(z, 8, 2);
    assert GramsAt(z, 8, 1) by { assert z[9..10] == "0" && z[10..12] == "GR"; }
    assert DigitsValue(z[9..10]) == 0 by { assert z[9..10] == "0"; }
    SearchGramsLeftmost(z, 0, 8);
  }

  /** A text whose only '*' is at p matches the weight pattern only there. */
  lemma OnlyStar(s: string, p: nat)
    requires forall i :: 0 <= i < |s| && s[i] == '*' ==> i == p
    ensures forall i, l :: GramsAt(s, i, l) ==> i == p
  {
  }

  /** None of the three count markers is in a text whose only '*' is followed by neither 'A' nor 'C'. */
  lemma NoMarkers(s: string, p: nat)
    requires forall i :: 0 <= i < |s| && s[i] == '*' ==> i == p
    requires p + 1 < |s| && s[p + 1] != 'A' && s[p + 1] != 'C'
    ensures !Contains(s, "*CART20") && !Contains(s, "*AST20") && !Contains(s, "*AST10")
  {
    assert forall i :: 0 <= i < |s| - 1 && s[i] == '*' ==> s[i + 1] != 'A' && s[i + 1] != 'C';
    NoMarker(s, "*CART20");
    NoMarker(s, "*AST20");
    NoMarker(s, "*AST10");
  }

  /** A marker starting with "*A" or "*C" is absent from a text whose only '*' is followed by something else. */
  lemma NoMarker(s: string, t: string)
    requires |t| >= 2 && t[0] == '*' && (t[1] == 'A' || t[1] == 'C')
    requires forall i :: 0 <= i < |s| - 1 && s[i] == '*' ==> s[i + 1] != 'A' && s[i + 1] != 'C'
    ensures !Contains(s, t)
  {
  }

  // ---------------------------------------------------------------------------------------------
  // The merge with the downloaded sheet

  /** A data row of the sheet (its first row is a header): code, description, type, pack weight, price per
      kilogram and the date the price applies from, as text. */
  datatype SheetRow = SheetRow(codice: string, descrizione: string, tipo: string, unitaMin: nat, prezzoKg: nat, data: string)

  /** The date a sheet row applies from: 1 January 1970 when strptime rejects the cell. */
  function Decorrenza(data: string): (d: Date)
    ensures ParseDate(Strip(data)).Some? ==> d == ParseDate(Strip(data)).value
    ensures ParseDate(Strip(data)).None? ==> d == Date(1970, 1, 1)
  {
    match ParseDate(Strip(data))
    case Some(d) => d
    case None => Date(1970, 1, 1)
  }

  /** tabacchiDict: each code of the list to its row, the last row when a code repeats. */
  function IndexOf(rows: seq<CatRow>): (m: map<ArticleId, nat>)
    ensures forall c :: c in m <==> exists j :: 0 <= j < |rows| && rows[j].id == c
    ensures forall c :: c in m ==> m[c] < |rows| && rows[m[c]].id == c
  {
    if |rows| == 0 then map[]
    else
      var init := rows[..|rows| - 1];
      var m := IndexOf(init);
      assert forall j :: 0 <= j < |init| ==> init[j] == rows[j];
      m[rows[|rows| - 1].id := |rows| - 1]
  }

  /** The merge's running state: the list, what is left of tabacchiDict and whether anything changed. */
  datatype MergeState = MergeState(rows: seq<CatRow>, index: map<ArticleId, nat>, dirty: bool)

  /** Every code left in tabacchiDict points at a row holding that code. */
  predicate WellIndexed(st: MergeState) {
    forall c :: c in st.index ==> st.index[c] < |st.rows| && st.rows[st.index[c]].id == c
  }

  /** The codes of the list. */
  function IdSet(rows: seq<CatRow>): set<ArticleId> {
    set j | 0 <= j < |rows| :: rows[j].id
  }

  /** The codes of the sheet, as the merge reads them. */
  function SheetCodes(sheet: seq<SheetRow>): set<string> {
    set k | 0 <= k < |sheet| :: Strip(sheet[k].codice)
  }

  /** A row the merge appends: not in stock, no minimum level, no barcode, to be saved. */
  predicate Fresh(r: CatRow) {
    !r.inMagazzino && r.livelloMin == 0 && r.barcode == "" && r.dirty
  }

  /** next is prev with rows appended, every row of prev keeping its code and the columns only the user
      edits. */
  predicate Extends(prev: seq<CatRow>, next: seq<CatRow>) {
    |prev| <= |next|
    && (forall j :: 0 <= j < |prev| ==>
          next[j].id == prev[j].id && next[j].barcode == prev[j].barcode
          && next[j].inMagazzino == prev[j].inMagazzino && next[j].livelloMin == prev[j].livelloMin
          && (prev[j].dirty ==> next[j].dirty))
    && (forall j :: |prev| <= j < |next| ==> Fresh(next[j]))
  }

  /** Extending keeps every code, and is transitive. */
  lemma ExtendsTrans(a: seq<CatRow>, b: seq<CatRow>, c: seq<CatRow>)
    requires Extends(a, b) && Extends(b, c)
    ensures Extends(a, c) && IdSet(a) <= IdSet(c)
  {
    forall x | x in IdSet(a) ensures x in IdSet(c) {
      var j :| 0 <= j < |a| && a[j].id == x;
      assert c[j].id == x;
    }
  }

  /** A sheet field of the row differs from the sheet's. */
  predicate Differs(row: CatRow, desc: string, tipo: string, unitaMin: nat, prezzoKg: nat, decorrenza: Date, pezzi: int) {
    row.prezzoKg != prezzoKg || row.descrizione != desc || row.unitaMin != unitaMin || row.tipo != tipo
    || row.decorrenza != decorrenza || (pezzi > 0 && row.pezziUnitaMin != pezzi)
  }

  /** The row as the merge updates it: the sheet's fields, a new piece count only when the sheet gives a
      different positive one, the piece price recomputed, and the dirty mark. */
  function Updated(row: CatRow, desc: string, tipo: string, unitaMin: nat, prezzoKg: nat, decorrenza: Date, pezzi: int): (r: CatRow)
    requires Differs(row, desc, tipo, unitaMin, prezzoKg, decorrenza, pezzi)
    ensures r != row && r.dirty
    ensures r.id == row.id && r.barcode == row.barcode && r.inMagazzino == row.inMagazzino && r.livelloMin == row.livelloMin
  {
    var p := if pezzi > 0 && row.pezziUnitaMin != pezzi then pezzi else row.pezziUnitaMin;
    row.(prezzoKg := prezzoKg, decorrenza := decorrenza, descrizione := desc, unitaMin := unitaMin, tipo := tipo,
         dirty := true, pezziUnitaMin := p, prezzoPezzo := PiecePrice(prezzoKg, unitaMin, p))
  }

  /** A sheet row as the merge reads it: stripped text, the date and the piece count. */
  datatype Parsed = Parsed(codice: ArticleId, desc: string, tipo: string, decorrenza: Date, unitaMin: nat, prezzoKg: nat, pezzi: int)

  /** The reading of a sheet row; the piece count is its only failure. */
  function Parse(r: SheetRow): (p: Result<Parsed>)
    ensures p.Err? <==> FuzzyCount(r.unitaMin, Strip(r.descrizione)).Err?
    ensures p.Ok? ==> p.value.codice == Strip(r.codice)
  {
    var desc := Strip(r.descrizione);
    match FuzzyCount(r.unitaMin, desc)
    case Err(e) => Err(e)
    case Ok(pezzi) => Ok(Parsed(Strip(r.codice), desc, Strip(r.tipo), Decorrenza(r.data), r.unitaMin, r.prezzoKg, pezzi))
  }

  /** One read sheet row: a new code is appended; a known code updates its row when a field differs and
      leaves tabacchiDict. */
  function Apply(st: MergeState, p: Parsed): (s: MergeState)
    requires WellIndexed(st)
    ensures WellIndexed(s)
  {
    if p.codice !in st.index then
      var row := CatRow(false, p.codice, p.desc, p.tipo, 0, p.decorrenza, 0, p.pezzi, p.unitaMin, p.prezzoKg, "", true);
      st.(rows := st.rows + [row], dirty := true)
    else
      var path := st.index[p.codice];
      var row := st.rows[path];
      if Differs(row, p.desc, p.tipo, p.unitaMin, p.prezzoKg, p.decorrenza, p.pezzi) then
        var rows := st.rows[path := Updated(row, p.desc, p.tipo, p.unitaMin, p.prezzoKg, p.decorrenza, p.pezzi)];
        MergeState(rows, st.index - {p.codice}, true)
      else
        st.(index := st.index - {p.codice})
  }

  /** A step appends fresh rows or edits sheet fields, takes the row's code out of tabacchiDict and leaves
      a row holding it. */
  lemma ApplyShape(st: MergeState, p: Parsed)
    requires WellIndexed(st)
    ensures var s := Apply(st, p);
            Extends(st.rows, s.rows) && IdSet(st.rows) <= IdSet(s.rows)
            && s.index.Keys == st.index.Keys - {p.codice} && p.codice in IdSet(s.rows)
  {
    var s := Apply(st, p);
    if p.codice !in st.index {
      assert s.rows[|st.rows|].id == p.codice;
    } else {
      assert s.rows[st.index[p.codice]].id == p.codice;
    }
    forall x | x in IdSet(st.rows) ensures x in IdSet(s.rows) {
      var j :| 0 <= j < |st.rows| && st.rows[j].id == x;
      assert s.rows[j].id == x;
    }
  }

  /** A step leaves the rows of the codes still in tabacchiDict alone, and marks a change exactly when the
      list changed. */
  lemma ApplyUntouched(st: MergeState, p: Parsed)
    requires WellIndexed(st)
    ensures var s := Apply(st, p);
            (forall c :: c in s.index ==> s.index[c] == st.index[c] && s.rows[st.index[c]] == st.rows[st.index[c]])
            && (s.dirty <==> st.dirty || s.rows != st.rows)
  {
    var s := Apply(st, p);
    if p.codice !in st.index {
      assert |s.rows| != |st.rows|;
    } else if s.rows != st.rows {
      assert s.rows[st.index[p.codice]] != st.rows[st.index[p.codice]];
    }
  }

  /** after is before as the merge updates it from the read sheet row p: same code, a compared field differs. */
  predicate RowUpdate(before: CatRow, p: Parsed, after: CatRow) {
    p.codice == before.id && Differs(before, p.desc, p.tipo, p.unitaMin, p.prezzoKg, p.decorrenza, p.pezzi)
    && after == Updated(before, p.desc, p.tipo, p.unitaMin, p.prezzoKg, p.decorrenza, p.pezzi)
  }

  /** The row marks of one step: a new code is appended as a fresh row holding the sheet's fields; a known
      code's row changes, and is marked dirty, exactly when a compared field differs; no other row moves. */
  lemma ApplyMarks(st: MergeState, p: Parsed)
    requires WellIndexed(st)
    ensures var s := Apply(st, p);
            (p.codice !in st.index ==>
               s.rows[..|st.rows|] == st.rows && |s.rows| == |st.rows| + 1
               && Fresh(s.rows[|st.rows|]) && s.rows[|st.rows|].id == p.codice
               && s.rows[|st.rows|].descrizione == p.desc && s.rows[|st.rows|].tipo == p.tipo
               && s.rows[|st.rows|].pezziUnitaMin == p.pezzi && s.rows[|st.rows|].unitaMin == p.unitaMin
               && s.rows[|st.rows|].prezzoKg == p.prezzoKg && s.rows[|st.rows|].decorrenza == p.decorrenza)
            && (p.codice in st.index ==>
                  var k := st.index[p.codice];
                  |s.rows| == |st.rows|
                  && (forall j :: 0 <= j < |st.rows| && j != k ==> s.rows[j] == st.rows[j])
                  && (s.rows[k] != st.rows[k] <==> Differs(st.rows[k], p.desc, p.tipo, p.unitaMin, p.prezzoKg, p.decorrenza, p.pezzi))
                  && (s.rows[k] != st.rows[k] ==> RowUpdate(st.rows[k], p, s.rows[k]) && s.rows[k].dirty))
  {
  }

  /** f applied to each item, in order. */
  function MapSeq<A, B>(f: A -> B, s: seq<A>): (r: seq<B>)
    ensures |r| == |s|
  {
    if |s| == 0 then [] else MapSeq(f, s[..|s| - 1]) + [f(s[|s| - 1])]
  }

  lemma {:induction false} MapSeqAt<A, B>(f: A -> B, s: seq<A>)
    ensures forall k :: 0 <= k < |s| ==> MapSeq(f, s)[k] == f(s[k])
  {
    if |s| > 0 {
      var init := s[..|s| - 1];
      MapSeqAt(f, init);
      forall k | 0 <= k < |init| ensures MapSeq(f, s)[k] == f(s[k]) {
        assert init[k] == s[k];
      }
    }
  }

  /** The sheet as the loop reads it, row by row. */
  function Reads(sheet: seq<SheetRow>): (ps: seq<Result<Parsed>>)
    ensures |ps| == |sheet|
  {
    MapSeq(Parse, sheet)
  }

  /** Row k of the sheet is read into item k. */
  lemma ReadsAt(sheet: seq<SheetRow>)
    ensures forall k :: 0 <= k < |sheet| ==> Reads(sheet)[k] == Parse(sheet[k])
  {
    MapSeqAt(Parse, sheet);
  }

  /** The codes of the rows read without error. */
  function ParsedCodes(ps: seq<Result<Parsed>>): set<ArticleId> {
    set k | 0 <= k < |ps| && ps[k].Ok? :: ps[k].value.codice
  }

  /** The read codes of the first rows and of the last one. */
  lemma ParsedCodesSnoc(ps: seq<Result<Parsed>>)
    requires |ps| > 0 && ps[|ps| - 1].Ok?
    ensures ParsedCodes(ps) == ParsedCodes(ps[..|ps| - 1]) + {ps[|ps| - 1].value.codice}
  {
    var init := ps[..|ps| - 1];
    forall c | c in ParsedCodes(ps) ensures c in ParsedCodes(init) + {ps[|ps| - 1].value.codice} {
      var k :| 0 <= k < |ps| && ps[k].Ok? && ps[k].value.codice == c;
      if k < |init| {
        assert init[k] == ps[k];
      }
    }
    forall c | c in ParsedCodes(init) ensures c in ParsedCodes(ps) {
      var k :| 0 <= k < |init| && init[k].Ok? && init[k].value.codice == c;
      assert ps[k] == init[k];
    }
  }

  /** The sheet loop over the first read rows: it stops at the first row whose reading raised, with the
      state reached before it. */
  function MergeParsed(st: MergeState, ps: seq<Result<Parsed>>): (r: (MergeState, Option<Error>))
    requires WellIndexed(st)
    ensures WellIndexed(r.0)
    decreases |ps|
  {
    if |ps| == 0 then (st, None)
    else
      var r := MergeParsed(st, ps[..|ps| - 1]);
      if r.1.Some? then r
      else
        match ps[|ps| - 1]
        case Err(x) => (r.0, Some(x))
        case Ok(p) => (Apply(r.0, p), None)
  }

  /** The sheet loop: each row is read (its piece count computed first) and then applied. */
  function MergeRows(st: MergeState, sheet: seq<SheetRow>): (r: (MergeState, Option<Error>))
    requires WellIndexed(st)
    ensures WellIndexed(r.0)
  {
    MergeParsed(st, Reads(sheet))
  }

  /** The first k + 1 items are the first k and item k. */
  lemma PrefixSnoc<T>(s: seq<T>, k: nat)
    requires k < |s|
    ensures s[..k + 1] == s[..k] + [s[k]] && s[..k + 1] + s[k + 1..] == s
  {
  }

  /** One more read row: the loop goes on from where the first rows left it. */
  lemma MergeParsedSnoc(st: MergeState, ps: seq<Result<Parsed>>, x: Result<Parsed>)
    requires WellIndexed(st)
    ensures var r := MergeParsed(st, ps);
            MergeParsed(st, ps + [x]) == if r.1.Some? then r else if x.Err? then (r.0, Some(x.error)) else (Apply(r.0, x.value), None)
  {
    assert (ps + [x])[..|ps|] == ps;
  }

  /** Once a row raised, the rows after it are never read. */
  lemma {:induction false} MergeParsedStops(st: MergeState, ps: seq<Result<Parsed>>, rest: seq<Result<Parsed>>)
    requires WellIndexed(st) && MergeParsed(st, ps).1.Some?
    ensures MergeParsed(st, ps + rest) == MergeParsed(st, ps)
    decreases |rest|
  {
    if |rest| > 0 {
      var init := rest[..|rest| - 1];
      MergeParsedStops(st, ps, init);
      assert ps + rest == (ps + init) + [rest[|rest| - 1]];
      MergeParsedSnoc(st, ps + init, rest[|rest| - 1]);
    } else {
      assert ps + rest == ps;
    }
  }

  /** The loop stops early exactly when some row's reading raised. */
  lemma {:induction false} MergeParsedFails(st: MergeState, ps: seq<Result<Parsed>>)
    requires WellIndexed(st)
    ensures MergeParsed(st, ps).1.Some? <==> exists k :: 0 <= k < |ps| && ps[k].Err?
    decreases |ps|
  {
    if |ps| > 0 {
      var init := ps[..|ps| - 1];
      MergeParsedFails(st, init);
      assert forall k :: 0 <= k < |init| ==> init[k] == ps[k];
    }
  }

  /** The merge stops early exactly when the piece count of some sheet row divides by zero. */
  lemma MergeFails(st: MergeState, sheet: seq<SheetRow>)
    requires WellIndexed(st)
    ensures MergeRows(st, sheet).1.Some? <==>
              exists k :: 0 <= k < |sheet| && FuzzyCount(sheet[k].unitaMin, Strip(sheet[k].descrizione)).Err?
  {
    MergeParsedFails(st, Reads(sheet));
    ReadsAt(sheet);
  }

  /** The loop appends fresh rows and edits sheet fields; a complete loop takes exactly the read codes
      out of tabacchiDict and leaves a row for each of them. */
  lemma {:induction false} MergeShape(st: MergeState, ps: seq<Result<Parsed>>)
    requires WellIndexed(st)
    ensures var r := MergeParsed(st, ps);
            Extends(st.rows, r.0.rows) && IdSet(st.rows) <= IdSet(r.0.rows) && r.0.index.Keys <= st.index.Keys
            && (r.1.None? ==> r.0.index.Keys == st.index.Keys - ParsedCodes(ps) && ParsedCodes(ps) <= IdSet(r.0.rows))
    decreases |ps|
  {
    if |ps| > 0 {
      var init := ps[..|ps| - 1];
      var last := ps[|ps| - 1];
      MergeShape(st, init);
      var r := MergeParsed(st, init);
      if r.1.None? && last.Ok? {
        var s' := Apply(r.0, last.value);
        ApplyShape(r.0, last.value);
        ExtendsTrans(st.rows, r.0.rows, s'.rows);
        ParsedCodesSnoc(ps);
      }
    }
  }

  /** The loop leaves the rows of the codes still in tabacchiDict alone, and marks a change exactly when the
      list changed. */
  lemma {:induction false} MergeUntouched(st: MergeState, ps: seq<Result<Parsed>>)
    requires WellIndexed(st)
    ensures var r := MergeParsed(st, ps).0;
            r.index.Keys <= st.index.Keys
            && (forall c :: c in r.index ==> r.index[c] == st.index[c] && r.rows[st.index[c]] == st.rows[st.index[c]])
            && (r.dirty <==> st.dirty || r.rows != st.rows)
    decreases |ps|
  {
    if |ps| > 0 {
      var init := ps[..|ps| - 1];
      var last := ps[|ps| - 1];
      MergeUntouched(st, init);
      MergeShape(st, init);
      var s := MergeParsed(st, init).0;
      if MergeParsed(st, init).1.None? && last.Ok? {
        var p := last.value;
        var s' := Apply(s, p);
        ApplyUntouched(s, p);
        ApplyShape(s, p);
      }
    }
  }

  /** Over the loop, a row of the list changes only once: from its loaded content, by the first read row of
      its code while tabacchiDict still points at it, and only when a compared field differs. */
  lemma {:induction false} MergeMarks(st: MergeState, ps: seq<Result<Parsed>>)
    requires WellIndexed(st)
    ensures var r := MergeParsed(st, ps).0;
            |st.rows| <= |r.rows|
            && forall j :: 0 <= j < |st.rows| && r.rows[j] != st.rows[j] ==>
                 st.rows[j].id in st.index && st.index[st.rows[j].id] == j
                 && exists k :: 0 <= k < |ps| && ps[k].Ok? && RowUpdate(st.rows[j], ps[k].value, r.rows[j])
    decreases |ps|
  {
    if |ps| > 0 {
      var init := ps[..|ps| - 1];
      var last := ps[|ps| - 1];
      MergeMarks(st, init);
      MergeUntouched(st, init);
      var r0 := MergeParsed(st, init);
      forall j | 0 <= j < |st.rows| && MergeParsed(st, init).0.rows[j] != st.rows[j]
        ensures exists k :: 0 <= k < |ps| && ps[k].Ok? && RowUpdate(st.rows[j], ps[k].value, MergeParsed(st, init).0.rows[j])
      {
        var k :| 0 <= k < |init| && init[k].Ok? && RowUpdate(st.rows[j], init[k].value, r0.0.rows[j]);
        assert ps[k] == init[k];
      }
      if r0.1.None? && last.Ok? {
        var p := last.value;
        ApplyMarks(r0.0, p);
        if p.codice in r0.0.index {
          var kk := r0.0.index[p.codice];
          assert kk == st.index[p.codice] && r0.0.rows[kk] == st.rows[kk];
        }
      }
    }
  }

  /** The merged list extends the loaded one, so it keeps its barcodes unique. */
  lemma MergeKeepsBarcodes(rows: seq<CatRow>, sheet: seq<SheetRow>)
    requires DistinctBarcodes(rows)
    ensures var s := MergeRows(MergeState(rows, IndexOf(rows), false), sheet).0;
            DistinctBarcodes(s.rows) && Barcodes(s.rows) <= Barcodes(rows)
  {
    var s := MergeRows(MergeState(rows, IndexOf(rows), false), sheet).0;
    MergeShape(MergeState(rows, IndexOf(rows), false), Reads(sheet));
    ExtendsBarcodes(rows, s.rows);
  }

  /** A sheet read without error has as read codes exactly its stripped codes. */
  lemma ReadCodes(sheet: seq<SheetRow>)
    requires forall k :: 0 <= k < |sheet| ==> Parse(sheet[k]).Ok?
    ensures ParsedCodes(Reads(sheet)) == SheetCodes(sheet)
  {
    var ps := Reads(sheet);
    ReadsAt(sheet);
    forall c | c in SheetCodes(sheet) ensures c in ParsedCodes(ps) {
      var k :| 0 <= k < |sheet| && Strip(sheet[k].codice) == c;
      assert ps[k].value.codice == c;
    }
  }

  /** KeysInOrder: the codes of ids that are in keep, each once, in the order of their first occurrence
      (the order of tabacchiDict's keys). */
  function KeysInOrder(ids: seq<ArticleId>, keep: set<ArticleId>): seq<ArticleId> {
    if |ids| == 0 then []
    else
      var p := KeysInOrder(ids[..|ids| - 1], keep);
      var c := ids[|ids| - 1];
      if c in keep && c !in p then p + [c] else p
  }

  /** The ordered keys are exactly the codes of ids in keep, none twice. */
  lemma {:induction false} KeysInOrderSpec(ids: seq<ArticleId>, keep: set<ArticleId>)
    ensures var r := KeysInOrder(ids, keep);
            (forall c :: c in r <==> c in keep && c in ids) && forall i, j :: 0 <= i < j < |r| ==> r[i] != r[j]
  {
    if |ids| > 0 {
      var init := ids[..|ids| - 1];
      KeysInOrderSpec(init, keep);
      assert forall x :: x in ids <==> x in init || x == ids[|ids| - 1];
    }
  }

  /** The list without the rows whose code is in gone, in order. */
  function Removed(rows: seq<CatRow>, gone: set<ArticleId>): seq<CatRow> {
    if |rows| == 0 then []
    else
      var p := Removed(rows[..|rows| - 1], gone);
      var x := rows[|rows| - 1];
      if x.id in gone then p else p + [x]
  }

  /** The kept rows are exactly the rows of the list whose code is not in gone. */
  lemma {:induction false} RemovedMembers(rows: seq<CatRow>, gone: set<ArticleId>)
    ensures forall x :: x in Removed(rows, gone) <==> x in rows && x.id !in gone
  {
    if |rows| > 0 {
      var init := rows[..|rows| - 1];
      RemovedMembers(init, gone);
      assert forall y :: y in rows <==> y in init || y == rows[|rows| - 1];
    }
  }

  /** Removing rows keeps barcodes unique and adds none. */
  lemma {:induction false} RemovedBarcodes(rows: seq<CatRow>, gone: set<ArticleId>)
    requires DistinctBarcodes(rows)
    ensures DistinctBarcodes(Removed(rows, gone)) && Barcodes(Removed(rows, gone)) <= Barcodes(rows)
  {
    RemovedSubset(rows, gone);
    if |rows| > 0 {
      var init := rows[..|rows| - 1];
      var x := rows[|rows| - 1];
      var p := Removed(init, gone);
      DistinctPrefix(rows);
      RemovedBarcodes(init, gone);
      if x.id !in gone {
        RemovedSubset(init, gone);
        forall i | 0 <= i < |p| && |p[i].barcode| > 0 ensures p[i].barcode != x.barcode {
          assert p[i].barcode in Barcodes(init);
          var i' :| 0 <= i' < |init| && |init[i'].barcode| > 0 && init[i'].barcode == p[i].barcode;
          assert rows[i'] == init[i'];
        }
        AppendDistinct(p, x);
      }
    }
  }

  /** The kept rows' barcodes are barcodes of the list. */
  lemma RemovedSubset(rows: seq<CatRow>, gone: set<ArticleId>)
    ensures Barcodes(Removed(rows, gone)) <= Barcodes(rows)
  {
    var r := Removed(rows, gone);
    RemovedMembers(rows, gone);
    forall b | b in Barcodes(r) ensures b in Barcodes(rows) {
      var j :| 0 <= j < |r| && |r[j].barcode| > 0 && r[j].barcode == b;
      assert r[j] in rows;
      var i :| 0 <= i < |rows| && rows[i] == r[j];
    }
  }

  /** A prefix of a list with unique barcodes has unique barcodes. */
  lemma DistinctPrefix(rows: seq<CatRow>)
    requires |rows| > 0 && DistinctBarcodes(rows)
    ensures DistinctBarcodes(rows[..|rows| - 1])
  {
    var init := rows[..|rows| - 1];
    forall i, j | 0 <= i < j < |init| && |init[i].barcode| > 0 ensures init[i].barcode != init[j].barcode {
      assert init[i] == rows[i] && init[j] == rows[j];
    }
  }

  /** Appending a row whose barcode no row holds keeps barcodes unique. */
  lemma AppendDistinct(p: seq<CatRow>, x: CatRow)
    requires DistinctBarcodes(p)
    requires forall i :: 0 <= i < |p| && |p[i].barcode| > 0 ==> p[i].barcode != x.barcode
    ensures DistinctBarcodes(p + [x])
  {
    var r := p + [x];
    forall i, j | 0 <= i < j < |r| && |r[i].barcode| > 0 ensures r[i].barcode != r[j].barcode {
      if j < |p| {
        assert r[i] == p[i] && r[j] == p[j];
      } else {
        assert r[i] == p[i] && r[j] == x;
      }
    }
  }

  /** Appending fresh rows and editing sheet fields keep barcodes unique and add none. */
  lemma ExtendsBarcodes(prev: seq<CatRow>, next: seq<CatRow>)
    requires Extends(prev, next) && DistinctBarcodes(prev)
    ensures DistinctBarcodes(next) && Barcodes(next) <= Barcodes(prev)
  {
    forall b | b in Barcodes(next) ensures b in Barcodes(prev) {
      var j :| 0 <= j < |next| && |next[j].barcode| > 0 && next[j].barcode == b;
      assert next[j].barcode == prev[j].barcode;
    }
  }

  /** The merged list: the sheet's codes all present; the codes left in tabacchiDict are exactly the
      list's codes absent from the sheet, and their rows are untouched by the sheet loop; a change is
      marked exactly when the list changed. */
  lemma MergeSpec(rows: seq<CatRow>, sheet: seq<SheetRow>)
    requires MergeRows(MergeState(rows, IndexOf(rows), false), sheet).1.None?
    ensures var s := MergeRows(MergeState(rows, IndexOf(rows), false), sheet).0;
            s.index.Keys == IdSet(rows) - SheetCodes(sheet)
            && (forall c :: c in s.index ==> c in IndexOf(rows) && s.index[c] == IndexOf(rows)[c] && s.rows[s.index[c]] == rows[s.index[c]])
            && SheetCodes(sheet) <= IdSet(s.rows)
            && Extends(rows, s.rows) && IdSet(rows) <= IdSet(s.rows)
            && (s.dirty <==> s.rows != rows)
            && (forall j :: |rows| <= j < |s.rows| ==> Fresh(s.rows[j]))
            && (forall j :: 0 <= j < |rows| && s.rows[j] != rows[j] ==>
                  s.rows[j].dirty && exists k :: 0 <= k < |sheet| && Parse(sheet[k]).Ok? && RowUpdate(rows[j], Parse(sheet[k]).value, s.rows[j]))
  {
    MergeRowMarks(rows, sheet);
    var st := MergeState(rows, IndexOf(rows), false);
    assert IndexOf(rows).Keys == IdSet(rows);
    MergeParsedFails(st, Reads(sheet));
    ReadsAt(sheet);
    ReadCodes(sheet);
    MergeShape(st, Reads(sheet));
    MergeUntouched(st, Reads(sheet));
  }

  /** The row marks of the whole sheet: a loaded row changes, and is marked dirty for the save, only when
      a sheet row with its code differs from it in a compared field, and then takes that row's fields. */
  lemma MergeRowMarks(rows: seq<CatRow>, sheet: seq<SheetRow>)
    ensures var s := MergeRows(MergeState(rows, IndexOf(rows), false), sheet).0;
            |rows| <= |s.rows|
            && forall j :: 0 <= j < |rows| && s.rows[j] != rows[j] ==>
              s.rows[j].dirty && exists k :: 0 <= k < |sheet| && Parse(sheet[k]).Ok? && RowUpdate(rows[j], Parse(sheet[k]).value, s.rows[j])
  {
    var st := MergeState(rows, IndexOf(rows), false);
    var s := MergeRows(st, sheet).0;
    MergeMarks(st, Reads(sheet));
    ReadsAt(sheet);
    forall j | 0 <= j < |rows| && s.rows[j] != rows[j]
      ensures s.rows[j].dirty && exists k :: 0 <= k < |sheet| && Parse(sheet[k]).Ok? && RowUpdate(rows[j], Parse(sheet[k]).value, s.rows[j])
    {
      var k :| 0 <= k < |sheet| && Reads(sheet)[k].Ok? && RowUpdate(rows[j], Reads(sheet)[k].value, s.rows[j]);
    }
  }

  /** What a merge leaves in the dialog: the list, deleteList, the dirty flag and the error raised. */
  datatype Outcome = Outcome(rows: seq<CatRow>, deleteList: seq<ArticleId>, dirty: bool, err: Option<Error>)

  /** __updateCatalogoCallback on the list rows, deleteList keys0 and dirty flag dirty0: the sheet loop; then,
      unless it raised, the codes of the list absent from the sheet fill deleteList, in the list's order, and
      their rows go when the user confirms. */
  function MergeOutcome(rows: seq<CatRow>, sheet: seq<SheetRow>, confirm: bool, keys0: seq<ArticleId>, dirty0: bool): (o: Outcome)
  {
    var r := MergeRows(MergeState(rows, IndexOf(rows), false), sheet);
    var s := r.0;
    if r.1.Some? || |s.index| == 0 then Outcome(s.rows, keys0, dirty0 || s.dirty, r.1)
    else Outcome(if confirm then Removed(s.rows, s.index.Keys) else s.rows, KeysInOrder(Ids(rows), s.index.Keys),
                 dirty0 || s.dirty || confirm, None)
  }

  /** A merge raises exactly when the piece count of some sheet row divides by zero. */
  lemma MergeOutcomeFails(rows: seq<CatRow>, sheet: seq<SheetRow>, confirm: bool, keys0: seq<ArticleId>, dirty0: bool)
    ensures MergeOutcome(rows, sheet, confirm, keys0, dirty0).err.Some? <==>
              exists k :: 0 <= k < |sheet| && FuzzyCount(sheet[k].unitaMin, Strip(sheet[k].descrizione)).Err?
  {
    MergeFails(MergeState(rows, IndexOf(rows), false), sheet);
  }

  /** After a merge that did not raise, deleteList holds each code of the list absent from the sheet once,
      and is left alone when there is none. */
  lemma MergeOutcomeDeleteList(rows: seq<CatRow>, sheet: seq<SheetRow>, confirm: bool, keys0: seq<ArticleId>, dirty0: bool)
    requires MergeOutcome(rows, sheet, confirm, keys0, dirty0).err.None?
    ensures var o := MergeOutcome(rows, sheet, confirm, keys0, dirty0);
            var gone := IdSet(rows) - SheetCodes(sheet);
            (gone == {} ==> o.deleteList == keys0)
            && (gone != {} ==>
                  (forall c :: c in o.deleteList <==> c in gone)
                  && forall i, j :: 0 <= i < j < |o.deleteList| ==> o.deleteList[i] != o.deleteList[j])
  {
    var s := MergeRows(MergeState(rows, IndexOf(rows), false), sheet).0;
    MergeSpec(rows, sheet);
    var gone := IdSet(rows) - SheetCodes(sheet);
    if gone != {} {
      assert s.index.Keys == gone && |s.index| != 0;
      KeysInOrderSpec(Ids(rows), gone);
      forall c | c in gone ensures c in Ids(rows) {
        var j :| 0 <= j < |rows| && rows[j].id == c;
        assert Ids(rows)[j] == c;
      }
    } else {
      assert |s.index| == 0;
    }
  }

  /** After a merge that did not raise, every code of the sheet has a row; a confirmed removal drops exactly
      the rows of the codes absent from the sheet, and without it every code of the list stays. */
  lemma MergeOutcomeRows(rows: seq<CatRow>, sheet: seq<SheetRow>, confirm: bool, keys0: seq<ArticleId>, dirty0: bool)
    requires MergeOutcome(rows, sheet, confirm, keys0, dirty0).err.None?
    ensures var o := MergeOutcome(rows, sheet, confirm, keys0, dirty0);
            var gone := IdSet(rows) - SheetCodes(sheet);
            SheetCodes(sheet) <= IdSet(o.rows)
            && (confirm ==> forall x :: x in o.rows ==> x in MergeRows(MergeState(rows, IndexOf(rows), false), sheet).0.rows && x.id !in gone)
            && (!confirm ==> o.rows == MergeRows(MergeState(rows, IndexOf(rows), false), sheet).0.rows && IdSet(rows) <= IdSet(o.rows))
  {
    var s := MergeRows(MergeState(rows, IndexOf(rows), false), sheet).0;
    MergeSpec(rows, sheet);
    var gone := IdSet(rows) - SheetCodes(sheet);
    assert s.index.Keys == gone;
    if confirm && gone != {} {
      assert |s.index| != 0;
      RemovalKeeps(s.rows, gone, SheetCodes(sheet));
    } else if confirm {
      assert |s.index| == 0;
    }
  }

  /** Removing the rows of the codes in gone keeps a row for every other code the list holds. */
  lemma RemovalKeeps(rows: seq<CatRow>, gone: set<ArticleId>, codes: set<ArticleId>)
    requires codes <= IdSet(rows) && codes !! gone
    ensures codes <= IdSet(Removed(rows, gone))
    ensures forall x :: x in Removed(rows, gone) ==> x in rows && x.id !in gone
  {
    var kept := Removed(rows, gone);
    RemovedMembers(rows, gone);
    forall c | c in codes ensures c in IdSet(kept) {
      var j :| 0 <= j < |rows| && rows[j].id == c;
      assert rows[j] in kept;
      var i :| 0 <= i < |kept| && kept[i] == rows[j];
    }
  }

  /** Every barcode on the list is a key of the barcode index, none twice; the empty barcode is never a key. */
  predicate Indexed(rows: seq<CatRow>, barcodeDict: map<string, string>) {
    "" !in barcodeDict && Barcodes(rows) <= barcodeDict.Keys && DistinctBarcodes(rows)
  }

  /** The description the loading loop leaves under barcode b: the last row carrying it wins. */
  function OwnerOf(rows: seq<CatRow>, b: string): string
    decreases |rows|
  {
    if |rows| == 0 then ""
    else if rows[|rows| - 1].barcode == b then rows[|rows| - 1].descrizione
    else OwnerOf(rows[..|rows| - 1], b)
  }

  /** With distinct barcodes, the index names the one row that carries each barcode. */
  lemma {:induction false} OwnerOfRow(rows: seq<CatRow>, k: nat)
    requires DistinctBarcodes(rows) && k < |rows| && |rows[k].barcode| > 0
    ensures OwnerOf(rows, rows[k].barcode) == rows[k].descrizione
    decreases |rows|
  {
    var n := |rows| - 1;
    if k < n {
      assert rows[n].barcode != rows[k].barcode;
      var init := rows[..n];
      assert init[k] == rows[k];
      assert DistinctBarcodes(init) by {
        forall i, j | 0 <= i < j < |init| && |init[i].barcode| > 0
          ensures init[i].barcode != init[j].barcode
        {
          assert init[i] == rows[i] && init[j] == rows[j];
        }
      }
      OwnerOfRow(init, k);
    }
  }

  // ---------------------------------------------------------------------------------------------
  // The dialog

  class CatalogEditor {
    var rows: seq<CatRow>
    /** barcode -> description of the article holding it. */
    var barcodeDict: map<string, string>
    var deleteList: seq<ArticleId>
    var dirtyFlag: bool
    /** The catalog's date. */
    var data: Instant

    /** Every barcode on the list is a key of barcodeDict, none twice; the empty barcode is never a key. */
    predicate Valid()
      reads this
    {
      Indexed(rows, barcodeDict)
    }

    /** The dialog as loaded: the barcode index holds exactly the list's barcodes. */
    constructor (loaded: seq<CatRow>, dataCatalogo: Instant)
      requires DistinctBarcodes(loaded)
      ensures Valid() && barcodeDict.Keys == Barcodes(rows)
      ensures forall k :: 0 <= k < |rows| && |rows[k].barcode| > 0 ==> barcodeDict[rows[k].barcode] == rows[k].descrizione
      ensures rows == loaded && deleteList == [] && !dirtyFlag && data == dataCatalogo
    {
      rows := loaded;
      deleteList := [];
      dirtyFlag := false;
      data := dataCatalogo;
      barcodeDict := map j | j in Barcodes(loaded) :: OwnerOf(loaded, j);
      forall k | 0 <= k < |loaded| && |loaded[k].barcode| > 0
        ensures OwnerOf(loaded, loaded[k].barcode) == loaded[k].descrizione
      {
        OwnerOfRow(loaded, k);
      }
    }

    /** __changeBarcode(barcode, path): a barcode already in barcodeDict is refused and nothing changes;
        otherwise the row's old barcode leaves the index, the new one (unless empty) enters it, the row
        takes the new barcode and is marked dirty. The text is used as typed: the result of strip() is
        discarded. */
    method ChangeBarcode(i: nat, barcode: string) returns (accepted: bool)
      requires Valid() && i < |rows|
      modifies this
      ensures Valid()
      ensures accepted <==> barcode !in old(barcodeDict)
      ensures !accepted ==> rows == old(rows) && barcodeDict == old(barcodeDict) && dirtyFlag == old(dirtyFlag)
      ensures accepted ==> rows == old(rows)[i := old(rows)[i].(barcode := barcode, dirty := true)] && dirtyFlag
                           && barcodeDict == Rekeyed(old(barcodeDict), old(rows)[i].barcode, barcode, old(rows)[i].descrizione)
      ensures old(barcodeDict.Keys == Barcodes(rows)) ==> barcodeDict.Keys == Barcodes(rows)
      ensures deleteList == old(deleteList) && data == old(data)
    {
      if barcode in barcodeDict {
        return false;
      }
      var oldBarcode := rows[i].barcode;
      assert |oldBarcode| > 0 ==> oldBarcode in Barcodes(rows);
      barcodeDict := Rekeyed(barcodeDict, oldBarcode, barcode, rows[i].descrizione);
      ghost var before := rows;
      rows := rows[i := rows[i].(barcode := barcode, dirty := true)];
      dirtyFlag := true;
      ChangedBarcodes(before, i, barcode);
      accepted := true;
    }

    /** __updateCatalogoCallback: merges the sheet's rows into the list, stores now as the catalog's date,
        and, when codes of the list are absent from the sheet, lists them in deleteList and removes their
        rows if the user confirms. A piece count that divides by zero stops it, with the rows merged so far
        kept. */
    method Merge(sheet: seq<SheetRow>, now: Instant, confirm: bool) returns (err: Option<Error>)
      requires Valid()
      modifies this`rows, this`deleteList, this`dirtyFlag, this`data
      ensures Valid()
      ensures Outcome(rows, deleteList, dirtyFlag, err) == MergeOutcome(old(rows), sheet, confirm, old(deleteList), old(dirtyFlag))
      ensures data == if err.None? then now else old(data)
    {
      var next, keys, changed;
      next, keys, changed, err := MergeLists(rows, barcodeDict, sheet, confirm, deleteList, dirtyFlag);
      SetLists(next, keys, changed);
      data := if err.None? then now else data;
    }

    /** Replaces the list, deleteList and the dirty flag at once. */
    method SetLists(next: seq<CatRow>, keys: seq<ArticleId>, changed: bool)
      requires Indexed(next, barcodeDict)
      modifies this`rows, this`deleteList, this`dirtyFlag
      ensures Valid() && rows == next && deleteList == keys && dirtyFlag == changed
    {
      rows, deleteList, dirtyFlag := next, keys, changed;
    }

    /** Merge on the dialog's lists: the merged list, deleteList, the dirty flag and the error. */
    static method MergeLists(rows: seq<CatRow>, barcodeDict: map<string, string>, sheet: seq<SheetRow>, confirm: bool,
                             keys0: seq<ArticleId>, dirty0: bool)
      returns (next: seq<CatRow>, keys: seq<ArticleId>, changed: bool, err: Option<Error>)
      requires Indexed(rows, barcodeDict)
      ensures Outcome(next, keys, changed, err) == MergeOutcome(rows, sheet, confirm, keys0, dirty0)
      ensures Indexed(next, barcodeDict) && Barcodes(next) <= Barcodes(rows)
    {
      var st;
      st, err := ApplySheet(rows, sheet);
      MergeKeepsBarcodes(rows, sheet);
      next, keys, changed := st.rows, keys0, dirty0 || st.dirty;
      if err.None? && |st.index| > 0 {
        keys := DeleteKeys(rows, st.index.Keys);
        if confirm {
          next := RemoveRows(st.rows, st.index.Keys);
          RemovedBarcodes(st.rows, st.index.Keys);
          changed := true;
        }
      }
    }

    /** The loop over the sheet's rows, with tabacchiDict built from the list. */
    static method ApplySheet(rows: seq<CatRow>, sheet: seq<SheetRow>) returns (st: MergeState, err: Option<Error>)
      ensures (st, err) == MergeRows(MergeState(rows, IndexOf(rows), false), sheet)
    {
      var index := BuildIndex(rows);
      st := MergeState(rows, index, false);
      ghost var ps := Reads(sheet);
      ReadsAt(sheet);
      var k := 0;
      while k < |sheet|
        invariant k <= |sheet| && WellIndexed(st)
        invariant MergeParsed(MergeState(rows, index, false), ps[..k]) == (st, None)
      {
        PrefixSnoc(ps, k);
        MergeParsedSnoc(MergeState(rows, index, false), ps[..k], ps[k]);
        var read := Parse(sheet[k]);
        if read.Err? {
          MergeParsedStops(MergeState(rows, index, false), ps[..k + 1], ps[k + 1..]);
          return st, Some(read.error);
        }
        st := Apply(st, read.value);
        k := k + 1;
      }
      assert ps[..k] == ps;
      err := None;
    }

    /** tabacchiDict, filled row by row. */
    static method BuildIndex(rows: seq<CatRow>) returns (index: map<ArticleId, nat>)
      ensures index == IndexOf(rows)
    {
      index := map[];
      for i := 0 to |rows|
        invariant index == IndexOf(rows[..i])
      {
        assert rows[..i + 1][..i] == rows[..i];
        index := index[rows[i].id := i];
      }
      assert rows[..|rows|] == rows;
    }

    /** deleteList: the codes left in tabacchiDict, in its order. */
    static method DeleteKeys(rows: seq<CatRow>, keep: set<ArticleId>) returns (keys: seq<ArticleId>)
      ensures keys == KeysInOrder(Ids(rows), keep)
    {
      keys := [];
      var ids := Ids(rows);
      for i := 0 to |ids|
        invariant keys == KeysInOrder(ids[..i], keep)
      {
        assert ids[..i + 1][..i] == ids[..i];
        if ids[i] in keep && ids[i] !in keys {
          keys := keys + [ids[i]];
        }
      }
      assert ids[..|ids|] == ids;
    }

    /** The confirmed removal: the loop over the list removing every row whose code is left in tabacchiDict. */
    static method RemoveRows(rows: seq<CatRow>, gone: set<ArticleId>) returns (kept: seq<CatRow>)
      ensures kept == Removed(rows, gone)
    {
      kept := [];
      for i := 0 to |rows|
        invariant kept == Removed(rows[..i], gone)
      {
        assert rows[..i + 1][..i] == rows[..i];
        if rows[i].id !in gone {
          kept := kept + [rows[i]];
        }
      }
      assert rows[..|rows|] == rows;
    }
  }

  /** The codes of the list, in order. */
  function Ids(rows: seq<CatRow>): (ids: seq<ArticleId>)
    ensures |ids| == |rows| && forall j :: 0 <= j < |rows| ==> ids[j] == rows[j].id
  {
    seq(|rows|, j requires 0 <= j < |rows| => rows[j].id)
  }

  /** Giving row i a barcode that no row holds keeps barcodes unique; the list's barcodes lose the old one
      and gain the new one. */
  lemma ChangedBarcodes(rows: seq<CatRow>, i: nat, barcode: string)
    requires i < |rows| && DistinctBarcodes(rows) && barcode !in Barcodes(rows)
    ensures var r := rows[i := rows[i].(barcode := barcode, dirty := true)];
            DistinctBarcodes(r)
            && Barcodes(r) == (if |rows[i].barcode| > 0 then Barcodes(rows) - {rows[i].barcode} else Barcodes(rows))
                              + (if |barcode| > 0 then {barcode} else {})
  {
    var r := rows[i := rows[i].(barcode := barcode, dirty := true)];
    forall a, b | 0 <= a < b < |r| && |r[a].barcode| > 0 ensures r[a].barcode != r[b].barcode {
      if a == i {
        assert |rows[b].barcode| > 0 ==> rows[b].barcode in Barcodes(rows);
      } else if b == i {
        assert rows[a].barcode in Barcodes(rows);
      }
    }
    var prev := rows[i].barcode;
    forall x | x in Barcodes(rows) && x != prev ensures x in Barcodes(r) {
      var j :| 0 <= j < |rows| && |rows[j].barcode| > 0 && rows[j].barcode == x;
      assert r[j].barcode == x;
    }
    forall x | x in Barcodes(r) && x != barcode ensures x in Barcodes(rows) && x != prev {
      var j :| 0 <= j < |r| && |r[j].barcode| > 0 && r[j].barcode == x;
      assert j != i && rows[j].barcode == x;
    }
    if |barcode| > 0 {
      assert r[i].barcode == barcode;
    }
  }
}
