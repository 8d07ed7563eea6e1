/** The reception of a delivered order (RicezioneOrdineDialog, tabacchi/ordini.py:41-469): the session
    rows with ordered weight (peso), loaded weight (carico), cost and verified flag, four running totals,
    the barcode index of the rows (ordineDict), the catalog articles outside the order (listinoDict), and
    the articles removed from the order (deletedList). */
module Reception {
  import opened Wrappers
  import opened Store

  /** A session row: the columns ID, DESCRIZIONE, PESO, CARICO, COSTO, UNITA_MIN, VERIFICA, PREZZO_KG and
      BARCODE. The ELIMINATO column is never set on a session row, so it is always false. */
  datatype Row = Row(
    id: ArticleId,
    descrizione: string,
    peso: nat,
    carico: nat,
    costo: int,
    unitaMin: nat,
    verifica: bool,
    prezzoKg: nat,
    barcode: string)

  /** A listinoDict value: [ID, descrizione, unitaMin, prezzoKg]. */
  datatype ListinoEntry = ListinoEntry(id: ArticleId, descrizione: string, unitaMin: nat, prezzoKg: nat)

  /** The four running totals: loaded weight, ordered weight, and their costs. */
  datatype Measure = Carico | Peso | EuroCarico | EuroPeso

  function Value(r: Row, m: Measure): int {
    match m
    case Carico => r.carico
    case Peso => r.peso
    case EuroCarico => Cost(r.carico, r.prezzoKg)
    case EuroPeso => r.costo
  }

  /** The sum of one measure over the rows. */
  function Total(rows: seq<Row>, m: Measure): int
    decreases |rows|
  {
    if |rows| == 0 then 0 else Total(rows[..|rows| - 1], m) + Value(rows[|rows| - 1], m)
  }

  lemma TotalAppend(rows: seq<Row>, r: Row, m: Measure)
    ensures Total(rows + [r], m) == Total(rows, m) + Value(r, m)
  {
    assert (rows + [r])[..|rows|] == rows;
  }

  lemma {:induction false} TotalUpdate(rows: seq<Row>, i: nat, r: Row, m: Measure)
    requires i < |rows|
    ensures Total(rows[i := r], m) == Total(rows, m) - Value(rows[i], m) + Value(r, m)
    decreases |rows|
  {
    var n := |rows|;
    if i == n - 1 {
      assert rows[i := r][..n - 1] == rows[..n - 1];
    } else {
      assert rows[i := r][..n - 1] == rows[..n - 1][i := r];
      TotalUpdate(rows[..n - 1], i, r, m);
    }
  }

  lemma {:induction false} TotalRemove(rows: seq<Row>, i: nat, m: Measure)
    requires i < |rows|
    ensures Total(rows[..i] + rows[i + 1..], m) == Total(rows, m) - Value(rows[i], m)
    decreases |rows|
  {
    var n := |rows|;
    var s := rows[..i] + rows[i + 1..];
    if i == n - 1 {
      assert s == rows[..n - 1];
    } else {
      var p := rows[..n - 1];
      assert s[..|s| - 1] == p[..i] + p[i + 1..];
      assert s[|s| - 1] == rows[n - 1];
      TotalRemove(p, i, m);
      assert p[i] == rows[i];
      assert Total(s, m) == Total(p[..i] + p[i + 1..], m) + Value(rows[n - 1], m);
      assert Total(rows, m) == Total(p, m) + Value(rows[n - 1], m);
    }
  }

  /** Every row keeps COSTO equal to the cost of PESO and VERIFICA equal to "loaded equals ordered". */
  predicate RowOk(r: Row) {
    r.costo == Cost(r.peso, r.prezzoKg) && r.verifica == (r.carico == r.peso)
  }

  predicate RowsOk(rows: seq<Row>) { forall i :: 0 <= i < |rows| ==> RowOk(rows[i]) }

  predicate UniqueRowIds(rows: seq<Row>) {
    forall i, j :: 0 <= i < j < |rows| ==> rows[i].id != rows[j].id
  }

  /** d maps exactly the non-empty barcodes of the rows, each to the index of its row. */
  predicate IndexesRows(d: map<string, nat>, rows: seq<Row>) {
    (forall b :: b in d ==> b != "" && d[b] < |rows| && rows[d[b]].barcode == b)
    && (forall i :: 0 <= i < |rows| && rows[i].barcode != "" ==> rows[i].barcode in d && d[rows[i].barcode] == i)
  }

  /** listinoDict holds catalog articles outside the session: its barcodes are not in ordineDict, its
      articles are not rows, and no article appears under two barcodes. */
  predicate ListinoOk(listino: map<string, ListinoEntry>, d: map<string, nat>, rows: seq<Row>) {
    (forall b :: b in listino ==> b != "" && b !in d)
    && (forall b, i :: b in listino && 0 <= i < |rows| ==> listino[b].id != rows[i].id)
    && (forall b, c :: b in listino && c in listino && b != c ==> listino[b].id != listino[c].id)
  }

  function AllVerified(rows: seq<Row>): bool {
    forall i :: 0 <= i < |rows| ==> rows[i].verifica
  }

  /** The archive gate of okClose: every row verified, weights equal to the gram, costs equal to the cent. */
  function ArchiveGate(rows: seq<Row>, totCarico: int, totPeso: int, totEuroCarico: int, totEuroPeso: int): bool {
    AllVerified(rows) && totCarico == totPeso && RoundCents(totEuroCarico) == RoundCents(totEuroPeso)
  }

  /** When every row is verified, loaded and ordered totals agree, in weight and in cost. */
  lemma {:induction false} VerifiedTotalsAgree(rows: seq<Row>)
    requires RowsOk(rows) && AllVerified(rows)
    ensures Total(rows, Carico) == Total(rows, Peso)
    ensures Total(rows, EuroCarico) == Total(rows, EuroPeso)
    decreases |rows|
  {
    if |rows| > 0 {
      var p := rows[..|rows| - 1];
      assert forall i :: 0 <= i < |p| ==> p[i] == rows[i];
      VerifiedTotalsAgree(p);
    }
  }

  /** With totals that are the sums of the rows, the archive gate is open exactly when every row is
      verified: the weight and cost comparisons then never refuse. */
  lemma ArchiveGateIffVerified(rows: seq<Row>)
    requires RowsOk(rows)
    ensures ArchiveGate(rows, Total(rows, Carico), Total(rows, Peso), Total(rows, EuroCarico), Total(rows, EuroPeso))
            <==> AllVerified(rows)
  {
    if AllVerified(rows) {
      VerifiedTotalsAgree(rows);
    }
  }

  /** checkAllinea: "align the order to the delivery" is offered for an unverified row with a load. */
  function AllineaEnabled(r: Row): (e: bool)
    ensures RowOk(r) ==> (e <==> r.carico != r.peso && r.carico > 0)
  {
    !r.verifica && r.carico > 0
  }

  /** The row __setValue leaves: a load up to the ordered weight is taken as it is; a larger one raises
      the ordered weight and the cost when confirmed and is dropped otherwise. */
  function SetValueRow(r: Row, value: nat, confirm: bool): (r': Row)
    ensures RowOk(r) ==> RowOk(r')
    ensures r'.id == r.id && r'.barcode == r.barcode && r'.prezzoKg == r.prezzoKg && r'.unitaMin == r.unitaMin
    ensures value <= r.peso ==> r'.carico == value && r'.peso == r.peso && r'.costo == r.costo
    ensures value > r.peso && confirm ==> r'.carico == value && r'.peso == value && r'.verifica
    ensures value > r.peso && !confirm ==> r' == r
  {
    if value <= r.peso then r.(carico := value, verifica := value == r.peso)
    else if confirm then r.(carico := value, peso := value, costo := Cost(value, r.prezzoKg), verifica := true)
    else r
  }

  /** totEuroPeso after a confirmed over-delivery, as tabacchi/ordini.py:234 computes it: it takes away the
      cost of the old load instead of the row's cost (the cost of the old ordered weight). */
  function OverDeliveryEuroPesoAsWritten(totEuroPeso: int, r: Row, value: nat): (t: int)
    ensures t - totEuroPeso == Cost(value, r.prezzoKg) - Cost(r.carico, r.prezzoKg)
  {
    totEuroPeso - Cost(r.carico, r.prezzoKg) + Cost(value, r.prezzoKg)
  }

  /** The corrected update: the row's cost leaves the ordered total and the new cost enters it. */
  function OverDeliveryEuroPeso(totEuroPeso: int, r: Row, value: nat): (t: int)
    ensures t - totEuroPeso == Cost(value, r.prezzoKg) - r.costo
  {
    totEuroPeso - r.costo + Cost(value, r.prezzoKg)
  }

  /** The corrected update keeps totEuroPeso equal to the sum of the row costs. */
  lemma OverDeliveryKeepsSum(rows: seq<Row>, i: nat, value: nat)
    requires i < |rows| && value > rows[i].peso
    ensures OverDeliveryEuroPeso(Total(rows, EuroPeso), rows[i], value)
            == Total(rows[i := SetValueRow(rows[i], value, true)], EuroPeso)
  {
    TotalUpdate(rows, i, SetValueRow(rows[i], value, true), EuroPeso);
  }

  /** As written, the ordered cost total drifts from the sum of the row costs by exactly
      Cost(peso) - Cost(carico) of the row, which is not zero whenever the two costs differ. */
  lemma AsWrittenDrift(rows: seq<Row>, i: nat, value: nat)
    requires RowsOk(rows) && i < |rows| && value > rows[i].peso
    ensures OverDeliveryEuroPesoAsWritten(Total(rows, EuroPeso), rows[i], value)
            - Total(rows[i := SetValueRow(rows[i], value, true)], EuroPeso)
            == Cost(rows[i].peso, rows[i].prezzoKg) - Cost(rows[i].carico, rows[i].prezzoKg)
  {
    OverDeliveryKeepsSum(rows, i, value);
  }

  /** One row ordered at 5 kg, nothing loaded yet, 7 kg entered and the increase confirmed: every row is
      then verified and the weights agree, yet the cost totals computed as written differ by 1000 euro,
      so the archive gate stays shut. */
  lemma AsWrittenBlocksArchive()
    ensures var r := Row("123", "Tabacco", 5000, 0, Cost(5000, 200000), 500, false, 200000, "800123");
            var rows' := [SetValueRow(r, 7000, true)];
            var tc := 0 - r.carico + 7000;
            var tp := r.peso - r.peso + 7000;
            var tec := Cost(0, 200000) - Cost(r.carico, 200000) + Cost(7000, 200000);
            var tep := OverDeliveryEuroPesoAsWritten(r.costo, r, 7000);
            RowsOk(rows') && AllVerified(rows') && tc == tp
            && tec == Total(rows', EuroCarico)
            && tep - Total(rows', EuroPeso) == 1000000
            && !ArchiveGate(rows', tc, tp, tec, tep)
  {
    var r := Row("123", "Tabacco", 5000, 0, Cost(5000, 200000), 500, false, 200000, "800123");
    var rows' := [SetValueRow(r, 7000, true)];
    assert rows'[..0] == [];
  }

  /** One catalog article as the load query returns it: the ordered weight, loaded weight and removed flag
      of the verification rows (resumed session) or of the order lines (first opening); NULL is None or 0. */
  datatype Joined = Joined(article: Article, ordine: Option<int>, carico: nat, eliminato: bool)

  /** Is there already a verification row for the order (count(ID) > 0)? */
  predicate Resumed(db: Db, order: OrderId) {
    exists k :: k in db.verify && k.1 == order
  }

  function JoinArticle(db: Db, order: OrderId, resumed: bool, a: Article): Joined {
    if resumed then
      if (a.id, order) in db.verify then
        var v := db.verify[(a.id, order)];
        Joined(a, Some(v.peso), v.carico, v.eliminato)
      else Joined(a, None, 0, false)
    else if (a.id, order) in db.lines then Joined(a, Some(db.lines[(a.id, order)].ordine), 0, false)
    else Joined(a, None, 0, false)
  }

  function JoinAll(db: Db, order: OrderId, resumed: bool): (js: seq<Joined>)
    ensures |js| == |db.catalog| && forall i :: 0 <= i < |js| ==> js[i].article == db.catalog[i]
  {
    seq(|db.catalog|, i requires 0 <= i < |db.catalog| => JoinArticle(db, order, resumed, db.catalog[i]))
  }

  /** The first opening seeds one verification row per order line of a catalog article:
      nothing loaded, the ordered weight, not removed. */
  function Seeded(db: Db, order: OrderId): map<LineKey, VerifyRow> {
    map k | k in db.lines && k.1 == order && InCatalog(db.catalog, k.0) :: VerifyRow(0, db.lines[k].ordine, false)
  }

  /** A loaded article becomes a session row when it is not removed and has a positive ordered weight. */
  predicate InSession(j: Joined) { !j.eliminato && j.ordine.Some? && j.ordine.value > 0 }

  function ToRow(j: Joined): (r: Row)
    requires InSession(j)
    ensures RowOk(r) && r.id == j.article.id && r.barcode == j.article.barcode
  {
    var a := j.article;
    var peso := j.ordine.value;
    Row(a.id, a.descrizione, peso, j.carico, Cost(peso, a.prezzoKg), a.unitaMin, j.carico == peso, a.prezzoKg, a.barcode)
  }

  function ToEntry(a: Article): ListinoEntry {
    ListinoEntry(a.id, a.descrizione, a.unitaMin, a.prezzoKg)
  }

  /** The session rows load builds: the in-session articles in query order. */
  function SessionRows(js: seq<Joined>): seq<Row>
    decreases |js|
  {
    if |js| == 0 then []
    else
      var last := js[|js| - 1];
      SessionRows(js[..|js| - 1]) + (if InSession(last) then [ToRow(last)] else [])
  }

  /** listinoDict after load: the other articles that have a barcode. */
  function ListinoOf(js: seq<Joined>): map<string, ListinoEntry>
    decreases |js|
  {
    if |js| == 0 then map[]
    else
      var last := js[|js| - 1];
      var m := ListinoOf(js[..|js| - 1]);
      if !InSession(last) && last.article.barcode != "" then m[last.article.barcode := ToEntry(last.article)] else m
  }

  /** deletedList after load: the articles marked as removed, in query order. */
  function DeletedOf(js: seq<Joined>): seq<ArticleId>
    decreases |js|
  {
    if |js| == 0 then []
    else
      var last := js[|js| - 1];
      DeletedOf(js[..|js| - 1]) + (if last.eliminato then [last.article.id] else [])
  }

  /** Every session row is an in-session article turned into a row, and every in-session article has one. */
  lemma {:induction false} SessionRowsExact(js: seq<Joined>)
    ensures forall r :: r in SessionRows(js) ==> exists j :: j in js && InSession(j) && r == ToRow(j)
    ensures forall j :: j in js && InSession(j) ==> ToRow(j) in SessionRows(js)
    decreases |js|
  {
    if |js| > 0 {
      var p := js[..|js| - 1];
      SessionRowsExact(p);
      assert js == p + [js[|js| - 1]];
      forall j | j in js && InSession(j)
        ensures ToRow(j) in SessionRows(js)
      {
        if j != js[|js| - 1] {
          assert j in p;
        }
      }
    }
  }

  /** listinoDict after load holds the barcode of every article left out of the session, and only those. */
  lemma {:induction false} ListinoOfExact(js: seq<Joined>, b: string)
    ensures b in ListinoOf(js) <==> exists j :: j in js && !InSession(j) && j.article.barcode == b && b != ""
    decreases |js|
  {
    if |js| > 0 {
      var p := js[..|js| - 1];
      ListinoOfExact(p, b);
      assert js == p + [js[|js| - 1]];
      if b in ListinoOf(js) && b !in ListinoOf(p) {
        assert js[|js| - 1] in js;
      }
      if exists j :: j in js && !InSession(j) && j.article.barcode == b && b != "" {
        var j :| j in js && !InSession(j) && j.article.barcode == b && b != "";
        if j != js[|js| - 1] {
          assert j in p;
        }
      }
    }
  }

  /** The identifiers of catalog[..k] and the barcodes among them. */
  function IdsUpTo(catalog: seq<Article>, k: nat): set<ArticleId>
    requires k <= |catalog|
  {
    set i | 0 <= i < k :: catalog[i].id
  }

  function BarcodesUpTo(catalog: seq<Article>, k: nat): set<string>
    requires k <= |catalog|
  {
    set i | 0 <= i < k && catalog[i].barcode != "" :: catalog[i].barcode
  }

  /** The ordine column that save and the final update write: the rows that follow the deleted marks. */
  function MarkDeleted(v: map<LineKey, VerifyRow>, order: OrderId, ids: seq<ArticleId>): map<LineKey, VerifyRow>
    decreases |ids|
  {
    if |ids| == 0 then v
    else MarkDeleted(v, order, ids[..|ids| - 1])[(ids[|ids| - 1], order) := VerifyRow(0, 0, true)]
  }

  function StoreRows(v: map<LineKey, VerifyRow>, order: OrderId, rows: seq<Row>): map<LineKey, VerifyRow>
    decreases |rows|
  {
    if |rows| == 0 then v
    else
      var r := rows[|rows| - 1];
      StoreRows(v, order, rows[..|rows| - 1])[(r.id, order) := VerifyRow(r.carico, r.peso, false)]
  }

  /** save(): every deleted article marked as (0, 0, removed), then every row upserted with its weights. */
  function SavedVerify(v: map<LineKey, VerifyRow>, order: OrderId, deleted: seq<ArticleId>, rows: seq<Row>)
    : map<LineKey, VerifyRow>
  {
    StoreRows(MarkDeleted(v, order, deleted), order, rows)
  }

  lemma {:induction false} StoreRowsSpec(v: map<LineKey, VerifyRow>, order: OrderId, rows: seq<Row>, k: LineKey)
    requires UniqueRowIds(rows)
    ensures forall i :: 0 <= i < |rows| && k == (rows[i].id, order) ==>
              k in StoreRows(v, order, rows) && StoreRows(v, order, rows)[k] == VerifyRow(rows[i].carico, rows[i].peso, false)
    ensures (forall i :: 0 <= i < |rows| ==> k != (rows[i].id, order)) ==>
              (k in StoreRows(v, order, rows) <==> k in v) && (k in v ==> StoreRows(v, order, rows)[k] == v[k])
    decreases |rows|
  {
    if |rows| > 0 {
      var p := rows[..|rows| - 1];
      assert forall i :: 0 <= i < |p| ==> p[i] == rows[i];
      StoreRowsSpec(v, order, p, k);
    }
  }

  lemma {:induction false} MarkDeletedSpec(v: map<LineKey, VerifyRow>, order: OrderId, ids: seq<ArticleId>, k: LineKey)
    ensures k.1 == order && k.0 in ids ==> k in MarkDeleted(v, order, ids) && MarkDeleted(v, order, ids)[k] == VerifyRow(0, 0, true)
    ensures !(k.1 == order && k.0 in ids) ==>
              (k in MarkDeleted(v, order, ids) <==> k in v) && (k in v ==> MarkDeleted(v, order, ids)[k] == v[k])
    decreases |ids|
  {
    if |ids| > 0 {
      var p := ids[..|ids| - 1];
      assert ids == p + [ids[|ids| - 1]];
      MarkDeletedSpec(v, order, p, k);
    }
  }

  /** After save, each row's check holds its weights (a deleted and re-added article's row wins), each
      deleted article outside the rows is marked removed, and every other check row is as it was. */
  lemma SavedVerifySpec(v: map<LineKey, VerifyRow>, order: OrderId, deleted: seq<ArticleId>, rows: seq<Row>, k: LineKey)
    requires UniqueRowIds(rows)
    ensures forall i :: 0 <= i < |rows| && k == (rows[i].id, order) ==>
              k in SavedVerify(v, order, deleted, rows)
              && SavedVerify(v, order, deleted, rows)[k] == VerifyRow(rows[i].carico, rows[i].peso, false)
    ensures (forall i :: 0 <= i < |rows| ==> k != (rows[i].id, order)) && k.1 == order && k.0 in deleted ==>
              k in SavedVerify(v, order, deleted, rows) && SavedVerify(v, order, deleted, rows)[k] == VerifyRow(0, 0, true)
    ensures (forall i :: 0 <= i < |rows| ==> k != (rows[i].id, order)) && !(k.1 == order && k.0 in deleted) ==>
              (k in SavedVerify(v, order, deleted, rows) <==> k in v)
              && (k in v ==> SavedVerify(v, order, deleted, rows)[k] == v[k])
  {
    MarkDeletedSpec(v, order, deleted, k);
    StoreRowsSpec(MarkDeleted(v, order, deleted), order, rows, k);
  }

  /** The final update sets the ordered weight of each deleted article's line to 0 (lines that exist only). */
  function ZeroDeleted(lines: map<LineKey, OrderLine>, order: OrderId, ids: seq<ArticleId>): map<LineKey, OrderLine>
    decreases |ids|
  {
    if |ids| == 0 then lines
    else
      var m := ZeroDeleted(lines, order, ids[..|ids| - 1]);
      var k := (ids[|ids| - 1], order);
      if k in m then m[k := m[k].(ordine := 0)] else m
  }

  /** ... then writes each row's ordered weight into its line, inserting a line where there is none. */
  function WriteRows(lines: map<LineKey, OrderLine>, order: OrderId, rows: seq<Row>): map<LineKey, OrderLine>
    decreases |rows|
  {
    if |rows| == 0 then lines
    else
      var r := rows[|rows| - 1];
      var m := WriteRows(lines, order, rows[..|rows| - 1]);
      var k := (r.id, order);
      if k in m then m[k := m[k].(ordine := r.peso)]
      else m[k := OrderLine(r.descrizione, r.peso, r.prezzoKg, 0, 0)]
  }

  /** __updateOrdine in one transaction: lines rewritten, state RICEVUTO, the order's checks purged. */
  function ArchivedDb(db: Db, order: OrderId, deleted: seq<ArticleId>, rows: seq<Row>): Db {
    var lines := WriteRows(ZeroDeleted(db.lines, order, deleted), order, rows);
    var orders := if order in db.orders then db.orders[order := db.orders[order].(stato := RICEVUTO)] else db.orders;
    db.(lines := lines, orders := orders, verify := DropOrder(db.verify, order))
  }

  lemma {:induction false} ZeroDeletedSpec(lines: map<LineKey, OrderLine>, order: OrderId, ids: seq<ArticleId>, k: LineKey)
    ensures (k in ZeroDeleted(lines, order, ids) <==> k in lines)
    ensures k in lines && k.1 == order && k.0 in ids ==> ZeroDeleted(lines, order, ids)[k] == lines[k].(ordine := 0)
    ensures k in lines && !(k.1 == order && k.0 in ids) ==> ZeroDeleted(lines, order, ids)[k] == lines[k]
    decreases |ids|
  {
    if |ids| > 0 {
      var p := ids[..|ids| - 1];
      assert ids == p + [ids[|ids| - 1]];
      ZeroDeletedSpec(lines, order, p, k);
    }
  }

  lemma {:induction false} WriteRowsSpec(lines: map<LineKey, OrderLine>, order: OrderId, rows: seq<Row>, k: LineKey)
    requires UniqueRowIds(rows)
    ensures forall i :: 0 <= i < |rows| && k == (rows[i].id, order) ==>
              k in WriteRows(lines, order, rows) && WriteRows(lines, order, rows)[k].ordine == rows[i].peso
              && (k in lines ==> WriteRows(lines, order, rows)[k] == lines[k].(ordine := rows[i].peso))
              && (k !in lines ==> WriteRows(lines, order, rows)[k]
                                  == OrderLine(rows[i].descrizione, rows[i].peso, rows[i].prezzoKg, 0, 0))
    ensures (forall i :: 0 <= i < |rows| ==> k != (rows[i].id, order)) ==>
              (k in WriteRows(lines, order, rows) <==> k in lines)
              && (k in lines ==> WriteRows(lines, order, rows)[k] == lines[k])
    decreases |rows|
  {
    if |rows| > 0 {
      var p := rows[..|rows| - 1];
      assert forall i :: 0 <= i < |p| ==> p[i] == rows[i];
      WriteRowsSpec(lines, order, p, k);
    }
  }

  /** After the final update: each row's line orders the row's weight, each deleted article's existing line
      orders 0, lines of other orders are untouched, the order is RICEVUTO and has no checks left. */
  lemma ArchivedDbSpec(db: Db, order: OrderId, deleted: seq<ArticleId>, rows: seq<Row>, k: LineKey)
    requires UniqueRowIds(rows)
    ensures var db' := ArchivedDb(db, order, deleted, rows);
            (forall i :: 0 <= i < |rows| && k == (rows[i].id, order) ==> k in db'.lines && db'.lines[k].ordine == rows[i].peso)
            && ((forall i :: 0 <= i < |rows| ==> k != (rows[i].id, order)) && k.1 == order && k.0 in deleted && k in db.lines ==>
                  k in db'.lines && db'.lines[k].ordine == 0)
            && (k.1 != order ==> (k in db'.lines <==> k in db.lines) && (k in db.lines ==> db'.lines[k] == db.lines[k]))
            && (order in db.orders ==> order in db'.orders && db'.orders[order].stato == RICEVUTO)
            && !Resumed(db', order)
            && db'.catalog == db.catalog && db'.suppletivo == db.suppletivo
  {
    ZeroDeletedSpec(db.lines, order, deleted, k);
    WriteRowsSpec(ZeroDeleted(db.lines, order, deleted), order, rows, k);
  }

  /** The four totals are the sums over the rows. */
  predicate TotalsOk(rows: seq<Row>, tc: int, tp: int, tec: int, tep: int) {
    tc == Total(rows, Carico) && tp == Total(rows, Peso) && tec == Total(rows, EuroCarico) && tep == Total(rows, EuroPeso)
  }

  /** The session invariant over plain values: the totals are the sums over the rows, the rows are
      consistent, ordineDict indexes the rows and listinoDict stays apart from them. */
  predicate SessionOk(rows: seq<Row>, od: map<string, nat>, ld: map<string, ListinoEntry>,
                      tc: int, tp: int, tec: int, tep: int)
  {
    TotalsOk(rows, tc, tp, tec, tep) && RowsOk(rows) && UniqueRowIds(rows) && IndexesRows(od, rows) && ListinoOk(ld, od, rows)
  }

  /** An index of the rows proves their non-empty barcodes distinct. */
  lemma IndexedBarcodesDistinct(od: map<string, nat>, rows: seq<Row>)
    requires IndexesRows(od, rows)
    ensures forall i, j :: 0 <= i < j < |rows| && rows[i].barcode != "" ==> rows[i].barcode != rows[j].barcode
  {
  }

  /** Replacing row i by a consistent row of the same article and barcode keeps the invariant, with each
      total moved by the difference of the two rows. */
  lemma UpdateRowOk(rows: seq<Row>, od: map<string, nat>, ld: map<string, ListinoEntry>,
                    tc: int, tp: int, tec: int, tep: int, i: nat, r': Row)
    requires SessionOk(rows, od, ld, tc, tp, tec, tep) && i < |rows|
    requires RowOk(r') && r'.id == rows[i].id && r'.barcode == rows[i].barcode
    ensures SessionOk(rows[i := r'], od, ld,
                      tc - rows[i].carico + r'.carico, tp - rows[i].peso + r'.peso,
                      tec - Cost(rows[i].carico, rows[i].prezzoKg) + Cost(r'.carico, r'.prezzoKg),
                      tep - rows[i].costo + r'.costo)
  {
    UpdateTotals(rows, tc, tp, tec, tep, i, r');
    UpdateKeepsShape(rows, od, ld, i, r');
  }

  lemma UpdateTotals(rows: seq<Row>, tc: int, tp: int, tec: int, tep: int, i: nat, r': Row)
    requires TotalsOk(rows, tc, tp, tec, tep) && i < |rows|
    ensures TotalsOk(rows[i := r'],
                     tc - rows[i].carico + r'.carico, tp - rows[i].peso + r'.peso,
                     tec - Cost(rows[i].carico, rows[i].prezzoKg) + Cost(r'.carico, r'.prezzoKg),
                     tep - rows[i].costo + r'.costo)
  {
    TotalUpdate(rows, i, r', Carico);
    TotalUpdate(rows, i, r', Peso);
    TotalUpdate(rows, i, r', EuroCarico);
    TotalUpdate(rows, i, r', EuroPeso);
  }

  /** A consistent row with the same article and barcode keeps the rows, the index and listinoDict valid. */
  lemma UpdateKeepsShape(rows: seq<Row>, od: map<string, nat>, ld: map<string, ListinoEntry>, i: nat, r': Row)
    requires RowsOk(rows) && UniqueRowIds(rows) && IndexesRows(od, rows) && ListinoOk(ld, od, rows) && i < |rows|
    requires RowOk(r') && r'.id == rows[i].id && r'.barcode == rows[i].barcode
    ensures var rows' := rows[i := r'];
            RowsOk(rows') && UniqueRowIds(rows') && IndexesRows(od, rows') && ListinoOk(ld, od, rows')
  {
    var rows' := rows[i := r'];
    assert forall j :: 0 <= j < |rows| ==> rows'[j].id == rows[j].id && rows'[j].barcode == rows[j].barcode;
  }

  lemma AppendTotals(rows: seq<Row>, r: Row, tc: int, tp: int, tec: int, tep: int)
    requires TotalsOk(rows, tc, tp, tec, tep)
    ensures TotalsOk(rows + [r], tc + r.carico, tp + r.peso, tec + Cost(r.carico, r.prezzoKg), tep + r.costo)
  {
    TotalAppend(rows, r, Carico);
    TotalAppend(rows, r, Peso);
    TotalAppend(rows, r, EuroCarico);
    TotalAppend(rows, r, EuroPeso);
  }

  lemma AppendRowsOk(rows: seq<Row>, r: Row)
    requires RowsOk(rows) && RowOk(r) && UniqueRowIds(rows)
    requires forall j :: 0 <= j < |rows| ==> rows[j].id != r.id
    ensures RowsOk(rows + [r]) && UniqueRowIds(rows + [r])
  {
    var rows' := rows + [r];
    assert forall j :: 0 <= j < |rows| ==> rows'[j] == rows[j];
  }

  lemma AppendIndex(od: map<string, nat>, rows: seq<Row>, r: Row)
    requires IndexesRows(od, rows) && (r.barcode != "" ==> r.barcode !in od)
    ensures IndexesRows(if r.barcode != "" then od[r.barcode := |rows|] else od, rows + [r])
  {
    var rows' := rows + [r];
    assert forall j :: 0 <= j < |rows| ==> rows'[j] == rows[j];
  }

  lemma AppendListino(ld: map<string, ListinoEntry>, od: map<string, nat>, rows: seq<Row>, r: Row)
    requires ListinoOk(ld, od, rows)
    requires forall b :: b in ld ==> ld[b].id != r.id && b != r.barcode
    ensures ListinoOk(ld, if r.barcode != "" then od[r.barcode := |rows|] else od, rows + [r])
  {
    var rows' := rows + [r];
    assert forall j :: 0 <= j < |rows| ==> rows'[j] == rows[j];
  }

  /** Appending a consistent row of a new article and a new barcode keeps the invariant. */
  lemma AppendRowOk(rows: seq<Row>, od: map<string, nat>, ld: map<string, ListinoEntry>,
                    tc: int, tp: int, tec: int, tep: int, r: Row)
    requires SessionOk(rows, od, ld, tc, tp, tec, tep) && RowOk(r)
    requires forall j :: 0 <= j < |rows| ==> rows[j].id != r.id
    requires forall b :: b in ld ==> ld[b].id != r.id && b != r.barcode
    requires r.barcode != "" ==> r.barcode !in od
    ensures SessionOk(rows + [r], if r.barcode != "" then od[r.barcode := |rows|] else od, ld,
                      tc + r.carico, tp + r.peso, tec + Cost(r.carico, r.prezzoKg), tep + r.costo)
  {
    AppendTotals(rows, r, tc, tp, tec, tep);
    AppendRowsOk(rows, r);
    AppendIndex(od, rows, r);
    AppendListino(ld, od, rows, r);
  }

  /** Adding a listino entry under a new barcode, for an article that is neither a row nor listed, keeps
      the invariant. */
  lemma AddListinoOk(rows: seq<Row>, od: map<string, nat>, ld: map<string, ListinoEntry>,
                     tc: int, tp: int, tec: int, tep: int, b: string, e: ListinoEntry)
    requires SessionOk(rows, od, ld, tc, tp, tec, tep) && b != "" && b !in od && b !in ld
    requires forall j :: 0 <= j < |rows| ==> rows[j].id != e.id
    requires forall c :: c in ld ==> ld[c].id != e.id
    ensures SessionOk(rows, od, ld[b := e], tc, tp, tec, tep)
  {
  }

  /** Dropping a listino entry keeps the invariant. */
  lemma DropListinoOk(rows: seq<Row>, od: map<string, nat>, ld: map<string, ListinoEntry>,
                      tc: int, tp: int, tec: int, tep: int, b: string)
    requires SessionOk(rows, od, ld, tc, tp, tec, tep)
    ensures SessionOk(rows, od, ld - {b}, tc, tp, tec, tep)
  {
  }

  /** Appending the row of a scanned catalog barcode keeps the invariant once the barcode moves from
      listinoDict to ordineDict. */
  lemma AppendScannedOk(rows: seq<Row>, od: map<string, nat>, ld: map<string, ListinoEntry>,
                        tc: int, tp: int, tec: int, tep: int, data: string)
    requires SessionOk(rows, od, ld, tc, tp, tec, tep) && data in ld
    ensures var e := ld[data];
            var r := Row(e.id, e.descrizione, e.unitaMin, e.unitaMin, Cost(e.unitaMin, e.prezzoKg), e.unitaMin, true, e.prezzoKg, data);
            SessionOk(rows + [r], od[data := |rows|], ld - {data},
                      tc + e.unitaMin, tp + e.unitaMin, tec + Cost(e.unitaMin, e.prezzoKg), tep + Cost(e.unitaMin, e.prezzoKg))
  {
    var e := ld[data];
    var r := Row(e.id, e.descrizione, e.unitaMin, e.unitaMin, Cost(e.unitaMin, e.prezzoKg), e.unitaMin, true, e.prezzoKg, data);
    DropListinoOk(rows, od, ld, tc, tp, tec, tep, data);
    AppendRowOk(rows, od, ld - {data}, tc, tp, tec, tep, r);
  }

  /** rows without row i, element by element. */
  lemma RemoveShape(rows: seq<Row>, i: nat)
    requires i < |rows|
    ensures var rs := rows[..i] + rows[i + 1..];
            |rs| == |rows| - 1
            && (forall j :: 0 <= j < i ==> rs[j] == rows[j])
            && (forall j :: i <= j < |rs| ==> rs[j] == rows[j + 1])
  {
  }

  lemma RemoveKeepsDistinct(od: map<string, nat>, rows: seq<Row>, i: nat)
    requires IndexesRows(od, rows) && i < |rows|
    ensures var rs := rows[..i] + rows[i + 1..];
            forall a, b :: 0 <= a < b < |rs| && rs[a].barcode != "" ==> rs[a].barcode != rs[b].barcode
  {
    RemoveShape(rows, i);
    IndexedBarcodesDistinct(od, rows);
  }

  lemma RemoveRowsOk(rows: seq<Row>, i: nat)
    requires i < |rows| && RowsOk(rows) && UniqueRowIds(rows)
    ensures RowsOk(rows[..i] + rows[i + 1..]) && UniqueRowIds(rows[..i] + rows[i + 1..])
  {
    RemoveShape(rows, i);
  }

  lemma RemoveListino(rows: seq<Row>, od: map<string, nat>, ld: map<string, ListinoEntry>, i: nat, od': map<string, nat>)
    requires i < |rows| && UniqueRowIds(rows) && IndexesRows(od, rows) && ListinoOk(ld, od, rows)
    requires IndexesRows(od', rows[..i] + rows[i + 1..])
    ensures ListinoOk(ld, od', rows[..i] + rows[i + 1..])
    ensures forall b :: b in ld ==> ld[b].id != rows[i].id && b != rows[i].barcode
    ensures rows[i].barcode !in od'
  {
    RemoveShape(rows, i);
    IndexedBarcodesDistinct(od, rows);
    var rs := rows[..i] + rows[i + 1..];
    assert forall b :: b in od' ==> b in od;
  }

  /** Removing row i keeps the invariant, with the row's barcode returned to listinoDict and an index
      rebuilt over the remaining rows. */
  lemma RemoveRowOk(rows: seq<Row>, od: map<string, nat>, ld: map<string, ListinoEntry>,
                    tc: int, tp: int, tec: int, tep: int, i: nat, od': map<string, nat>)
    requires SessionOk(rows, od, ld, tc, tp, tec, tep) && i < |rows|
    requires IndexesRows(od', rows[..i] + rows[i + 1..])
    ensures var r := rows[i];
            var ld' := if r.barcode != "" then ld[r.barcode := ListinoEntry(r.id, r.descrizione, r.unitaMin, r.prezzoKg)] else ld;
            SessionOk(rows[..i] + rows[i + 1..], od', ld',
                      tc - r.carico, tp - r.peso, tec - Cost(r.carico, r.prezzoKg), tep - Cost(r.peso, r.prezzoKg))
  {
    var r := rows[i];
    var rs := rows[..i] + rows[i + 1..];
    TotalRemove(rows, i, Carico);
    TotalRemove(rows, i, Peso);
    TotalRemove(rows, i, EuroCarico);
    TotalRemove(rows, i, EuroPeso);
    RemoveRowsOk(rows, i);
    RemoveListino(rows, od, ld, i, od');
    assert SessionOk(rs, od', ld, tc - r.carico, tp - r.peso, tec - Cost(r.carico, r.prezzoKg), tep - Cost(r.peso, r.prezzoKg));
    if r.barcode != "" {
      AddListinoOk(rs, od', ld, tc - r.carico, tp - r.peso, tec - Cost(r.carico, r.prezzoKg), tep - Cost(r.peso, r.prezzoKg),
                   r.barcode, ListinoEntry(r.id, r.descrizione, r.unitaMin, r.prezzoKg));
    }
  }

  /** The state after row i leaves: the rows without it, an index rebuilt over them, its barcode back in
      listinoDict, and every total less the row's part. */
  method RemoveRow(rows: seq<Row>, od: map<string, nat>, ld: map<string, ListinoEntry>,
                   tc: int, tp: int, tec: int, tep: int, i: nat)
    returns (rs: seq<Row>, od': map<string, nat>, ld': map<string, ListinoEntry>, tc': int, tp': int, tec': int, tep': int)
    requires SessionOk(rows, od, ld, tc, tp, tec, tep) && i < |rows|
    ensures SessionOk(rs, od', ld', tc', tp', tec', tep')
    ensures var r := rows[i];
            && rs == rows[..i] + rows[i + 1..]
            && ld' == (if r.barcode != "" then ld[r.barcode := ListinoEntry(r.id, r.descrizione, r.unitaMin, r.prezzoKg)] else ld)
            && tc' == tc - r.carico && tp' == tp - r.peso
            && tec' == tec - Cost(r.carico, r.prezzoKg) && tep' == tep - Cost(r.peso, r.prezzoKg)
  {
    var r := rows[i];
    rs := rows[..i] + rows[i + 1..];
    RemoveKeepsDistinct(od, rows, i);
    od' := IndexRows(rs);
    RemoveRowOk(rows, od, ld, tc, tp, tec, tep, i, od');
    ld' := if r.barcode != "" then ld[r.barcode := ListinoEntry(r.id, r.descrizione, r.unitaMin, r.prezzoKg)] else ld;
    tc', tp', tec', tep' := tc - r.carico, tp - r.peso, tec - Cost(r.carico, r.prezzoKg), tep - Cost(r.peso, r.prezzoKg);
  }

  /** What load has built after k catalog articles, against the specification functions. */
  predicate LoadSpec(js: seq<Joined>, k: nat, rs: seq<Row>, ld: map<string, ListinoEntry>, dl: seq<ArticleId>) {
    k <= |js| && rs == SessionRows(js[..k]) && ld == ListinoOf(js[..k]) && dl == DeletedOf(js[..k])
  }

  /** Everything load has put in the session comes from catalog[..k]. */
  predicate LoadFrom(cat: seq<Article>, k: nat, rs: seq<Row>, od: map<string, nat>, ld: map<string, ListinoEntry>) {
    k <= |cat|
    && (forall i :: 0 <= i < |rs| ==> rs[i].id in IdsUpTo(cat, k))
    && (forall b :: b in ld ==> ld[b].id in IdsUpTo(cat, k) && b in BarcodesUpTo(cat, k))
    && (forall b :: b in od ==> b in BarcodesUpTo(cat, k))
  }

  /** The joined rows are the catalog's articles, in order. */
  predicate JoinsOf(cat: seq<Article>, js: seq<Joined>) {
    |js| == |cat| && forall i :: 0 <= i < |js| ==> js[i].article == cat[i]
  }

  lemma LoadStart(cat: seq<Article>, js: seq<Joined>)
    ensures LoadSpec(js, 0, [], map[], []) && LoadFrom(cat, 0, [], map[], map[])
    ensures SessionOk([], map[], map[], 0, 0, 0, 0)
  {
    assert js[..0] == [];
  }

  /** An article of catalog[k] is new to the state carried so far. */
  lemma LoadFresh(cat: seq<Article>, rs: seq<Row>, od: map<string, nat>, ld: map<string, ListinoEntry>, k: nat)
    requires k < |cat| && UniqueIds(cat) && UniqueBarcodes(cat) && LoadFrom(cat, k, rs, od, ld)
    ensures forall j :: 0 <= j < |rs| ==> rs[j].id != cat[k].id
    ensures forall b :: b in ld ==> ld[b].id != cat[k].id && (cat[k].barcode != "" ==> b != cat[k].barcode)
    ensures cat[k].barcode != "" ==> cat[k].barcode !in od
  {
  }

  /** catalog[..k + 1] holds what catalog[..k] holds and catalog[k]. */
  lemma UpToStep(cat: seq<Article>, k: nat)
    requires k < |cat|
    ensures IdsUpTo(cat, k + 1) == IdsUpTo(cat, k) + {cat[k].id}
    ensures BarcodesUpTo(cat, k + 1) == BarcodesUpTo(cat, k) + (if cat[k].barcode != "" then {cat[k].barcode} else {})
  {
  }

  lemma LoadFromRow(cat: seq<Article>, k: nat, rs: seq<Row>, od: map<string, nat>, ld: map<string, ListinoEntry>, r: Row)
    requires k < |cat| && LoadFrom(cat, k, rs, od, ld) && r.id == cat[k].id && r.barcode == cat[k].barcode
    ensures LoadFrom(cat, k + 1, rs + [r], if r.barcode != "" then od[r.barcode := |rs|] else od, ld)
  {
    UpToStep(cat, k);
    var rs' := rs + [r];
    assert forall i :: 0 <= i < |rs| ==> rs'[i] == rs[i];
  }

  lemma LoadFromEntry(cat: seq<Article>, k: nat, rs: seq<Row>, od: map<string, nat>, ld: map<string, ListinoEntry>)
    requires k < |cat| && LoadFrom(cat, k, rs, od, ld)
    ensures LoadFrom(cat, k + 1, rs, od, if cat[k].barcode != "" then ld[cat[k].barcode := ToEntry(cat[k])] else ld)
  {
    UpToStep(cat, k);
  }

  lemma LoadSpecStep(js: seq<Joined>, k: nat, rs: seq<Row>, ld: map<string, ListinoEntry>, dl: seq<ArticleId>)
    requires k < |js| && LoadSpec(js, k, rs, ld, dl)
    ensures var j := js[k];
            var a := j.article;
            LoadSpec(js, k + 1,
                     if InSession(j) then rs + [ToRow(j)] else rs,
                     if !InSession(j) && a.barcode != "" then ld[a.barcode := ToEntry(a)] else ld,
                     if j.eliminato then dl + [a.id] else dl)
  {
    assert js[..k + 1][..k] == js[..k];
  }

  /** The invariant of load's loop after k articles. */
  predicate LoadInv(cat: seq<Article>, js: seq<Joined>, k: nat, rs: seq<Row>, od: map<string, nat>,
                    ld: map<string, ListinoEntry>, dl: seq<ArticleId>, tc: int, tp: int, tec: int, tep: int)
  {
    JoinsOf(cat, js) && LoadSpec(js, k, rs, ld, dl) && LoadFrom(cat, k, rs, od, ld) && SessionOk(rs, od, ld, tc, tp, tec, tep)
  }

  /** An article of the session becomes the next row. */
  lemma LoadStepRow(cat: seq<Article>, js: seq<Joined>, k: nat, rs: seq<Row>, od: map<string, nat>,
                    ld: map<string, ListinoEntry>, dl: seq<ArticleId>, tc: int, tp: int, tec: int, tep: int)
    requires UniqueIds(cat) && UniqueBarcodes(cat) && k < |js| && LoadInv(cat, js, k, rs, od, ld, dl, tc, tp, tec, tep)
    requires InSession(js[k])
    ensures var r := ToRow(js[k]);
            LoadInv(cat, js, k + 1, rs + [r], if r.barcode != "" then od[r.barcode := |rs|] else od, ld, dl,
                    tc + r.carico, tp + r.peso, tec + Cost(r.carico, r.prezzoKg), tep + r.costo)
  {
    var r := ToRow(js[k]);
    LoadSpecStep(js, k, rs, ld, dl);
    LoadFresh(cat, rs, od, ld, k);
    LoadFromRow(cat, k, rs, od, ld, r);
    AppendRowOk(rs, od, ld, tc, tp, tec, tep, r);
  }

  /** Any other article goes to listinoDict when it has a barcode, and to deletedList when removed. */
  lemma LoadStepOther(cat: seq<Article>, js: seq<Joined>, k: nat, rs: seq<Row>, od: map<string, nat>,
                      ld: map<string, ListinoEntry>, dl: seq<ArticleId>, tc: int, tp: int, tec: int, tep: int)
    requires UniqueIds(cat) && UniqueBarcodes(cat) && k < |js| && LoadInv(cat, js, k, rs, od, ld, dl, tc, tp, tec, tep)
    requires !InSession(js[k])
    ensures var a := js[k].article;
            LoadInv(cat, js, k + 1, rs, od, if a.barcode != "" then ld[a.barcode := ToEntry(a)] else ld,
                    if js[k].eliminato then dl + [a.id] else dl, tc, tp, tec, tep)
  {
    var a := js[k].article;
    LoadSpecStep(js, k, rs, ld, dl);
    LoadFresh(cat, rs, od, ld, k);
    LoadFromEntry(cat, k, rs, od, ld);
    if a.barcode != "" {
      AddListinoOk(rs, od, ld, tc, tp, tec, tep, a.barcode, ToEntry(a));
    }
  }

  /** The loop of load over the joined catalog: each article becomes a row, a listino entry, a deleted
      mark, or nothing, and the totals follow the rows. */
  method LoadRows(cat: seq<Article>, js: seq<Joined>)
    returns (rs: seq<Row>, od: map<string, nat>, ld: map<string, ListinoEntry>, dl: seq<ArticleId>,
             tc: int, tp: int, tec: int, tep: int)
    requires UniqueIds(cat) && UniqueBarcodes(cat) && JoinsOf(cat, js)
    ensures SessionOk(rs, od, ld, tc, tp, tec, tep)
    ensures rs == SessionRows(js) && ld == ListinoOf(js) && dl == DeletedOf(js)
  {
    rs, od, ld, dl := [], map[], map[], [];
    tc, tp, tec, tep := 0, 0, 0, 0;
    LoadStart(cat, js);
    var k := 0;
    while k < |js|
      invariant LoadInv(cat, js, k, rs, od, ld, dl, tc, tp, tec, tep)
      decreases |js| - k
    {
      rs, od, ld, dl, tc, tp, tec, tep := LoadOne(cat, js, k, rs, od, ld, dl, tc, tp, tec, tep);
      k := k + 1;
    }
    assert js[..k] == js;
  }

  /** One turn of load's loop: the article js[k] becomes a row, a listino entry, a deleted mark, or nothing. */
  method LoadOne(cat: seq<Article>, js: seq<Joined>, k: nat, rs: seq<Row>, od: map<string, nat>,
                 ld: map<string, ListinoEntry>, dl: seq<ArticleId>, tc: int, tp: int, tec: int, tep: int)
    returns (rs': seq<Row>, od': map<string, nat>, ld': map<string, ListinoEntry>, dl': seq<ArticleId>,
             tc': int, tp': int, tec': int, tep': int)
    requires UniqueIds(cat) && UniqueBarcodes(cat) && k < |js| && LoadInv(cat, js, k, rs, od, ld, dl, tc, tp, tec, tep)
    ensures LoadInv(cat, js, k + 1, rs', od', ld', dl', tc', tp', tec', tep')
  {
    var j := js[k];
    var a := j.article;
    rs', od', ld', dl', tc', tp', tec', tep' := rs, od, ld, dl, tc, tp, tec, tep;
    if InSession(j) {
      LoadStepRow(cat, js, k, rs, od, ld, dl, tc, tp, tec, tep);
      var r := ToRow(j);
      tc', tp', tec', tep' := tc + r.carico, tp + r.peso, tec + Cost(r.carico, r.prezzoKg), tep + r.costo;
      od' := if r.barcode != "" then od[r.barcode := |rs|] else od;
      rs' := rs + [r];
    } else {
      LoadStepOther(cat, js, k, rs, od, ld, dl, tc, tp, tec, tep);
      dl' := if j.eliminato then dl + [a.id] else dl;
      ld' := if a.barcode != "" then ld[a.barcode := ToEntry(a)] else ld;
    }
  }

  /** The barcode index of a list of rows, as deleteArticolo rebuilds it. */
  method IndexRows(rs: seq<Row>) returns (d: map<string, nat>)
    requires forall i, j :: 0 <= i < j < |rs| && rs[i].barcode != "" ==> rs[i].barcode != rs[j].barcode
    ensures IndexesRows(d, rs)
  {
    d := map[];
    var k := 0;
    while k < |rs|
      invariant 0 <= k <= |rs|
      invariant forall b :: b in d ==> b != "" && d[b] < k && rs[d[b]].barcode == b
      invariant forall j :: 0 <= j < k && rs[j].barcode != "" ==> rs[j].barcode in d && d[rs[j].barcode] == j
    {
      if rs[k].barcode != "" {
        d := d[rs[k].barcode := k];
      }
      k := k + 1;
    }
  }

  /** A reception session. */
  class Session {
    const idOrdine: OrderId
    var rows: seq<Row>
    var ordineDict: map<string, nat>
    var listinoDict: map<string, ListinoEntry>
    var deletedList: seq<ArticleId>
    var totCarico: int
    var totPeso: int
    var totEuroCarico: int
    var totEuroPeso: int
    var dirty: bool

    predicate Valid()
      reads this
    {
      SessionOk(rows, ordineDict, listinoDict, totCarico, totPeso, totEuroCarico, totEuroPeso)
    }

    /** A session whose loading failed: empty, nothing to save. */
    constructor Empty(order: OrderId)
      ensures idOrdine == order && rows == [] && ordineDict == map[] && listinoDict == map[] && deletedList == []
      ensures !dirty && Valid()
    {
      idOrdine := order;
      rows, ordineDict, listinoDict, deletedList := [], map[], map[], [];
      totCarico, totPeso, totEuroCarico, totEuroPeso := 0, 0, 0, 0;
      dirty := false;
    }

    /** load(): walks the catalog in query order, turning each article into a row, a listino entry, a
        deleted mark, or nothing. */
    constructor Load(order: OrderId, db: Db, resumed: bool)
      requires UniqueIds(db.catalog) && UniqueBarcodes(db.catalog)
      ensures idOrdine == order && !dirty && Valid()
      ensures rows == SessionRows(JoinAll(db, order, resumed))
      ensures listinoDict == ListinoOf(JoinAll(db, order, resumed))
      ensures deletedList == DeletedOf(JoinAll(db, order, resumed))
    {
      idOrdine := order;
      dirty := false;
      var rs, od, ld, dl, tc, tp, tec, tep := LoadRows(db.catalog, JoinAll(db, order, resumed));
      rows, ordineDict, listinoDict, deletedList := rs, od, ld, dl;
      totCarico, totPeso, totEuroCarico, totEuroPeso := tc, tp, tec, tep;
    }

    /** __setValue(row i, value): see SetValueRow; the loaded totals always follow, the ordered totals
        only on a confirmed over-delivery (with the corrected cost update). */
    method SetValue(i: nat, value: nat, confirm: bool)
      requires Valid() && i < |rows|
      modifies this
      ensures Valid()
      ensures rows == old(rows)[i := SetValueRow(old(rows[i]), value, confirm)]
      ensures value <= old(rows[i].peso) ==>
                totPeso == old(totPeso) && totEuroPeso == old(totEuroPeso)
                && totCarico == old(totCarico) - old(rows[i].carico) + value
                && totEuroCarico == old(totEuroCarico) - Cost(old(rows[i].carico), old(rows[i].prezzoKg)) + Cost(value, old(rows[i].prezzoKg))
      ensures value > old(rows[i].peso) && confirm ==>
                totPeso == old(totPeso) - old(rows[i].peso) + value
                && totEuroPeso == OverDeliveryEuroPeso(old(totEuroPeso), old(rows[i]), value)
      ensures dirty == (old(dirty) || value <= old(rows[i].peso) || confirm)
      ensures ordineDict == old(ordineDict) && listinoDict == old(listinoDict) && deletedList == old(deletedList)
    {
      var r := rows[i];
      if value <= r.peso || confirm {
        var r' := SetValueRow(r, value, confirm);
        UpdateRowOk(rows, ordineDict, listinoDict, totCarico, totPeso, totEuroCarico, totEuroPeso, i, r');
        SetState(rows[i := r'], ordineDict, listinoDict, deletedList,
                 totCarico - r.carico + r'.carico, totPeso - r.peso + r'.peso,
                 totEuroCarico - Cost(r.carico, r.prezzoKg) + Cost(r'.carico, r'.prezzoKg),
                 totEuroPeso - r.costo + r'.costo);
        dirty := true;
      }
    }

    /** readDataCallback(data): a barcode of the order adds one minimum unit to the load; a barcode of the
        catalog, confirmed, appends a verified row of one unit and moves the barcode into the order;
        any other barcode changes nothing. */
    method Scan(data: string, confirm: bool)
      requires Valid()
      modifies this
      ensures Valid()
      ensures data in old(ordineDict) ==>
                var i := old(ordineDict[data]);
                var value := old(rows[i].carico + rows[i].unitaMin);
                rows == old(rows)[i := SetValueRow(old(rows[i]), value, confirm)]
                && ordineDict == old(ordineDict) && listinoDict == old(listinoDict)
      ensures data !in old(ordineDict) && data in old(listinoDict) && confirm ==>
                var e := old(listinoDict[data]);
                rows == old(rows) + [Row(e.id, e.descrizione, e.unitaMin, e.unitaMin, Cost(e.unitaMin, e.prezzoKg),
                                         e.unitaMin, true, e.prezzoKg, data)]
                && listinoDict == old(listinoDict) - {data}
                && ordineDict == old(ordineDict)[data := old(|rows|)]
                && totCarico == old(totCarico) + e.unitaMin && totPeso == old(totPeso) + e.unitaMin
                && totEuroCarico == old(totEuroCarico) + Cost(e.unitaMin, e.prezzoKg)
                && totEuroPeso == old(totEuroPeso) + Cost(e.unitaMin, e.prezzoKg)
                && dirty
      ensures data !in old(ordineDict) && (data !in old(listinoDict) || !confirm) ==>
                rows == old(rows) && ordineDict == old(ordineDict) && listinoDict == old(listinoDict)
                && totCarico == old(totCarico) && totPeso == old(totPeso)
                && totEuroCarico == old(totEuroCarico) && totEuroPeso == old(totEuroPeso) && dirty == old(dirty)
      ensures deletedList == old(deletedList)
    {
      if data in ordineDict {
        var i := ordineDict[data];
        SetValue(i, rows[i].carico + rows[i].unitaMin, confirm);
      } else if data in listinoDict {
        if confirm {
          AddScanned(data);
        }
      }
    }

    /** The catalog branch of readDataCallback, confirmed: a verified row of one minimum unit. */
    method AddScanned(data: string)
      requires Valid() && data in listinoDict
      modifies this
      ensures Valid()
      ensures var e := old(listinoDict[data]);
              rows == old(rows) + [Row(e.id, e.descrizione, e.unitaMin, e.unitaMin, Cost(e.unitaMin, e.prezzoKg),
                                       e.unitaMin, true, e.prezzoKg, data)]
              && listinoDict == old(listinoDict) - {data}
              && ordineDict == old(ordineDict)[data := old(|rows|)]
              && totCarico == old(totCarico) + e.unitaMin && totPeso == old(totPeso) + e.unitaMin
              && totEuroCarico == old(totEuroCarico) + Cost(e.unitaMin, e.prezzoKg)
              && totEuroPeso == old(totEuroPeso) + Cost(e.unitaMin, e.prezzoKg)
              && dirty && deletedList == old(deletedList)
    {
      AppendScannedOk(rows, ordineDict, listinoDict, totCarico, totPeso, totEuroCarico, totEuroPeso, data);
      var e := listinoDict[data];
      var costo := Cost(e.unitaMin, e.prezzoKg);
      var r := Row(e.id, e.descrizione, e.unitaMin, e.unitaMin, costo, e.unitaMin, true, e.prezzoKg, data);
      SetState(rows + [r], ordineDict[data := |rows|], listinoDict - {data}, deletedList,
               totCarico + e.unitaMin, totPeso + e.unitaMin, totEuroCarico + costo, totEuroPeso + costo);
      dirty := true;
    }

    /** Replaces the rows, the two dictionaries, the deleted marks and the totals at once. */
    method SetState(rs: seq<Row>, od: map<string, nat>, ld: map<string, ListinoEntry>, dl: seq<ArticleId>,
                    tc: int, tp: int, tec: int, tep: int)
      requires SessionOk(rs, od, ld, tc, tp, tec, tep)
      modifies this`rows, this`ordineDict, this`listinoDict, this`deletedList,
               this`totCarico, this`totPeso, this`totEuroCarico, this`totEuroPeso
      ensures Valid()
      ensures rows == rs && ordineDict == od && listinoDict == ld && deletedList == dl
      ensures totCarico == tc && totPeso == tp && totEuroCarico == tec && totEuroPeso == tep
    {
      rows, ordineDict, listinoDict, deletedList := rs, od, ld, dl;
      totCarico, totPeso, totEuroCarico, totEuroPeso := tc, tp, tec, tep;
    }

    /** deleteArticolo(row i), confirmed: the row leaves the session and every total, its barcode returns
        to listinoDict, its article is marked deleted, and ordineDict is rebuilt over the remaining rows. */
    method Delete(i: nat, confirm: bool)
      requires Valid() && i < |rows|
      modifies this
      ensures Valid()
      ensures !confirm ==>
                rows == old(rows) && ordineDict == old(ordineDict) && listinoDict == old(listinoDict)
                && deletedList == old(deletedList) && dirty == old(dirty)
      ensures confirm ==>
                var r := old(rows[i]);
                rows == old(rows[..i] + rows[i + 1..])
                && deletedList == old(deletedList) + [r.id]
                && listinoDict == (if r.barcode != "" then old(listinoDict)[r.barcode := ListinoEntry(r.id, r.descrizione, r.unitaMin, r.prezzoKg)]
                                   else old(listinoDict))
                && totCarico == old(totCarico) - r.carico && totPeso == old(totPeso) - r.peso
                && totEuroCarico == old(totEuroCarico) - Cost(r.carico, r.prezzoKg)
                && totEuroPeso == old(totEuroPeso) - Cost(r.peso, r.prezzoKg)
                && dirty
    {
      if confirm {
        var r := rows[i];
        var rs, d, ld, tc, tp, tec, tep := RemoveRow(rows, ordineDict, listinoDict, totCarico, totPeso, totEuroCarico, totEuroPeso, i);
        SetState(rs, d, ld, deletedList + [r.id], tc, tp, tec, tep);
        dirty := true;
      }
    }

    /** changePeso(row i), confirmed: the ordered weight becomes the loaded weight, the row's cost follows,
        the row is verified; only the ordered totals move. */
    method ChangePeso(i: nat, confirm: bool)
      requires Valid() && i < |rows|
      modifies this
      ensures Valid()
      ensures confirm ==>
                var r := old(rows[i]);
                rows == old(rows)[i := r.(peso := r.carico, costo := Cost(r.carico, r.prezzoKg), verifica := true)]
                && totPeso == old(totPeso) - r.peso + r.carico
                && totEuroPeso == old(totEuroPeso) - r.costo + Cost(r.carico, r.prezzoKg)
                && totCarico == old(totCarico) && totEuroCarico == old(totEuroCarico) && dirty
      ensures !confirm ==> rows == old(rows) && dirty == old(dirty) && totPeso == old(totPeso) && totEuroPeso == old(totEuroPeso)
      ensures ordineDict == old(ordineDict) && listinoDict == old(listinoDict) && deletedList == old(deletedList)
    {
      if confirm {
        var r := rows[i];
        var r' := r.(peso := r.carico, costo := Cost(r.carico, r.prezzoKg), verifica := true);
        UpdateRowOk(rows, ordineDict, listinoDict, totCarico, totPeso, totEuroCarico, totEuroPeso, i, r');
        dirty := true;
        rows := rows[i := r'];
        totPeso := totPeso - r.peso + r.carico;
        totEuroPeso := totEuroPeso - r.costo + r'.costo;
      }
    }

    /** save(): one transaction that upserts the deleted marks and then every row; on a store error it is
        rolled back and the session stays dirty. */
    method Save(store: Store, fails: bool)
      requires Valid()
      modifies store, this`dirty
      ensures Valid()
      ensures fails ==> store.db == old(store.db) && dirty == old(dirty)
      ensures !fails ==> store.db == old(store.db).(verify := SavedVerify(old(store.db.verify), idOrdine, deletedList, rows))
                         && !dirty
    {
      var v := store.db.verify;
      var k := 0;
      while k < |deletedList|
        invariant 0 <= k <= |deletedList|
        invariant v == MarkDeleted(store.db.verify, idOrdine, deletedList[..k])
      {
        assert deletedList[..k + 1][..k] == deletedList[..k];
        v := v[(deletedList[k], idOrdine) := VerifyRow(0, 0, true)];
        k := k + 1;
      }
      assert deletedList[..k] == deletedList;
      var marked := v;
      k := 0;
      while k < |rows|
        invariant 0 <= k <= |rows|
        invariant v == StoreRows(marked, idOrdine, rows[..k])
      {
        assert rows[..k + 1][..k] == rows[..k];
        v := v[(rows[k].id, idOrdine) := VerifyRow(rows[k].carico, rows[k].peso, false)];
        k := k + 1;
      }
      assert rows[..k] == rows;
      if !fails {
        store.db := store.db.(verify := v);
        dirty := false;
      }
    }

    /** __updateOrdine(): rewrites the order's lines, sets it RICEVUTO and purges its checks, in one
        transaction; a store error rolls it back. */
    method UpdateOrdine(store: Store, fails: bool)
      modifies store, this`dirty
      ensures fails ==> store.db == old(store.db) && dirty == old(dirty)
      ensures !fails ==> store.db == ArchivedDb(old(store.db), idOrdine, deletedList, rows) && !dirty
    {
      if !fails {
        store.db := ArchivedDb(store.db, idOrdine, deletedList, rows);
        dirty := false;
      }
    }

    /** close(): a dirty session closes only if the loss of the checks is confirmed. */
    method Close(confirm: bool) returns (closed: bool)
      ensures closed == (!dirty || confirm)
    {
      closed := !dirty || confirm;
    }

    /** okClose(): save first; then, when every row is verified and the totals agree, archive on
        confirmation; then close. */
    method OkClose(store: Store, saveFails: bool, confirmArchive: bool, updateFails: bool, confirmClose: bool)
      returns (closed: bool)
      requires Valid()
      modifies store, this`dirty
      ensures Valid()
      ensures var saved := if saveFails then old(store.db)
                           else old(store.db).(verify := SavedVerify(old(store.db.verify), idOrdine, deletedList, rows));
              store.db == if AllVerified(rows) && confirmArchive && !updateFails
                          then ArchivedDb(saved, idOrdine, deletedList, rows) else saved
      ensures dirty == (old(dirty) && saveFails && !(AllVerified(rows) && confirmArchive && !updateFails))
      ensures closed == (!dirty || confirmClose)
      ensures !saveFails ==> closed
    {
      Save(store, saveFails);
      var allVerified := true;
      var k := 0;
      while k < |rows|
        invariant 0 <= k <= |rows|
        invariant allVerified == forall j :: 0 <= j < k ==> rows[j].verifica
      {
        if !rows[k].verifica {
          allVerified := false;
          break;
        }
        k := k + 1;
      }
      assert allVerified == AllVerified(rows);
      ArchiveGateIffVerified(rows);
      if allVerified && totCarico == totPeso && RoundCents(totEuroCarico) == RoundCents(totEuroPeso) {
        if confirmArchive {
          UpdateOrdine(store, updateFails);
        }
      }
      closed := Close(confirmClose);
    }
  }

  /** Opening a reception: the first time, the check rows are seeded and committed before the load;
      if that commit fails the session is empty. */
  method Open(store: Store, order: OrderId, fails: bool) returns (s: Session)
    requires UniqueIds(store.db.catalog) && UniqueBarcodes(store.db.catalog)
    modifies store
    ensures fresh(s) && s.Valid() && s.idOrdine == order && !s.dirty
    ensures var resumed := Resumed(old(store.db), order);
            if resumed then store.db == old(store.db) && s.rows == SessionRows(JoinAll(old(store.db), order, true))
            else if fails then store.db == old(store.db) && s.rows == []
            else store.db == old(store.db).(verify := old(store.db.verify) + Seeded(old(store.db), order))
                 && s.rows == SessionRows(JoinAll(old(store.db), order, false))
  {
    if Resumed(store.db, order) {
      s := new Session.Load(order, store.db, true);
    } else if fails {
      s := new Session.Empty(order);
    } else {
      var before := store.db;
      store.db := store.db.(verify := store.db.verify + Seeded(store.db, order));
      s := new Session.Load(order, before, false);
    }
  }
}
