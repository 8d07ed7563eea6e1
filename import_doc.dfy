/** Importing an order or an invoice from the supplier's portal (MainApplication.importLogistaDoc,
    tabacchi/main.py:2094-2206). The document gives a delivery date (levata), an order date and its rows;
    the order with that delivery date is overwritten on confirmation, or a new order is inserted; then a
    line is inserted for each row, with a stock estimated from the orders just before and just after the
    order date. The three queries run on the database as it was before the import and are given here as
    the orders they select; the document's parsing is not part of this model. */
module Import {
  import opened Wrappers
  import opened Calendar
  import opened Store

  /** A row of the document: article, description, weight in grams and price per kilogram. */
  datatype DocRow = DocRow(id: ArticleId, descrizione: string, peso: int, costo: int)

  datatype Doc = Doc(levata: Day, dataOrdine: Instant, invoice: bool, rows: seq<DocRow>)

  /** The state the imported order gets: an invoice means received, an order confirmation means sent. */
  function StatoOf(doc: Doc): (s: int)
    ensures s == RICEVUTO <==> doc.invoice
    ensures s == INVIATO <==> !doc.invoice
  {
    if doc.invoice then RICEVUTO else INVIATO
  }

  /** "SELECT ID from ordineTabacchi where Levata = ?": the order with that delivery date. */
  predicate ExistingOf(orders: map<OrderId, OrderHeader>, levata: Day, existing: Option<OrderId>) {
    match existing
    case None => forall o :: o in orders ==> orders[o].levata != levata
    case Some(id) => id in orders && orders[id].levata == levata
  }

  /** Since Levata is UNIQUE, the query's answer is determined by the orders. */
  lemma ExistingDetermined(orders: map<OrderId, OrderHeader>, levata: Day, a: Option<OrderId>, b: Option<OrderId>)
    requires UniqueLevatas(orders) && ExistingOf(orders, levata, a) && ExistingOf(orders, levata, b)
    ensures a == b
  {
  }

  /** The order with the latest date before data, if any (Data is UNIQUE). */
  predicate PrevOf(orders: map<OrderId, OrderHeader>, data: Instant, prec: Option<OrderId>) {
    match prec
    case None => forall o :: o in orders ==> orders[o].data >= data
    case Some(id) =>
      id in orders && orders[id].data < data
      && forall o :: o in orders && orders[o].data < data ==> orders[o].data <= orders[id].data
  }

  /** The order with the earliest date after data, if any. */
  predicate NextOf(orders: map<OrderId, OrderHeader>, data: Instant, succ: Option<OrderId>) {
    match succ
    case None => forall o :: o in orders ==> orders[o].data <= data
    case Some(id) =>
      id in orders && orders[id].data > data
      && forall o :: o in orders && orders[o].data > data ==> orders[o].data >= orders[id].data
  }

  /** The articles of an order. */
  function ArticlesOf(lines: map<LineKey, OrderLine>, order: Option<OrderId>): set<ArticleId> {
    if order.None? then {} else set k | k in lines && k.1 == order.value :: k.0
  }

  /** The level an order left for each of its articles: Ordine + Giacenza. */
  function LevelsOf(lines: map<LineKey, OrderLine>, order: Option<OrderId>): (m: map<ArticleId, int>)
    ensures m.Keys == ArticlesOf(lines, order)
    ensures order.Some? ==>
              forall a :: a in m ==>
                (a, order.value) in lines && m[a] == lines[(a, order.value)].ordine + lines[(a, order.value)].giacenza
  {
    if order.None? then map[]
    else
      var o := order.value;
      map a | a in ArticlesOf(lines, order) :: assert (a, o) in lines; lines[(a, o)].ordine + lines[(a, o)].giacenza
  }

  /** "SELECT ID, LivelloMin FROM tabacchi" into a dictionary. */
  function CatalogLevels(catalog: seq<Article>): (m: map<ArticleId, int>)
    ensures forall a :: a in m <==> InCatalog(catalog, a)
  {
    if |catalog| == 0 then map[]
    else
      var init := catalog[..|catalog| - 1];
      var last := catalog[|catalog| - 1];
      var m := CatalogLevels(init);
      assert forall a :: InCatalog(catalog, a) <==> InCatalog(init, a) || a == last.id by {
        forall a | InCatalog(init, a)
          ensures InCatalog(catalog, a)
        {
          var i :| 0 <= i < |init| && init[i].id == a;
          assert catalog[i] == init[i];
        }
      }
      m[last.id := last.livelloMin]
  }

  /** The three dictionaries the estimate reads. */
  datatype Levels = Levels(prec: map<ArticleId, int>, succ: map<ArticleId, int>, cur: map<ArticleId, int>)

  function LevelsFor(db: Db, prec: Option<OrderId>, succ: Option<OrderId>): Levels {
    Levels(LevelsOf(db.lines, prec), LevelsOf(db.lines, succ), CatalogLevels(db.catalog))
  }

  /** The level the estimate aims at: the lower of the two neighbours' when both have the article,
      the catalog's minimum level otherwise (a KeyError when the catalog lacks it). */
  function Level(lv: Levels, id: ArticleId): Result<int> {
    if id in lv.prec && id in lv.succ then Ok(if lv.prec[id] < lv.succ[id] then lv.prec[id] else lv.succ[id])
    else if id in lv.cur then Ok(lv.cur[id])
    else Err(KeyError(id))
  }

  /** The stock estimated for an imported row: what the level leaves after the imported weight, never
      negative; nothing when either neighbouring order has no line. */
  function Estimate(lv: Levels, row: DocRow): (r: Result<int>)
    ensures |lv.prec| == 0 || |lv.succ| == 0 ==> r == Ok(0)
    ensures |lv.prec| > 0 && |lv.succ| > 0 ==> (r.Err? <==> Level(lv, row.id).Err?)
    ensures r.Ok? ==> r.value >= 0
    ensures r.Ok? && |lv.prec| > 0 && |lv.succ| > 0 ==>
              r.value + row.peso >= Level(lv, row.id).value && (r.value == 0 || r.value + row.peso == Level(lv, row.id).value)
  {
    if |lv.prec| == 0 || |lv.succ| == 0 then Ok(0)
    else
      match Level(lv, row.id)
      case Err(e) => Err(e)
      case Ok(livello) => var q := livello - row.peso; Ok(if q < 0 then 0 else q)
  }

  /** With both neighbours known, the estimate never exceeds what either of them left after the weight. */
  lemma EstimateBelowNeighbours(lv: Levels, row: DocRow)
    requires |lv.prec| > 0 && |lv.succ| > 0 && row.id in lv.prec && row.id in lv.succ
    ensures Estimate(lv, row).Ok?
    ensures var q := Estimate(lv, row).value;
            (q == 0 || q <= lv.prec[row.id] - row.peso) && (q == 0 || q <= lv.succ[row.id] - row.peso)
  {
  }

  /** The line an imported row becomes: ordered weight, price, estimated stock, no consumption. */
  function LineOf(row: DocRow, giacenza: int): OrderLine {
    OrderLine(row.descrizione, row.peso, row.costo, giacenza, 0)
  }

  /** The insert loop from row 0 on: the first KeyError of the estimate, or the first key already
      present (the table's key is (ID, ID_Ordine)), stops it. */
  function InsertRows(lines: map<LineKey, OrderLine>, rows: seq<DocRow>, order: OrderId, lv: Levels): Result<map<LineKey, OrderLine>>
    decreases |rows|
  {
    if |rows| == 0 then Ok(lines)
    else
      match Estimate(lv, rows[0])
      case Err(e) => Err(e)
      case Ok(q) =>
        if (rows[0].id, order) in lines then Err(StoreError)
        else InsertRows(lines[(rows[0].id, order) := LineOf(rows[0], q)], rows[1..], order, lv)
  }

  predicate DistinctIds(rows: seq<DocRow>) {
    forall i, j :: 0 <= i < j < |rows| ==> rows[i].id != rows[j].id
  }

  /** Every row can be inserted: its estimate can be made, its line does not exist yet and no other row
      names the same article. */
  predicate Insertable(lines: map<LineKey, OrderLine>, rows: seq<DocRow>, order: OrderId, lv: Levels) {
    (forall k :: 0 <= k < |rows| ==> Estimate(lv, rows[k]).Ok? && (rows[k].id, order) !in lines)
    && DistinctIds(rows)
  }

  /** key is the line of one of the rows. */
  predicate RowKey(rows: seq<DocRow>, order: OrderId, key: LineKey) {
    exists k :: 0 <= k < |rows| && key == (rows[k].id, order)
  }

  /** The loop runs to the end exactly when every row can be inserted. */
  lemma {:induction false} InsertRowsOk(lines: map<LineKey, OrderLine>, rows: seq<DocRow>, order: OrderId, lv: Levels)
    ensures InsertRows(lines, rows, order, lv).Ok? <==> Insertable(lines, rows, order, lv)
    decreases |rows|
  {
    if |rows| > 0 {
      var r := rows[0];
      var tail := rows[1..];
      assert forall k :: 0 <= k < |tail| ==> tail[k] == rows[k + 1];
      if Estimate(lv, r).Ok? {
        var lines' := lines[(r.id, order) := LineOf(r, Estimate(lv, r).value)];
        InsertRowsOk(lines', tail, order, lv);
        if (r.id, order) !in lines && Insertable(lines', tail, order, lv) {
          forall i, j | 0 <= i < j < |rows|
            ensures rows[i].id != rows[j].id
          {
            if i > 0 {
              assert tail[i - 1].id != tail[j - 1].id;
            } else {
              assert (tail[j - 1].id, order) !in lines';
            }
          }
        }
        if Insertable(lines, rows, order, lv) {
          forall k | 0 <= k < |tail|
            ensures (tail[k].id, order) !in lines'
          {
            assert rows[0].id != rows[k + 1].id;
          }
        }
      }
    }
  }

  /** A completed loop adds one line per row, holding the row's weight, price and estimate, and keeps every
      line that was there. */
  lemma {:induction false} InsertRowsLines(lines: map<LineKey, OrderLine>, rows: seq<DocRow>, order: OrderId, lv: Levels)
    requires InsertRows(lines, rows, order, lv).Ok?
    ensures var m := InsertRows(lines, rows, order, lv).value;
            (forall key :: key in m <==> key in lines || RowKey(rows, order, key))
            && (forall key :: key in lines ==> m[key] == lines[key])
            && (forall k :: 0 <= k < |rows| ==>
                  var key := (rows[k].id, order);
                  key in m && Estimate(lv, rows[k]) == Ok(m[key].giacenza) && m[key] == LineOf(rows[k], m[key].giacenza))
    decreases |rows|
  {
    if |rows| > 0 {
      var r := rows[0];
      var tail := rows[1..];
      var q := Estimate(lv, r).value;
      var lines' := lines[(r.id, order) := LineOf(r, q)];
      InsertRowsLines(lines', tail, order, lv);
      var m := InsertRows(lines, rows, order, lv).value;
      assert m == InsertRows(lines', tail, order, lv).value;
      forall key | key in m
        ensures key in lines || RowKey(rows, order, key)
      {
        if key !in lines && key != (r.id, order) {
          var k :| 0 <= k < |tail| && key == (tail[k].id, order);
          assert key == (rows[k + 1].id, order);
        }
      }
      forall key | RowKey(rows, order, key)
        ensures key in m
      {
        var k :| 0 <= k < |rows| && key == (rows[k].id, order);
        if k > 0 {
          assert key == (tail[k - 1].id, order);
        }
      }
      forall k | 0 <= k < |rows|
        ensures var key := (rows[k].id, order);
                key in m && Estimate(lv, rows[k]) == Ok(m[key].giacenza) && m[key] == LineOf(rows[k], m[key].giacenza)
      {
        if k > 0 {
          assert rows[k] == tail[k - 1];
        }
      }
    }
  }

  /** What the import does, on the database as it was: the order it writes, or None when the user keeps the
      existing order; an error leaves the database as it was (rollback, or no commit after a KeyError).
      newId is the id sqlite gives a new order. */
  function Imported(db: Db, doc: Doc, existing: Option<OrderId>, prec: Option<OrderId>, succ: Option<OrderId>,
                    newId: OrderId, confirm: bool): Result<(Db, Option<OrderId>)>
  {
    if existing.Some? && !confirm then Ok((db, None))
    else
      var id := TargetId(existing, newId);
      if DateTaken(db, id, doc.dataOrdine) then Err(StoreError)
      else
        match InsertRows(LinesBefore(db, existing, newId), doc.rows, id, LevelsFor(db, prec, succ))
        case Err(e) => Err(e)
        case Ok(lines') => Ok((db.(orders := db.orders[id := HeaderOf(db, doc, existing, newId)], lines := lines'), Some(id)))
  }

  /** The order the import writes: the existing one, or a new one. */
  function TargetId(existing: Option<OrderId>, newId: OrderId): OrderId {
    if existing.Some? then existing.value else newId
  }

  /** Another order already has that date (Data is UNIQUE). */
  predicate DateTaken(db: Db, id: OrderId, data: Instant) {
    exists o :: o in db.orders && o != id && db.orders[o].data == data
  }

  /** The lines before the rows are inserted: an overwritten order loses all of its lines first. */
  function LinesBefore(db: Db, existing: Option<OrderId>, newId: OrderId): map<LineKey, OrderLine> {
    if existing.Some? then DropOrder(db.lines, existing.value) else db.lines
  }

  /** The header written: an overwritten order gets the new date, state and delivery date and keeps its
      other columns; a new one takes the table's defaults for them. */
  function HeaderOf(db: Db, doc: Doc, existing: Option<OrderId>, newId: OrderId): OrderHeader {
    if existing.Some? && existing.value in db.orders
    then db.orders[existing.value].(data := doc.dataOrdine, stato := StatoOf(doc), levata := doc.levata)
    else OrderHeader(doc.dataOrdine, doc.levata, StatoOf(doc), ORDINARIO, None, 0)
  }

  /** Every line refers to an order (the foreign key on ID_Ordine). */
  predicate LinesHaveOrders(db: Db) {
    forall k :: k in db.lines ==> k.1 in db.orders
  }

  /** No line of the target order is left before the rows are inserted. */
  lemma TargetEmpty(db: Db, existing: Option<OrderId>, newId: OrderId)
    requires newId !in db.orders && LinesHaveOrders(db)
    ensures forall key :: key in LinesBefore(db, existing, newId) ==> key.1 != TargetId(existing, newId)
    ensures forall key :: key in db.lines && key.1 != TargetId(existing, newId) ==>
              key in LinesBefore(db, existing, newId) && LinesBefore(db, existing, newId)[key] == db.lines[key]
  {
  }

  /** Keeping the existing order changes nothing. */
  lemma ImportCancelled(db: Db, doc: Doc, existing: Option<OrderId>, prec: Option<OrderId>, succ: Option<OrderId>,
                        newId: OrderId)
    requires existing.Some?
    ensures Imported(db, doc, existing, prec, succ, newId, false) == Ok((db, None))
  {
  }

  /** A completed import: the order holds the document's date, delivery date and state, its lines are
      exactly the document's rows with their estimates, and every other order and line is kept. */
  lemma ImportedSpec(db: Db, doc: Doc, existing: Option<OrderId>, prec: Option<OrderId>, succ: Option<OrderId>,
                     newId: OrderId, confirm: bool, db': Db, id: OrderId)
    requires ExistingOf(db.orders, doc.levata, existing) && newId !in db.orders && LinesHaveOrders(db)
    requires Imported(db, doc, existing, prec, succ, newId, confirm) == Ok((db', Some(id)))
    ensures existing.None? || confirm
    ensures id == TargetId(existing, newId) && id in db'.orders
    ensures db'.orders[id].data == doc.dataOrdine && db'.orders[id].levata == doc.levata
    ensures db'.orders[id].stato == StatoOf(doc)
    ensures forall o :: o in db.orders && o != id ==> o in db'.orders && db'.orders[o] == db.orders[o]
    ensures LinesWritten(db.lines, db'.lines, doc.rows, LevelsFor(db, prec, succ), id)
    ensures db'.catalog == db.catalog && db'.verify == db.verify && db'.suppletivo == db.suppletivo
  {
    ImportedWrites(db, doc, existing, prec, succ, newId, confirm, db', id);
    WrittenHeader(db, doc, existing, newId);
    WrittenLines(db, existing, newId, doc.rows, LevelsFor(db, prec, succ));
  }

  /** The header written carries the document's date, delivery date and state. */
  lemma WrittenHeader(db: Db, doc: Doc, existing: Option<OrderId>, newId: OrderId)
    requires ExistingOf(db.orders, doc.levata, existing)
    ensures var h := HeaderOf(db, doc, existing, newId);
            h.data == doc.dataOrdine && h.levata == doc.levata && h.stato == StatoOf(doc)
  {
  }

  /** The lines after an import into order id: one per row, holding the row's weight, price and estimate;
      no other line of that order; and every line of another order as it was. */
  predicate LinesWritten(lines: map<LineKey, OrderLine>, lines': map<LineKey, OrderLine>, rows: seq<DocRow>,
                         lv: Levels, id: OrderId)
  {
    (forall k :: 0 <= k < |rows| ==>
       var key := (rows[k].id, id);
       key in lines' && Estimate(lv, rows[k]) == Ok(lines'[key].giacenza) && lines'[key] == LineOf(rows[k], lines'[key].giacenza))
    && (forall key :: key in lines' && key.1 == id ==> RowKey(rows, id, key))
    && (forall key :: key in lines && key.1 != id ==> key in lines' && lines'[key] == lines[key])
  }

  /** The lines of a completed loop: one per row for the target order, and every line of another order. */
  lemma WrittenLines(db: Db, existing: Option<OrderId>, newId: OrderId, rows: seq<DocRow>, lv: Levels)
    requires newId !in db.orders && LinesHaveOrders(db)
    requires InsertRows(LinesBefore(db, existing, newId), rows, TargetId(existing, newId), lv).Ok?
    ensures var id := TargetId(existing, newId);
            LinesWritten(db.lines, InsertRows(LinesBefore(db, existing, newId), rows, id, lv).value, rows, lv, id)
  {
    var before := LinesBefore(db, existing, newId);
    TargetEmpty(db, existing, newId);
    InsertRowsLines(before, rows, TargetId(existing, newId), lv);
  }

  /** A completed import writes the header and the lines the loop produced, under the target id. */
  lemma ImportedWrites(db: Db, doc: Doc, existing: Option<OrderId>, prec: Option<OrderId>, succ: Option<OrderId>,
                       newId: OrderId, confirm: bool, db': Db, id: OrderId)
    requires Imported(db, doc, existing, prec, succ, newId, confirm) == Ok((db', Some(id)))
    ensures existing.None? || confirm
    ensures id == TargetId(existing, newId)
    ensures !DateTaken(db, id, doc.dataOrdine)
    ensures var inserted := InsertRows(LinesBefore(db, existing, newId), doc.rows, id, LevelsFor(db, prec, succ));
            inserted.Ok? && db' == db.(orders := db.orders[id := HeaderOf(db, doc, existing, newId)], lines := inserted.value)
  {
  }

  /** Writing the header into the target order keeps the UNIQUE (Data) and UNIQUE (Levata) constraints
      when no other order has the document's date: the levata is either new or the overwritten order's
      own. */
  lemma HeaderKeepsUnique(db: Db, doc: Doc, existing: Option<OrderId>, newId: OrderId)
    requires UniqueDates(db.orders) && UniqueLevatas(db.orders)
    requires ExistingOf(db.orders, doc.levata, existing) && newId !in db.orders
    requires !DateTaken(db, TargetId(existing, newId), doc.dataOrdine)
    ensures var orders := db.orders[TargetId(existing, newId) := HeaderOf(db, doc, existing, newId)];
            UniqueDates(orders) && UniqueLevatas(orders)
  {
    var h := HeaderOf(db, doc, existing, newId);
    assert h.data == doc.dataOrdine && h.levata == doc.levata;
    WriteKeepsUnique(db.orders, TargetId(existing, newId), h);
  }

  /** A completed import keeps order dates and delivery dates unique. */
  lemma ImportedKeepsUnique(db: Db, doc: Doc, existing: Option<OrderId>, prec: Option<OrderId>, succ: Option<OrderId>,
                            newId: OrderId, confirm: bool, db': Db, id: OrderId)
    requires UniqueDates(db.orders) && UniqueLevatas(db.orders)
    requires ExistingOf(db.orders, doc.levata, existing) && newId !in db.orders
    requires Imported(db, doc, existing, prec, succ, newId, confirm) == Ok((db', Some(id)))
    ensures UniqueDates(db'.orders) && UniqueLevatas(db'.orders)
  {
    ImportedWrites(db, doc, existing, prec, succ, newId, confirm, db', id);
    HeaderKeepsUnique(db, doc, existing, newId);
  }

  /** When the import fails: it fails exactly when it writes and another order has the document's date,
      a row's estimate cannot be made or an article appears twice in the document. */
  lemma ImportedFails(db: Db, doc: Doc, existing: Option<OrderId>, prec: Option<OrderId>, succ: Option<OrderId>,
                      newId: OrderId, confirm: bool)
    requires ExistingOf(db.orders, doc.levata, existing) && newId !in db.orders && LinesHaveOrders(db)
    ensures Imported(db, doc, existing, prec, succ, newId, confirm).Err? <==>
              (existing.None? || confirm)
              && (DateTaken(db, TargetId(existing, newId), doc.dataOrdine)
                  || (exists k :: 0 <= k < |doc.rows| && Estimate(LevelsFor(db, prec, succ), doc.rows[k]).Err?)
                  || !DistinctIds(doc.rows))
  {
    TargetEmpty(db, existing, newId);
    InsertRowsOk(LinesBefore(db, existing, newId), doc.rows, TargetId(existing, newId), LevelsFor(db, prec, succ));
  }

  /** A KeyError means some row needed the catalog's level of an article the catalog lacks. */
  lemma ImportedKeyError(db: Db, doc: Doc, existing: Option<OrderId>, prec: Option<OrderId>, succ: Option<OrderId>,
                         newId: OrderId, confirm: bool)
    requires Imported(db, doc, existing, prec, succ, newId, confirm).Err?
    requires Imported(db, doc, existing, prec, succ, newId, confirm).error.KeyError?
    ensures exists k :: 0 <= k < |doc.rows| && !InCatalog(db.catalog, doc.rows[k].id)
  {
    var lv := LevelsFor(db, prec, succ);
    var res := InsertRows(LinesBefore(db, existing, newId), doc.rows, TargetId(existing, newId), lv);
    // A date clash is a StoreError and keeping the order is no error, so the KeyError is the loop's.
    assert res.Err? && res.error.KeyError?;
    InsertRowsKeyError(LinesBefore(db, existing, newId), doc.rows, TargetId(existing, newId), lv);
    var k :| 0 <= k < |doc.rows| && doc.rows[k].id !in lv.cur;
    var cur := CatalogLevels(db.catalog);
    assert lv.cur == cur;
    assert doc.rows[k].id !in cur;
  }

  /** A KeyError of the loop comes from a row whose article is not in the catalog. */
  lemma {:induction false} InsertRowsKeyError(lines: map<LineKey, OrderLine>, rows: seq<DocRow>, order: OrderId, lv: Levels)
    requires InsertRows(lines, rows, order, lv).Err? && InsertRows(lines, rows, order, lv).error.KeyError?
    ensures exists k :: 0 <= k < |rows| && rows[k].id !in lv.cur
    decreases |rows|
  {
    var r := rows[0];
    if Estimate(lv, r).Ok? {
      var lines' := lines[(r.id, order) := LineOf(r, Estimate(lv, r).value)];
      InsertRowsKeyError(lines', rows[1..], order, lv);
      var k :| 0 <= k < |rows[1..]| && rows[1..][k].id !in lv.cur;
      assert rows[k + 1].id !in lv.cur;
    } else {
      assert r.id !in lv.cur;
    }
  }

  /** The insert loop of importLogistaDoc: one estimate and one new line per row, stopping at the first
      KeyError or the first line already present. */
  method InsertLines(lines: map<LineKey, OrderLine>, rows: seq<DocRow>, order: OrderId, lv: Levels)
    returns (r: Result<map<LineKey, OrderLine>>)
    ensures r == InsertRows(lines, rows, order, lv)
  {
    var acc := lines;
    var k := 0;
    while k < |rows|
      invariant k <= |rows|
      invariant InsertRows(lines, rows, order, lv) == InsertRows(acc, rows[k..], order, lv)
    {
      var row := rows[k];
      ghost var rest := rows[k..];
      assert rest[0] == row && rest[1..] == rows[k + 1..];
      var q := Estimate(lv, row);
      if q.Err? {
        assert InsertRows(acc, rest, order, lv) == Err(q.error);
        return Err(q.error);
      }
      if (row.id, order) in acc {
        assert InsertRows(acc, rest, order, lv) == Err(StoreError);
        return Err(StoreError);
      }
      assert InsertRows(acc, rest, order, lv) == InsertRows(acc[(row.id, order) := LineOf(row, q.value)], rows[k + 1..], order, lv);
      acc := acc[(row.id, order) := LineOf(row, q.value)];
      k := k + 1;
    }
    assert rows[k..] == [];
    return Ok(acc);
  }

  /** importLogistaDoc's database part, with the user's answer to "overwrite?" as confirm: it does what
      Imported says, and an error leaves the database untouched. */
  method ImportDoc(store: Store, doc: Doc, existing: Option<OrderId>, prec: Option<OrderId>, succ: Option<OrderId>,
                   newId: OrderId, confirm: bool) returns (r: Result<Option<OrderId>>)
    requires ExistingOf(store.db.orders, doc.levata, existing)
    requires PrevOf(store.db.orders, doc.dataOrdine, prec) && NextOf(store.db.orders, doc.dataOrdine, succ)
    requires newId !in store.db.orders
    modifies store
    ensures var spec := Imported(old(store.db), doc, existing, prec, succ, newId, confirm);
            (spec.Err? ==> r == Err(spec.error) && store.db == old(store.db))
            && (spec.Ok? ==> r == Ok(spec.value.1) && store.db == spec.value.0)
    ensures UniqueDates(old(store.db.orders)) && UniqueLevatas(old(store.db.orders)) ==>
              UniqueDates(store.db.orders) && UniqueLevatas(store.db.orders)
  {
    var db := store.db;
    var lv := LevelsFor(db, prec, succ);
    ghost var spec := Imported(db, doc, existing, prec, succ, newId, confirm);
    if existing.Some? && !confirm {
      assert spec == Ok((db, None));
      return Ok(None);
    }
    var id := TargetId(existing, newId);
    var header := HeaderOf(db, doc, existing, newId);
    if exists o :: o in db.orders && o != id && db.orders[o].data == doc.dataOrdine {
      assert DateTaken(db, id, doc.dataOrdine) && spec == Err(StoreError);
      return Err(StoreError);
    }
    assert !DateTaken(db, id, doc.dataOrdine);
    var inserted := InsertLines(LinesBefore(db, existing, newId), doc.rows, id, lv);
    if inserted.Err? {
      assert spec == Err(inserted.error);
      return Err(inserted.error);
    }
    var lines := inserted.value;
    assert spec == Ok((db.(orders := db.orders[id := header], lines := lines), Some(id)));
    if UniqueDates(db.orders) && UniqueLevatas(db.orders) {
      HeaderKeepsUnique(db, doc, existing, newId);
    }
    store.db := db.(orders := db.orders[id := header], lines := lines);
    r := Ok(Some(id));
  }
}
