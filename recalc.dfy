/** Recomputing every consumption (RicalcolaConsumiThread, tabacchi/main.py:815-856). The query returns the
    order lines joined with their orders, sorted by article and then by order; walking them, the
    consumption of a line is what the previous line of the same article left in stock (its counted stock
    plus its order) minus the stock counted now, and the first line of an article starts from nothing.
    All updates are one transaction: committed at the end, rolled back on a stop or a database error. */
module Recalc {
  import opened Wrappers
  import opened Store
  import opened Worker
  import OrderEntry

  /** A query row: r.ID, r.Ordine, r.Giacenza, r.ID_Ordine. */
  datatype Rec = Rec(id: ArticleId, ordine: int, giacenza: int, idOrdine: OrderId)

  function KeyOf(r: Rec): LineKey { (r.id, r.idOrdine) }

  /** The rows are what the query returns from db: one per order line whose order exists. */
  predicate QueryOf(db: Db, recs: seq<Rec>) {
    forall k :: 0 <= k < |recs| ==>
      KeyOf(recs[k]) in db.lines && recs[k].idOrdine in db.orders
      && db.lines[KeyOf(recs[k])].ordine == recs[k].ordine
      && db.lines[KeyOf(recs[k])].giacenza == recs[k].giacenza
  }

  /** What "order by r.ID, r.ID_Ordine" guarantees: the rows of an article are contiguous and in order. */
  predicate Grouped(recs: seq<Rec>) {
    forall i, j :: 0 <= i < j < |recs| && recs[i].id == recs[j].id ==>
      recs[j - 1].id == recs[j].id && recs[i].idOrdine < recs[j].idOrdine
  }

  /** The carry at row k: the previous row when it is of the same article, as an ordinePrecDict. */
  function CarryAt(recs: seq<Rec>, k: nat): map<ArticleId, OrderEntry.Precedent>
    requires k < |recs|
  {
    if k > 0 && recs[k - 1].id == recs[k].id
    then map[recs[k].id := OrderEntry.Precedent(recs[k - 1].giacenza, recs[k - 1].ordine)]
    else map[]
  }

  /** The consumption the loop writes for row k. */
  function ConsumoAt(recs: seq<Rec>, k: nat): int
    requires k < |recs|
  {
    var carry := if k > 0 && recs[k - 1].id == recs[k].id then recs[k - 1].giacenza + recs[k - 1].ordine else 0;
    carry - recs[k].giacenza
  }

  /** The recomputation agrees with the order editor's __calcolaConsumo, given the carried row as the
      previous order; on sorted rows that row is the article's latest earlier order, and the first row of
      an article has none. */
  lemma ConsumoIsEditorConsumo(recs: seq<Rec>, k: nat)
    requires k < |recs| && Grouped(recs)
    ensures ConsumoAt(recs, k) == OrderEntry.Consumo(CarryAt(recs, k), recs[k].id, recs[k].giacenza)
    ensures k > 0 && recs[k - 1].id == recs[k].id ==>
      recs[k - 1].idOrdine < recs[k].idOrdine
      && forall j :: 0 <= j < k && recs[j].id == recs[k].id ==> recs[j].idOrdine <= recs[k - 1].idOrdine
    ensures !(k > 0 && recs[k - 1].id == recs[k].id) ==>
      ConsumoAt(recs, k) == -recs[k].giacenza && forall j :: 0 <= j < k ==> recs[j].id != recs[k].id
  {
    if k > 0 && recs[k - 1].id == recs[k].id {
      forall j | 0 <= j < k && recs[j].id == recs[k].id
        ensures recs[j].idOrdine <= recs[k - 1].idOrdine
      {
        if j < k - 1 {
          assert recs[j].id == recs[k - 1].id;
        }
      }
    }
  }

  /** The order lines after the updates of the first n rows. An update of a missing key changes nothing. */
  function Applied(lines: map<LineKey, OrderLine>, recs: seq<Rec>, n: nat): map<LineKey, OrderLine>
    requires n <= |recs|
  {
    if n == 0 then lines
    else
      var m := Applied(lines, recs, n - 1);
      var key := KeyOf(recs[n - 1]);
      if key in m then m[key := m[key].(consumo := ConsumoAt(recs, n - 1))] else m
  }

  /** Only the consumption of the lines the rows name changes, and it becomes that of the last row naming
      the line; every other line, and every other field, is kept. */
  lemma {:induction false} AppliedSpec(lines: map<LineKey, OrderLine>, recs: seq<Rec>, n: nat)
    requires n <= |recs|
    ensures Applied(lines, recs, n).Keys == lines.Keys
    ensures forall key :: key in lines ==>
      Applied(lines, recs, n)[key] == lines[key].(consumo := Applied(lines, recs, n)[key].consumo)
    ensures forall key :: key in lines && (forall k :: 0 <= k < n ==> KeyOf(recs[k]) != key) ==>
      Applied(lines, recs, n)[key] == lines[key]
    ensures forall k :: 0 <= k < n && KeyOf(recs[k]) in lines
                        && (forall j :: k < j < n ==> KeyOf(recs[j]) != KeyOf(recs[k])) ==>
      Applied(lines, recs, n)[KeyOf(recs[k])].consumo == ConsumoAt(recs, k)
  {
    if n > 0 {
      AppliedSpec(lines, recs, n - 1);
    }
  }

  /** On the query's rows (keys are distinct, as the table's key is (ID, ID_Ordine)), every line of an
      existing order gets the consumption of its own row. */
  lemma RecalcEveryLine(db: Db, recs: seq<Rec>, k: nat)
    requires QueryOf(db, recs) && Grouped(recs) && k < |recs|
    ensures var m := Applied(db.lines, recs, |recs|);
            KeyOf(recs[k]) in m && m[KeyOf(recs[k])].consumo == ConsumoAt(recs, k)
  {
    AppliedSpec(db.lines, recs, |recs|);
    forall j | k < j < |recs|
      ensures KeyOf(recs[j]) != KeyOf(recs[k])
    {
      if recs[j].id == recs[k].id {
        assert recs[k].idOrdine < recs[j].idOrdine;
      }
    }
  }

  /** Three orders of one article, counted 10, 8, 9 and ordered 5, 6, 4: the first cycle has no
      predecessor, so its consumption is minus its stock. */
  lemma ThreeCycles()
    ensures var recs := [Rec("X", 5, 10, 1), Rec("X", 6, 8, 2), Rec("X", 4, 9, 3)];
            ConsumoAt(recs, 0) == -10 && ConsumoAt(recs, 1) == 7 && ConsumoAt(recs, 2) == 5
  {
  }

  /** run(): the loop over the rows. A sqlite error at update k (failAt == k), or at the commit
      (failAt == |recs|), rolls back and reports ERROR; a stop requested before update() of row k
      (stopAt == k) rolls back and leaves STOPPED; otherwise the updates are committed and the status is
      DONE. */
  method Run(w: WorkerThread, store: Store, recs: seq<Rec>, failAt: nat, stopAt: nat)
    requires w.status == STARTED
    modifies w, store
    ensures var failed := failAt <= |recs| && failAt <= stopAt;
            var stopped := !failed && stopAt < |recs|;
            (failed ==> store.db == old(store.db) && w.status == ERROR && w.error == Some(StoreError))
            && (stopped ==> store.db == old(store.db) && w.status == STOPPED)
            && (!failed && !stopped ==>
                  store.db == old(store.db).(lines := Applied(old(store.db.lines), recs, |recs|))
                  && w.status == DONE)
  {
    var lines := store.db.lines;
    var oldId: Option<ArticleId> := None;
    var oldPeso, oldQuantita := 0, 0;
    var k := 0;
    while k < |recs|
      invariant k <= |recs| && k <= failAt && k <= stopAt
      invariant lines == Applied(old(store.db.lines), recs, k)
      invariant k == 0 ==> oldId == None
      invariant k > 0 ==> oldId == Some(recs[k - 1].id) && oldPeso == recs[k - 1].ordine
                          && oldQuantita == recs[k - 1].giacenza
      invariant store.db == old(store.db) && w.status == STARTED
    {
      var r := recs[k];
      if oldId != Some(r.id) {
        oldQuantita, oldPeso := 0, 0;
      }
      var consumo := (oldQuantita + oldPeso) - r.giacenza;
      assert consumo == ConsumoAt(recs, k);
      if k == failAt {
        w.SetError(StoreError);
        return;
      }
      if KeyOf(r) in lines {
        lines := lines[KeyOf(r) := lines[KeyOf(r)].(consumo := consumo)];
      }
      oldPeso, oldQuantita, oldId := r.ordine, r.giacenza, Some(r.id);
      if k == stopAt {
        w.Stop();
      }
      var stop := w.Update();
      if stop {
        return;
      }
      k := k + 1;
    }
    if failAt == |recs| {
      w.SetError(StoreError);
      return;
    }
    store.db := store.db.(lines := lines);
    w.status := DONE;
  }
}
