/** Entering an order (OrdineDialog, tabacchi/ordini.py:649-950): one in-stock article at a time, with the
    counted stock (quantita) and the ordered weight (ordine) typed in two spin buttons, the lines of the
    order kept in ordineDict with their cost, and the running order total mainTotal. */
module OrderEntry {
  import opened Wrappers
  import opened Calendar
  import opened Deadline
  import opened Store

  /** An ordineDict value: [Giacenza, Ordine, costo, Consumo]. The cost is Ordine * PrezzoKg, kept exact. */
  datatype Entry = Entry(giacenza: int, ordine: int, costo: int, consumo: int)

  /** An ordinePrecDict value: the stock counted and the weight ordered in the previous order. */
  datatype Precedent = Precedent(giacenza: int, ordine: int)

  /** What the previous order left in stock for an article: its count plus its order, 0 without a line. */
  function PreviousStock(prec: map<ArticleId, Precedent>, id: ArticleId): int {
    if id in prec then prec[id].giacenza + prec[id].ordine else 0
  }

  /** __calcolaConsumo: what was sold since the previous order. */
  function Consumo(prec: map<ArticleId, Precedent>, id: ArticleId, quantita: int): (c: int)
    ensures c + quantita == PreviousStock(prec, id)
    ensures id !in prec ==> c == -quantita
  {
    var precQuantita := if id in prec then prec[id].giacenza else 0;
    var precOrdine := if id in prec then prec[id].ordine else 0;
    (precQuantita + precOrdine) - quantita
  }

  /** The sum of the costs held in ordineDict. */
  ghost function SumCosts(m: map<ArticleId, Entry>): int
    decreases |m|
  {
    if m == map[] then 0
    else
      var k :| k in m;
      assert |m - {k}| < |m| by { assert m.Keys - {k} < m.Keys; }
      m[k].costo + SumCosts(m - {k})
  }

  lemma {:induction false} SumCostsRemove(m: map<ArticleId, Entry>, k: ArticleId)
    requires k in m
    ensures SumCosts(m) == m[k].costo + SumCosts(m - {k})
    decreases |m|
  {
    var j :| j in m && SumCosts(m) == m[j].costo + SumCosts(m - {j});
    if j != k {
      var mj := m - {j};
      var mk := m - {k};
      assert |mj| < |m| by { assert mj.Keys < m.Keys; }
      assert |mk| < |m| by { assert mk.Keys < m.Keys; }
      SumCostsRemove(mj, k);
      SumCostsRemove(mk, j);
      assert mj - {k} == mk - {j};
    }
  }

  /** Storing an entry moves the sum by the new cost and takes away the cost it replaces. */
  lemma SumCostsPut(m: map<ArticleId, Entry>, k: ArticleId, e: Entry)
    ensures SumCosts(m[k := e]) == SumCosts(m) - (if k in m then m[k].costo else 0) + e.costo
  {
    var m' := m[k := e];
    SumCostsRemove(m', k);
    assert m' - {k} == m - {k};
    if k in m {
      SumCostsRemove(m, k);
    } else {
      assert m - {k} == m;
    }
  }

  /** ordineDict as loaded from the lines of an order. */
  function EntriesOf(lines: map<LineKey, OrderLine>, order: OrderId): map<ArticleId, Entry> {
    map k | k in lines && k.1 == order :: k.0 := Entry(lines[k].giacenza, lines[k].ordine, lines[k].prezzo * lines[k].ordine, lines[k].consumo)
  }

  /** ordinePrecDict: [Giacenza, Ordine] of the lines of the previous order, if there is one. */
  function PrecOf(lines: map<LineKey, OrderLine>, prev: Option<OrderId>): map<ArticleId, Precedent> {
    if prev.None? then map[]
    else map k | k in lines && k.1 == prev.value :: k.0 := Precedent(lines[k].giacenza, lines[k].ordine)
  }

  /** o is the order with the latest date before date. */
  predicate IsLatestBefore(orders: map<OrderId, OrderHeader>, date: Instant, o: OrderId) {
    o in orders && orders[o].data < date
    && forall p :: p in orders && orders[p].data < date ==> orders[p].data <= orders[o].data
  }

  lemma {:induction false} LatestExists(orders: map<OrderId, OrderHeader>, date: Instant, o: OrderId)
    requires o in orders && orders[o].data < date
    ensures exists l :: IsLatestBefore(orders, date, l)
    decreases |orders|
  {
    var rest := orders - {o};
    assert |rest| < |orders| by { assert rest.Keys < orders.Keys; }
    assert forall p :: p in orders ==> p == o || (p in rest && rest[p] == orders[p]);
    if p :| p in rest && rest[p].data < date {
      LatestExists(rest, date, p);
      var l :| IsLatestBefore(rest, date, l);
      if orders[o].data > orders[l].data {
        assert IsLatestBefore(orders, date, o);
      } else {
        assert IsLatestBefore(orders, date, l);
      }
    } else {
      assert IsLatestBefore(orders, date, o);
    }
  }

  /** The order whose lines give the previous stock: the one with the greatest date before date. */
  function PreviousOrder(orders: map<OrderId, OrderHeader>, date: Instant): (r: Option<OrderId>)
    requires UniqueDates(orders)
    ensures r.Some? ==> IsLatestBefore(orders, date, r.value)
    ensures r.None? <==> forall o :: o in orders ==> orders[o].data >= date
  {
    if o :| o in orders && orders[o].data < date then
      LatestExists(orders, date, o);
      Some(var l :| IsLatestBefore(orders, date, l); l)
    else None
  }

  /** Adding an order dated at or after date does not change which order comes last before it. */
  lemma PreviousOrderAddLater(orders: map<OrderId, OrderHeader>, date: Instant, id: OrderId, h: OrderHeader)
    requires UniqueDates(orders) && UniqueDates(orders[id := h]) && id !in orders && h.data >= date
    ensures PreviousOrder(orders[id := h], date) == PreviousOrder(orders, date)
  {
    var orders' := orders[id := h];
    var a, b := PreviousOrder(orders', date), PreviousOrder(orders, date);
    assert forall p :: p in orders' <==> p in orders || p == id;
    assert forall p :: p in orders ==> orders'[p] == orders[p];
    if a.Some? && b.Some? {
      assert a.value != id;
      assert IsLatestBefore(orders, date, a.value);
      assert IsLatestBefore(orders', date, b.value);
    }
  }

  /** The index the dialog opens on: LastPos, or the last article when the list has shrunk below it. */
  function StartIndex(size: nat, lastPos: nat): (i: nat)
    requires size > 0
    ensures i < size
    ensures lastPos < size ==> i == lastPos
    ensures lastPos >= size ==> i == size - 1
  {
    if size > lastPos then lastPos else size - 1
  }

  /** A spin button holds values of its adjustment only: 0 to 50 minimum units. */
  function SpinValue(v: int, unitaMin: nat): (r: int)
    ensures 0 <= r <= 50 * unitaMin
    ensures 0 <= v <= 50 * unitaMin ==> r == v
  {
    if v < 0 then 0 else if v > 50 * unitaMin then 50 * unitaMin else v
  }

  /** The UPDATE of a line, or the INSERT when no line was updated (Prezzo is set on insert only). */
  function UpsertLine(lines: map<LineKey, OrderLine>, k: LineKey, descrizione: string, ordine: int, prezzo: int,
                      giacenza: int, consumo: int): (r: map<LineKey, OrderLine>)
    ensures r.Keys == lines.Keys + {k}
    ensures forall j :: j in lines && j != k ==> r[j] == lines[j]
    ensures r[k].ordine == ordine && r[k].giacenza == giacenza && r[k].consumo == consumo
    ensures k in lines ==> r[k].prezzo == lines[k].prezzo && r[k].descrizione == lines[k].descrizione
    ensures k !in lines ==> r[k] == OrderLine(descrizione, ordine, prezzo, giacenza, consumo)
  {
    if k in lines then lines[k := lines[k].(ordine := ordine, giacenza := giacenza, consumo := consumo)]
    else lines[k := OrderLine(descrizione, ordine, prezzo, giacenza, consumo)]
  }

  /** Euclidean division is unique: a remainder in [0, n) and the quotient that goes with it. */
  lemma DivModUnique(x: int, n: int, k: int, r: int)
    requires n > 0 && 0 <= r < n && x == k * n + r
    ensures x % n == r && x / n == k
  {
    var k', r' := x / n, x % n;
    assert (k - k') * n == r' - r;
    if k - k' >= 1 {
      assert false;
    } else if k - k' <= -1 {
      assert false;
    }
  }

  /** Moving by delta and back by delta around a list of n articles returns to the start. */
  lemma NavigationInverse(n: int, i: int, delta: int)
    requires 0 <= i < n
    ensures (((i + delta) % n) - delta) % n == i
  {
    var j := (i + delta) % n;
    var q := (i + delta) / n;
    assert i + delta == q * n + j;
    DivModUnique(j - delta, n, -q, i);
  }

  class OrderEditor {
    const ordineID: OrderId
    const mode: int
    const tabacchiList: seq<Article>
    const ordinePrecDict: map<ArticleId, Precedent>
    var ordineDict: map<ArticleId, Entry>
    var mainIndex: nat
    var mainTotal: int
    var dirty: bool
    /** The values shown by the two spin buttons. */
    var quantitaSpin: int
    var ordineSpin: int

    /** The index stays in the list and the total is the sum of the costs in ordineDict. */
    ghost predicate Valid()
      reads this
    {
      |tabacchiList| > 0 && mainIndex < |tabacchiList| && mainTotal == SumCosts(ordineDict)
    }

    function Current(): Article
      reads this
      requires mainIndex < |tabacchiList|
    {
      tabacchiList[mainIndex]
    }

    constructor (id: OrderId, m: int, list: seq<Article>, prec: map<ArticleId, Precedent>,
                 d: map<ArticleId, Entry>, total: int, index: nat)
      requires index < |list| && total == SumCosts(d)
      ensures ordineID == id && mode == m && tabacchiList == list && ordinePrecDict == prec
      ensures ordineDict == d && mainTotal == total && mainIndex == index && !dirty
      ensures quantitaSpin == SpinValue(if list[index].id in d then d[list[index].id].giacenza else 0, list[index].unitaMin)
      ensures ordineSpin == SpinValue(if list[index].id in d then d[list[index].id].ordine else 0, list[index].unitaMin)
      ensures Valid()
    {
      ordineID, mode, tabacchiList, ordinePrecDict := id, m, list, prec;
      ordineDict, mainTotal, mainIndex, dirty := d, total, index, false;
      var a := list[index];
      quantitaSpin := SpinValue(if a.id in d then d[a.id].giacenza else 0, a.unitaMin);
      ordineSpin := SpinValue(if a.id in d then d[a.id].ordine else 0, a.unitaMin);
    }

    /** __showInfo: the spin buttons show the article's line, or 0, without marking the dialog dirty. */
    method ShowInfo()
      requires Valid()
      modifies this`quantitaSpin, this`ordineSpin
      ensures Valid()
      ensures var a := Current();
              quantitaSpin == SpinValue(if a.id in ordineDict then ordineDict[a.id].giacenza else 0, a.unitaMin)
              && ordineSpin == SpinValue(if a.id in ordineDict then ordineDict[a.id].ordine else 0, a.unitaMin)
    {
      var a := tabacchiList[mainIndex];
      quantitaSpin := SpinValue(if a.id in ordineDict then ordineDict[a.id].giacenza else 0, a.unitaMin);
      ordineSpin := SpinValue(if a.id in ordineDict then ordineDict[a.id].ordine else 0, a.unitaMin);
    }

    /** quantitaChange: a new stock count; in EDIT_MODE the order proposed is LivelloMin minus the count. */
    method QuantitaChange(value: int)
      requires Valid()
      modifies this`quantitaSpin, this`ordineSpin, this`dirty
      ensures Valid() && dirty
      ensures quantitaSpin == SpinValue(value, Current().unitaMin)
      ensures mode == EDIT_MODE ==> ordineSpin == SpinValue(Current().livelloMin - quantitaSpin, Current().unitaMin)
      ensures mode != EDIT_MODE ==> ordineSpin == old(ordineSpin)
    {
      var a := tabacchiList[mainIndex];
      dirty := true;
      quantitaSpin := SpinValue(value, a.unitaMin);
      if mode == EDIT_MODE {
        ordineSpin := SpinValue(a.livelloMin - quantitaSpin, a.unitaMin);
      }
    }

    /** ordineChange: a new ordered weight. */
    method OrdineChange(value: int)
      requires Valid()
      modifies this`ordineSpin, this`dirty
      ensures Valid() && dirty && ordineSpin == SpinValue(value, Current().unitaMin)
    {
      dirty := true;
      ordineSpin := SpinValue(value, tabacchiList[mainIndex].unitaMin);
    }

    /** __update: when dirty, the current article's line becomes what the spin buttons show, in ordineDict
        (the total follows) and in the store (in its own transaction, rolled back on a store error). */
    method Update(store: Store, fails: bool)
      requires Valid()
      modifies this`ordineDict, this`mainTotal, this`dirty, store
      ensures Valid() && !dirty
      ensures !old(dirty) ==> ordineDict == old(ordineDict) && mainTotal == old(mainTotal) && store.db == old(store.db)
      ensures old(dirty) ==>
                var a := Current();
                var e := Entry(quantitaSpin, ordineSpin, ordineSpin * a.prezzoKg, Consumo(ordinePrecDict, a.id, quantitaSpin));
                ordineDict == old(ordineDict)[a.id := e]
                && store.db == (if fails then old(store.db)
                                else old(store.db).(lines := UpsertLine(old(store.db.lines), (a.id, ordineID), a.descrizione,
                                                                       ordineSpin, a.prezzoKg, quantitaSpin, e.consumo)))
    {
      if dirty {
        dirty := false;
        var a := tabacchiList[mainIndex];
        var costo := ordineSpin * a.prezzoKg;
        var consumo := Consumo(ordinePrecDict, a.id, quantitaSpin);
        var e := Entry(quantitaSpin, ordineSpin, costo, consumo);
        SumCostsPut(ordineDict, a.id, e);
        if a.id in ordineDict {
          mainTotal := mainTotal - ordineDict[a.id].costo;
        }
        ordineDict := ordineDict[a.id := e];
        mainTotal := mainTotal + costo;
        if !fails {
          store.db := store.db.(lines := UpsertLine(store.db.lines, (a.id, ordineID), a.descrizione,
                                                    ordineSpin, a.prezzoKg, quantitaSpin, consumo));
        }
      }
    }

    /** rewind (-1), forward (+1), previous (-10) and next (+10): update, then move around the list. */
    method Move(store: Store, fails: bool, delta: int)
      requires Valid()
      modifies this, store
      ensures Valid() && !dirty
      ensures mainIndex == (old(mainIndex) + delta) % |tabacchiList|
      ensures var a := Current();
              quantitaSpin == SpinValue(if a.id in ordineDict then ordineDict[a.id].giacenza else 0, a.unitaMin)
              && ordineSpin == SpinValue(if a.id in ordineDict then ordineDict[a.id].ordine else 0, a.unitaMin)
    {
      Update(store, fails);
      mainIndex := (mainIndex + delta) % |tabacchiList|;
      ShowInfo();
    }

    method Rewind(store: Store, fails: bool)
      requires Valid()
      modifies this, store
      ensures Valid() && mainIndex == (old(mainIndex) - 1) % |tabacchiList|
    {
      Move(store, fails, -1);
    }

    method Forward(store: Store, fails: bool)
      requires Valid()
      modifies this, store
      ensures Valid() && mainIndex == (old(mainIndex) + 1) % |tabacchiList|
    {
      Move(store, fails, 1);
    }

    method Previous(store: Store, fails: bool)
      requires Valid()
      modifies this, store
      ensures Valid() && mainIndex == (old(mainIndex) - 10) % |tabacchiList|
    {
      Move(store, fails, -10);
    }

    method Next(store: Store, fails: bool)
      requires Valid()
      modifies this, store
      ensures Valid() && mainIndex == (old(mainIndex) + 10) % |tabacchiList|
    {
      Move(store, fails, 10);
    }

    /** close: update, then remember the position as the order's LastPos (its own transaction). */
    method Close(store: Store, updateFails: bool, fails: bool)
      requires Valid() && ordineID in store.db.orders
      modifies this`ordineDict, this`mainTotal, this`dirty, store
      ensures Valid() && !dirty
      ensures ordineID in store.db.orders
      ensures !fails ==> store.db.orders[ordineID].lastPos == mainIndex
      ensures store.db.orders.Keys == old(store.db.orders.Keys)
      ensures forall o :: o in store.db.orders && o != ordineID ==> store.db.orders[o] == old(store.db.orders[o])
    {
      Update(store, updateFails);
      if !fails {
        var h := store.db.orders[ordineID];
        store.db := store.db.(orders := store.db.orders[ordineID := h.(lastPos := mainIndex)]);
      }
    }
  }

  /** The loop over the order's lines: each one enters ordineDict with its cost, which enters mainTotal. */
  method LoadEntries(lines: map<LineKey, OrderLine>, id: OrderId) returns (d: map<ArticleId, Entry>, total: int)
    ensures d == EntriesOf(lines, id) && total == SumCosts(d)
  {
    d, total := map[], 0;
    var keys := set k | k in lines && k.1 == id;
    while keys != {}
      invariant keys <= set k | k in lines && k.1 == id
      invariant forall a :: a in d <==> (a, id) in lines && (a, id) !in keys
      invariant forall a :: a in d ==> d[a] == EntriesOf(lines, id)[a]
      invariant total == SumCosts(d)
      decreases |keys|
    {
      var k :| k in keys;
      var l := lines[k];
      var e := Entry(l.giacenza, l.ordine, l.prezzo * l.ordine, l.consumo);
      SumCostsPut(d, k.0, e);
      total := total + e.costo;
      d := d[k.0 := e];
      keys := keys - {k};
    }
  }

  /** The header of a new order: its date, the levata of its deadline, and the column defaults. */
  function NewHeader(now: Instant, s: Settings, plan: seq<PlanRow>): OrderHeader
    requires 0 <= s.oraInvio < 24 && ValidPlan(plan)
  {
    OrderHeader(now, DataLimiteOrdine(now, s, plan).1, IN_CORSO, ORDINARIO, None, 0)
  }

  /** Opening the order dialog. Without in-stock articles no order can be made. A new order is inserted
      first (an order already dated now, or already due on the same levata, breaks the UNIQUE (Data) or
      UNIQUE (Levata) constraint, like any store error, and the insert is rolled back); an existing one has
      its lines loaded into ordineDict. The previous order's lines give ordinePrecDict. */
  method Open(store: Store, ordineID: Option<OrderId>, mode: int, now: Instant, s: Settings, plan: seq<PlanRow>,
              newId: OrderId, fails: bool)
    returns (r: Option<OrderEditor>)
    requires UniqueDates(store.db.orders) && UniqueLevatas(store.db.orders)
    requires 0 <= s.oraInvio < 24 && ValidPlan(plan)
    requires ordineID.Some? ==> ordineID.value in store.db.orders
    requires ordineID.None? ==> newId !in store.db.orders
    modifies store
    ensures UniqueDates(store.db.orders) && UniqueLevatas(store.db.orders)
    ensures |InStock(old(store.db.catalog))| == 0 ==> r.None? && store.db == old(store.db)
    ensures ordineID.None? && (fails || Clashes(old(store.db.orders), newId, now, NewHeader(now, s, plan).levata)) ==>
              r.None? && store.db == old(store.db)
    ensures |InStock(old(store.db.catalog))| > 0
            && (ordineID.Some? || (!fails && !Clashes(old(store.db.orders), newId, now, NewHeader(now, s, plan).levata)))
            ==> r.Some?
    ensures ordineID.None? && r.Some? ==>
              store.db == old(store.db).(orders := old(store.db.orders)[newId := NewHeader(now, s, plan)])
              && r.value.ordineID == newId && r.value.ordineDict == map[] && r.value.mainIndex == 0
              && r.value.ordinePrecDict == PrecOf(old(store.db.lines), PreviousOrder(old(store.db.orders), now))
    ensures ordineID.Some? ==> store.db == old(store.db)
    ensures ordineID.Some? && r.Some? ==>
              var h := old(store.db.orders[ordineID.value]);
              r.value.ordineID == ordineID.value
              && r.value.ordineDict == EntriesOf(old(store.db.lines), ordineID.value)
              && r.value.mainIndex == StartIndex(|InStock(old(store.db.catalog))|, h.lastPos)
              && r.value.ordinePrecDict == PrecOf(old(store.db.lines), PreviousOrder(old(store.db.orders), h.data))
    ensures r.Some? ==> fresh(r.value) && r.value.Valid() && !r.value.dirty && r.value.mode == mode
                        && r.value.tabacchiList == InStock(old(store.db.catalog))
  {
    var list := InStock(store.db.catalog);
    if |list| == 0 {
      return None;
    }
    var id: OrderId;
    var d: map<ArticleId, Entry> := map[];
    var total := 0;
    if ordineID.None? {
      var h := NewHeader(now, s, plan);
      if fails || exists o :: o in store.db.orders && (store.db.orders[o].data == now || store.db.orders[o].levata == h.levata) {
        return None;
      }
      id := newId;
      WriteKeepsUnique(store.db.orders, id, h);
      PreviousOrderAddLater(store.db.orders, now, id, h);
      store.db := store.db.(orders := store.db.orders[id := NewHeader(now, s, plan)]);
    } else {
      id := ordineID.value;
      d, total := LoadEntries(store.db.lines, id);
    }
    var h := store.db.orders[id];
    var prev := PreviousOrder(store.db.orders, h.data);
    var editor := new OrderEditor(id, mode, list, PrecOf(store.db.lines, prev), d, total, StartIndex(|list|, h.lastPos));
    r := Some(editor);
  }
}
