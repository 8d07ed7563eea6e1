/** The order list's actions (the main window, tabacchi/main.py): the state guards of new order, edit,
    reception, supplemental order and deletion, the deadline check that may move an order to the next
    free delivery, the pre-send check of makeOrder, and the state update made after the supplier's site
    confirms the order. Dialog answers are parameters (true means the user confirmed), and fails says that
    the database raised, in which case the transaction rolls back. */
module Lifecycle {
  import opened Wrappers
  import opened Calendar
  import opened Deadline
  import opened Store

  /** At most one order is still open (not yet received). */
  predicate AtMostOneOpen(orders: map<OrderId, OrderHeader>) {
    forall a, b :: a in orders && b in orders && orders[a].stato != RICEVUTO && orders[b].stato != RICEVUTO ==> a == b
  }

  // The messages shown when an action is refused.
  const NOT_SENT := "Per verificare un ordine, deve essere inviato."
  const NO_READER := "Non è stato impostato un lettore di codici a barre."
  const SUPPLETIVO_OPEN := "Non è possibile aggiungere un ordine suppletivo ad un ordine in corso."
  const ALREADY_RECEIVED := "L'ordine è già stato ricevuto."
  const ALREADY_SENT := "L'ordine è già stato inviato."
  const NO_SUPPLETIVO := "Non esiste un ordine suppletivo da cancellare."
  const NOT_GENERATED := "Non è stato generato alcun ordine."
  const NOT_ORDERED := "Alcuni articoli con livello maggiore di 0 non sono stati ordinati."
  const ORDER_OPEN := "Esiste un ordine in corso o non ancora ricevuto."
  const ORDER_LATER := "Ci sono ordini con date successive. Un nuovo ordine deve essere il più recente."

  /** newOrder (main.py:1625-1663): refused while some order is not received, or when the latest order
      is dated after now. */
  function NewOrderCheck(orders: map<OrderId, OrderHeader>, now: Instant): (r: Result<()>)
    ensures r.Ok? <==> forall o :: o in orders ==> orders[o].stato == RICEVUTO && orders[o].data <= now
  {
    if exists o :: o in orders && orders[o].stato != RICEVUTO then Err(Refused(ORDER_OPEN))
    else if exists o :: o in orders && now < orders[o].data then Err(Refused(ORDER_LATER))
    else Ok(())
  }

  /** An order created after an accepted newOrder is the only open one and the most recent one. */
  lemma NewOrderKeepsOneOpen(orders: map<OrderId, OrderHeader>, now: Instant, id: OrderId, h: OrderHeader)
    requires NewOrderCheck(orders, now).Ok? && id !in orders && h.stato == IN_CORSO && h.data == now
    ensures AtMostOneOpen(orders[id := h])
    ensures forall o :: o in orders ==> orders[o].data <= h.data
  {
  }

  /** ricezioneOrdine (main.py:1098-1120): only a sent order can be checked on arrival, and only with a
      barcode reader configured. */
  function ReceptionCheck(stato: int, defaultBarcode: int): (r: Result<()>)
    ensures r.Ok? <==> stato == INVIATO && defaultBarcode >= 0
    ensures stato != INVIATO ==> r == Err(Refused(NOT_SENT))
  {
    if stato != INVIATO then Err(Refused(NOT_SENT))
    else if defaultBarcode < 0 then Err(Refused(NO_READER))
    else Ok(())
  }

  /** ordineSuppletivo (main.py:1556-1574): no supplemental order on an order still being filled. */
  function SuppletivoCheck(stato: int): (r: Result<()>)
    ensures r.Ok? <==> stato != IN_CORSO
  {
    if stato == IN_CORSO then Err(Refused(SUPPLETIVO_OPEN))
    else Ok(())
  }

  /** The state part of makeOrder (main.py:1399, 1485-1489): only an order in progress is generated. */
  function SendCheck(stato: int): (r: Result<()>)
    ensures r.Ok? <==> stato == IN_CORSO
  {
    if stato == IN_CORSO then Ok(())
    else if stato == RICEVUTO then Err(Refused(ALREADY_RECEIVED))
    else Err(Refused(ALREADY_SENT))
  }

  /** The menu items __refreshMenus enables for the selected order (main.py:1061-1075). */
  datatype Menus = Menus(u88: bool, invia: bool, ricezione: bool, suppletivo: bool, delSuppletivo: bool, u88Suppletivo: bool)

  function RefreshMenus(h: OrderHeader): (m: Menus)
    ensures m.invia <==> SendCheck(h.stato).Ok?
    ensures m.u88 == m.invia
    ensures m.ricezione <==> ReceptionCheck(h.stato, 0).Ok?
    ensures m.delSuppletivo <==> h.suppletivo != ORDINARIO
    ensures m.delSuppletivo == m.u88Suppletivo
    ensures m.suppletivo && (h.stato == IN_CORSO ==> SuppletivoCheck(h.stato).Err?)
  {
    var incorso := h.stato == IN_CORSO;
    var inviato := h.stato == INVIATO;
    var suppletivo := h.suppletivo != ORDINARIO;
    Menus(incorso, incorso, inviato, true, suppletivo, suppletivo)
  }

  /** deleteSuppletivo (main.py:1576-1611): refused when there is no supplemental order; on confirm the
      supplemental lines go and the order returns to ORDINARIO without a supplemental date. */
  method DeleteSuppletivo(store: Store, id: OrderId, confirm: bool, fails: bool) returns (r: Result<()>)
    requires id in store.db.orders
    modifies store
    ensures old(store.db.orders[id].suppletivo) == ORDINARIO ==>
      r == Err(Refused(NO_SUPPLETIVO))
    ensures r.Ok? <==> old(store.db.orders[id].suppletivo) != ORDINARIO && confirm && !fails
    ensures r.Ok? ==>
      var h := old(store.db.orders[id]);
      store.db == old(store.db).(suppletivo := DropOrder(old(store.db.suppletivo), id),
                                 orders := old(store.db.orders)[id := h.(dataSuppletivo := None, suppletivo := ORDINARIO)])
    ensures r.Err? ==> store.db == old(store.db)
  {
    var h := store.db.orders[id];
    if h.suppletivo == ORDINARIO {
      return Err(Refused(NO_SUPPLETIVO));
    }
    if !confirm {
      return Err(Refused("Cancella ordine suppletivo"));
    }
    if fails {
      return Err(StoreError);
    }
    store.db := store.db.(suppletivo := DropOrder(store.db.suppletivo, id),
                          orders := store.db.orders[id := h.(dataSuppletivo := None, suppletivo := ORDINARIO)]);
    r := Ok(());
  }

  /** The database without an order and every row that refers to it. */
  function Cascade(db: Db, id: OrderId): (r: Db)
    ensures r.catalog == db.catalog
    ensures id !in r.orders && !HasLines(r.lines, id)
    ensures forall k :: k in r.verify ==> k.1 != id
    ensures forall k :: k in r.suppletivo ==> k.1 != id
    ensures forall o :: o in db.orders && o != id ==> o in r.orders && r.orders[o] == db.orders[o]
    ensures forall k :: k in db.lines && k.1 != id ==> k in r.lines && r.lines[k] == db.lines[k]
  {
    db.(orders := db.orders - {id}, lines := DropOrder(db.lines, id),
        verify := DropOrder(db.verify, id), suppletivo := DropOrder(db.suppletivo, id))
  }

  /** deleteOrdine (main.py:1499-1550): an order no longer in progress needs a first confirmation, and
      every order a second one; then its supplemental lines, reception checks, lines and header are
      deleted in one transaction. */
  method DeleteOrdine(store: Store, id: OrderId, confirmSent: bool, confirmDelete: bool, fails: bool)
    returns (deleted: bool)
    requires id in store.db.orders
    modifies store
    ensures deleted <==> (old(store.db.orders[id].stato) == IN_CORSO || confirmSent) && confirmDelete && !fails
    ensures deleted ==> store.db == Cascade(old(store.db), id)
    ensures !deleted ==> store.db == old(store.db)
  {
    var inCorso := store.db.orders[id].stato == IN_CORSO;
    if (inCorso || confirmSent) && confirmDelete && !fails {
      store.db := Cascade(store.db, id);
      deleted := true;
    } else {
      deleted := false;
    }
  }

  /** __updateOrder (main.py:1123-1145): sets the state of an order; an id with no order changes nothing. */
  method UpdateOrder(store: Store, id: OrderId, stato: int, fails: bool) returns (ok: bool)
    modifies store
    ensures ok == !fails
    ensures ok && id in old(store.db.orders) ==>
      store.db == old(store.db).(orders := old(store.db.orders)[id := old(store.db.orders[id]).(stato := stato)])
    ensures !ok || id !in old(store.db.orders) ==> store.db == old(store.db)
  {
    if fails {
      return false;
    }
    if id in store.db.orders {
      store.db := store.db.(orders := store.db.orders[id := store.db.orders[id].(stato := stato)]);
    }
    ok := true;
  }

  /** __checkDataLevata (main.py:1678-1715): when the order's deadline has passed, offers to move it to
      now and to the delivery the deadline rule gives for now. The update fails like any store error when
      another order already has that date or that levata (UNIQUE (Data), UNIQUE (Levata)). The result says
      whether the caller may go on; when it is true, the order's deadline is not in the past. */
  method CheckDataLevata(store: Store, id: OrderId, s: Settings, plan: seq<PlanRow>, now: Instant,
                         confirm: bool, fails: bool) returns (ok: bool)
    requires id in store.db.orders && 0 <= s.oraInvio < 24 && ValidPlan(plan)
    modifies store
    ensures var late := DataLimiteOrdine(old(store.db.orders[id].data), s, plan).0 < now;
            (ok <==> !late || (confirm && !fails && !Clashes(old(store.db.orders), id, now, DataLimiteOrdine(now, s, plan).1)))
            && (ok && late ==>
                  store.db == old(store.db).(orders := old(store.db.orders)[id :=
                    old(store.db.orders[id]).(data := now, levata := DataLimiteOrdine(now, s, plan).1)]))
            && (!(ok && late) ==> store.db == old(store.db))
    ensures ok ==> id in store.db.orders && DataLimiteOrdine(store.db.orders[id].data, s, plan).0 >= now
    ensures store.db.lines == old(store.db.lines) && store.db.catalog == old(store.db.catalog)
    ensures UniqueDates(old(store.db.orders)) && UniqueLevatas(old(store.db.orders)) ==>
              UniqueDates(store.db.orders) && UniqueLevatas(store.db.orders)
  {
    var (dataLimite, _) := DataLimiteOrdine(store.db.orders[id].data, s, plan);
    ok := true;
    if dataLimite < now {
      var (_, levata) := DataLimiteOrdine(now, s, plan);
      var orders := store.db.orders;
      if !confirm || fails || exists o :: o in orders && o != id && (orders[o].data == now || orders[o].levata == levata) {
        ok := false;
      } else {
        DeadlineAfterReference(now, s, plan);
        if UniqueDates(orders) && UniqueLevatas(orders) {
          WriteKeepsUnique(orders, id, orders[id].(data := now, levata := levata));
        }
        store.db := store.db.(orders := store.db.orders[id := store.db.orders[id].(data := now, levata := levata)]);
      }
    }
  }

  /** editOrder (main.py:1717-1740): an order in progress opens in EDIT_MODE once its deadline is
      checked (None when the user declines the move), any other order in REVIEW_MODE. */
  method EditOrder(store: Store, id: OrderId, s: Settings, plan: seq<PlanRow>, now: Instant,
                   confirm: bool, fails: bool) returns (mode: Option<int>)
    requires id in store.db.orders && 0 <= s.oraInvio < 24 && ValidPlan(plan)
    modifies store
    ensures mode == Some(EDIT_MODE) ==> old(store.db.orders[id].stato) == IN_CORSO
    ensures old(store.db.orders[id].stato) != IN_CORSO ==> mode == Some(REVIEW_MODE) && store.db == old(store.db)
    ensures mode == Some(EDIT_MODE) ==>
      id in store.db.orders && DataLimiteOrdine(store.db.orders[id].data, s, plan).0 >= now
  {
    if store.db.orders[id].stato == IN_CORSO {
      var ok := CheckDataLevata(store, id, s, plan, now, confirm, fails);
      mode := if ok then Some(EDIT_MODE) else None;
    } else {
      mode := Some(REVIEW_MODE);
    }
  }

  /** Has the order a line with a positive ordered weight for this article? */
  predicate Ordered(lines: map<LineKey, OrderLine>, order: OrderId, id: ArticleId) {
    (id, order) in lines && lines[(id, order)].ordine > 0
  }

  /** The descriptions makeOrder warns about: articles with a positive minimum level not ordered. */
  function NotOrdered(tabacchi: seq<Article>, lines: map<LineKey, OrderLine>, order: OrderId): (r: seq<string>)
    ensures |r| <= |tabacchi|
    ensures forall d :: d in r <==>
      exists a :: a in tabacchi && a.livelloMin > 0 && !Ordered(lines, order, a.id) && a.descrizione == d
  {
    if |tabacchi| == 0 then []
    else
      var a := tabacchi[0];
      var rest := NotOrdered(tabacchi[1..], lines, order);
      assert forall x :: x in tabacchi <==> x == a || x in tabacchi[1..];
      if a.livelloMin > 0 && !Ordered(lines, order, a.id) then [a.descrizione] + rest else rest
  }

  /** makeOrder's ordineDict: [Giacenza, Ordine] of the order's lines with Ordine > 0. */
  function OrdineDict(lines: map<LineKey, OrderLine>, order: OrderId): (r: map<ArticleId, (int, int)>)
    ensures forall id :: id in r <==> Ordered(lines, order, id)
    ensures forall id :: id in r ==> r[id].1 > 0
  {
    map k | k in lines && k.1 == order && lines[k].ordine > 0 :: k.0 := (lines[k].giacenza, lines[k].ordine)
  }

  /** The warning loop of makeOrder (main.py:1421-1437) over the in-stock articles. The query it reads
      keeps only lines with Ordine > 0, so a line with both Giacenza and Ordine 0 is never in ordineDict
      and that second test of the loop never fires. */
  method Warnings(tabacchi: seq<Article>, lines: map<LineKey, OrderLine>, order: OrderId) returns (errorList: seq<string>)
    ensures errorList == NotOrdered(tabacchi, lines, order)
  {
    var ordineDict := OrdineDict(lines, order);
    errorList := [];
    var i := |tabacchi|;
    // The list is built from the back so that its tail is always the specification of a suffix.
    while i > 0
      invariant 0 <= i <= |tabacchi|
      invariant errorList == NotOrdered(tabacchi[i..], lines, order)
    {
      i := i - 1;
      var t := tabacchi[i];
      assert tabacchi[i..][1..] == tabacchi[i + 1..];
      if t.livelloMin > 0 {
        if t.id !in ordineDict {
          errorList := [t.descrizione] + errorList;
        } else if ordineDict[t.id].0 == 0 && ordineDict[t.id].1 == 0 {
          assert false;
        } else {
          assert (t.id, order) in lines;
        }
      }
    }
    assert tabacchi[0..] == tabacchi;
  }

  /** What the Excel file of the order lists: each ordered article with its weight. */
  function OrderedLines(lines: map<LineKey, OrderLine>, order: OrderId): (r: map<ArticleId, int>)
    ensures forall id :: id in r <==> Ordered(lines, order, id)
    ensures forall id :: id in r ==> (id, order) in lines && r[id] == lines[(id, order)].ordine && r[id] > 0
  {
    map k | k in lines && k.1 == order && lines[k].ordine > 0 :: k.0 := lines[k].ordine
  }

  /** makeOrder (main.py:1388-1497): for an order in progress, the deadline check, then the warnings about
      articles left out, which the user may accept; the result is the content of the order file. */
  method MakeOrder(store: Store, id: OrderId, s: Settings, plan: seq<PlanRow>, now: Instant,
                   confirmShift: bool, shiftFails: bool, confirmWarnings: bool)
    returns (r: Result<map<ArticleId, int>>)
    requires id in store.db.orders && 0 <= s.oraInvio < 24 && ValidPlan(plan)
    modifies store
    ensures old(store.db.orders[id].stato) != IN_CORSO ==> r.Err? && store.db == old(store.db)
    ensures r.Ok? <==>
      old(store.db.orders[id].stato) == IN_CORSO
      && (DataLimiteOrdine(old(store.db.orders[id].data), s, plan).0 >= now
          || (confirmShift && !shiftFails && !Clashes(old(store.db.orders), id, now, DataLimiteOrdine(now, s, plan).1)))
      && (|NotOrdered(InStock(old(store.db.catalog)), old(store.db.lines), id)| == 0 || confirmWarnings)
    ensures r.Ok? ==> old(store.db.orders[id].stato) == IN_CORSO
                      && (|NotOrdered(InStock(old(store.db.catalog)), old(store.db.lines), id)| == 0 || confirmWarnings)
                      && r.value == OrderedLines(old(store.db.lines), id)
                      && id in store.db.orders && DataLimiteOrdine(store.db.orders[id].data, s, plan).0 >= now
    ensures store.db.lines == old(store.db.lines) && store.db.catalog == old(store.db.catalog)
  {
    var check := SendCheck(store.db.orders[id].stato);
    if check.Err? {
      return Err(check.error);
    }
    ghost var db0 := store.db;
    var ok := CheckDataLevata(store, id, s, plan, now, confirmShift, shiftFails);
    assert store.db.lines == db0.lines && store.db.catalog == db0.catalog;
    if !ok {
      return Err(Refused(NOT_GENERATED));
    }
    var errorList := Warnings(InStock(store.db.catalog), store.db.lines, id);
    if |errorList| > 0 && !confirmWarnings {
      return Err(Refused(NOT_ORDERED));
    }
    r := Ok(OrderedLines(store.db.lines, id));
  }

  /** The loop of __pianoLevateCallback (main.py:1276-1283): the state of the first plan row whose
      delivery date is the order's levata. */
  method FindConsegna(plan: seq<PlanRow>, consegnaToCheck: Day) returns (stato: Option<string>)
    ensures stato.None? <==> forall i :: 0 <= i < |plan| ==> DaysFromCivil(plan[i].consegna) != consegnaToCheck
    ensures stato.Some? ==> exists i :: 0 <= i < |plan| && DaysFromCivil(plan[i].consegna) == consegnaToCheck
                              && stato.value == plan[i].stato
                              && forall j :: 0 <= j < i ==> DaysFromCivil(plan[j].consegna) != consegnaToCheck
  {
    var i := 0;
    var found := false;
    var last := "";
    while i < |plan| && !found
      invariant 0 <= i <= |plan|
      invariant forall j :: 0 <= j < i - 1 ==> DaysFromCivil(plan[j].consegna) != consegnaToCheck
      invariant !found ==> forall j :: 0 <= j < i ==> DaysFromCivil(plan[j].consegna) != consegnaToCheck
      invariant found ==> i > 0 && DaysFromCivil(plan[i - 1].consegna) == consegnaToCheck && last == plan[i - 1].stato
    {
      found := DaysFromCivil(plan[i].consegna) == consegnaToCheck;
      last := plan[i].stato;
      i := i + 1;
    }
    stato := if found then Some(last) else None;
  }

  /** __pianoLevateCallback (main.py:1270-1291): when the plan lists the order's delivery with a state the
      site uses for an accepted order, the order becomes INVIATO. Its current state is not checked. */
  method PianoLevateCallback(store: Store, id: OrderId, plan: seq<PlanRow>, fails: bool) returns (updated: bool)
    requires id in store.db.orders
    modifies store
    ensures updated <==> !fails && exists i ::
      0 <= i < |plan| && DaysFromCivil(plan[i].consegna) == old(store.db.orders[id].levata) && plan[i].stato in STATI_VALIDI
      && forall j :: 0 <= j < i ==> DaysFromCivil(plan[j].consegna) != old(store.db.orders[id].levata)
    ensures updated ==>
      store.db == old(store.db).(orders := old(store.db.orders)[id := old(store.db.orders[id]).(stato := INVIATO)])
    ensures !updated ==> store.db == old(store.db)
  {
    var stato := FindConsegna(plan, store.db.orders[id].levata);
    updated := false;
    if stato.Some? && stato.value in STATI_VALIDI {
      updated := UpdateOrder(store, id, INVIATO, fails);
    }
  }
}
