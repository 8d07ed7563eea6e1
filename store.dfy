/** The sqlite database the program keeps: the catalog (tabacchi), the orders (ordineTabacchi), their lines
    (rigaOrdineTabacchi), the reception checks (verificaOrdine) and the supplemental orders
    (rigaOrdineSuppletivo). Each table is a map keyed as the table is; a transaction computes the new
    database and replaces the old one at once, so a rollback is "keep the old value". */
module Store {
  import opened Wrappers
  import opened Calendar

  /** Order states (tabacchi/ordini.py:32). The numeric order is not the lifecycle order. */
  const IN_CORSO: int := 0
  const RICEVUTO: int := 1
  const INVIATO: int := 2

  /** Supplemental-order kinds (tabacchi/ordini.py:35). */
  const ORDINARIO: int := 0
  const URGENTE: int := 1
  const STRAORDINARIO: int := 2

  /** Dialog modes (tabacchi/ordini.py:27). */
  const EDIT_MODE: int := 0
  const VIEW_MODE: int := 1
  const REVIEW_MODE: int := 2
  const NEW_MODE: int := 3

  /** The distributor's order states that mean "the order was really sent" (tabacchi/ordini.py:29-30). */
  const STATI_VALIDI: seq<string> := ["Modificabile", "In lavorazione", "Evaso"]

  /** Article codes (codice AAMS) are text. */
  type ArticleId = string
  type OrderId = int
  /** A row of a per-order table is keyed by (article, order). */
  type LineKey = (ArticleId, OrderId)

  /** A catalog article. Weights are grams, prices milli-euro per kilogram; a NULL number reads as 0. */
  datatype Article = Article(
    id: ArticleId,
    descrizione: string,
    tipo: string,
    unitaMin: nat,
    prezzoKg: nat,
    pezziUnitaMin: nat,
    livelloMin: int,
    inMagazzino: bool,
    barcode: string,
    decorrenza: Date)

  datatype OrderHeader = OrderHeader(
    data: Instant,
    levata: Day,
    stato: int,
    suppletivo: int,
    dataSuppletivo: Option<Day>,
    lastPos: nat)

  /** A line of an order: ordered weight, price, counted stock and computed consumption. */
  datatype OrderLine = OrderLine(descrizione: string, ordine: int, prezzo: int, giacenza: int, consumo: int)

  /** A reception check row: loaded weight, ordered weight, removed from the order. */
  datatype VerifyRow = VerifyRow(carico: nat, peso: int, eliminato: bool)

  datatype SuppletivoLine = SuppletivoLine(descrizione: string, ordine: nat)

  datatype Db = Db(
    catalog: seq<Article>,
    orders: map<OrderId, OrderHeader>,
    lines: map<LineKey, OrderLine>,
    verify: map<LineKey, VerifyRow>,
    suppletivo: map<LineKey, SuppletivoLine>)

  /** Order dates are unique (the table's UNIQUE (Data) constraint). */
  predicate UniqueDates(orders: map<OrderId, OrderHeader>) {
    forall o, p :: o in orders && p in orders && o != p ==> orders[o].data != orders[p].data
  }

  /** Delivery dates are unique (the table's UNIQUE (Levata) constraint). */
  predicate UniqueLevatas(orders: map<OrderId, OrderHeader>) {
    forall o, p :: o in orders && p in orders && o != p ==> orders[o].levata != orders[p].levata
  }

  /** An order other than id already has that date or that delivery date, so writing them into id breaks
      one of the two UNIQUE constraints. */
  predicate Clashes(orders: map<OrderId, OrderHeader>, id: OrderId, data: Instant, levata: Day) {
    exists o :: o in orders && o != id && (orders[o].data == data || orders[o].levata == levata)
  }

  /** Writing a date and a delivery date that clash with no other order into id keeps both constraints. */
  lemma WriteKeepsUnique(orders: map<OrderId, OrderHeader>, id: OrderId, h: OrderHeader)
    requires UniqueDates(orders) && UniqueLevatas(orders) && !Clashes(orders, id, h.data, h.levata)
    ensures UniqueDates(orders[id := h]) && UniqueLevatas(orders[id := h])
  {
  }

  /** The database connection: every committed transaction replaces db. */
  class Store {
    var db: Db

    constructor (db0: Db)
      ensures db == db0
    {
      db := db0;
    }
  }

  /** round(weight * prezzoKg, 3): the cost in milli-euro of a weight in grams at a price per kilogram. */
  function Cost(grams: int, prezzoKg: int): int {
    (grams * prezzoKg + 500) / 1000
  }

  /** round(euro, 2) on a milli-euro amount, in cents. */
  function RoundCents(milli: int): int {
    (milli + 5) / 10
  }

  predicate UniqueIds(catalog: seq<Article>) {
    forall i, j :: 0 <= i < j < |catalog| ==> catalog[i].id != catalog[j].id
  }

  /** No two articles share a non-empty barcode (the catalog editor keeps it so). */
  predicate UniqueBarcodes(catalog: seq<Article>) {
    forall i, j :: 0 <= i < j < |catalog| && catalog[i].barcode != "" ==> catalog[i].barcode != catalog[j].barcode
  }

  /** The catalog's in-stock articles (the dialog's list), in catalog order. */
  function InStock(catalog: seq<Article>): (r: seq<Article>)
    ensures forall a :: a in r <==> a in catalog && a.inMagazzino
    ensures |r| <= |catalog|
    ensures UniqueIds(catalog) ==> UniqueIds(r)
  {
    if |catalog| == 0 then []
    else
      var rest := InStock(catalog[1..]);
      assert forall a :: a in catalog <==> a == catalog[0] || a in catalog[1..];
      if catalog[0].inMagazzino then [catalog[0]] + rest else rest
  }

  predicate InCatalog(catalog: seq<Article>, id: ArticleId) {
    exists i :: 0 <= i < |catalog| && catalog[i].id == id
  }

  /** The catalog article with this code, if any. */
  function FindArticle(catalog: seq<Article>, id: ArticleId): (r: Option<Article>)
    ensures r.Some? <==> InCatalog(catalog, id)
    ensures r.Some? ==> r.value in catalog && r.value.id == id
  {
    if |catalog| == 0 then None
    else if catalog[0].id == id then Some(catalog[0])
    else
      var r := FindArticle(catalog[1..], id);
      assert forall i :: 1 <= i < |catalog| ==> catalog[i] == catalog[1..][i - 1];
      assert catalog == [catalog[0]] + catalog[1..];
      r
  }

  /** Does the order have any line, reception check or supplemental line left? */
  predicate HasLines(lines: map<LineKey, OrderLine>, order: OrderId) {
    exists k :: k in lines && k.1 == order
  }

  /** The keys of the rows of one order, in a per-order table. */
  function OrderKeys<V>(m: map<LineKey, V>, order: OrderId): set<LineKey> {
    set k | k in m && k.1 == order
  }

  /** m without the rows of one order ("delete from ... where ID_Ordine = ?"). */
  function DropOrder<V>(m: map<LineKey, V>, order: OrderId): (r: map<LineKey, V>)
    ensures forall k :: k in r <==> k in m && k.1 != order
    ensures forall k :: k in r ==> r[k] == m[k]
  {
    map k | k in m && k.1 != order :: m[k]
  }
}
