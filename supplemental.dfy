/** The supplemental order (SuppletivoDialog, tabacchi/ordini.py:473-611): one row per in-stock article with
    the quantity asked for, the running weight and amount totals, and the save that replaces the order's
    supplemental lines. Quantities are grams; the amount of a row is quantity * PrezzoKg, kept exact. */
module Supplemental {
  import opened Wrappers
  import opened Calendar
  import opened Text
  import opened Store

  /** A dialog row: [ID, Descrizione, Tipo, quantita, prezzo conf., importo, UnitaMin, PrezzoKg]. */
  datatype SRow = SRow(id: ArticleId, descrizione: string, tipo: string, quantita: int, prezzoConf: int,
                       importo: int, unitaMin: nat, prezzoKg: nat)

  /** The keys of TIPO_ORDINE in their insertion order. */
  const TipoKeys: seq<int> := [ORDINARIO, URGENTE, STRAORDINARIO]

  /** __loadCombo: the combo lists the kinds other than ORDINARIO; a supplemental order made for the first
      time (kind ORDINARIO) starts as URGENTE and dirty; an unknown kind selects the first entry. */
  method LoadCombo(tipo: int) returns (store: seq<int>, index: nat, dirty: bool)
    ensures store == [URGENTE, STRAORDINARIO] && index < |store|
    ensures dirty <==> tipo == ORDINARIO
    ensures tipo == ORDINARIO || tipo == URGENTE ==> store[index] == URGENTE
    ensures tipo == STRAORDINARIO ==> store[index] == STRAORDINARIO
    ensures tipo !in TipoKeys ==> index == 0
  {
    dirty := false;
    var t := tipo;
    if t == ORDINARIO {
      dirty := true;
      t := URGENTE;
    }
    store := [];
    var i := 0;
    index := 0;
    var k := 0;
    while k < |TipoKeys|
      invariant 0 <= k <= |TipoKeys| && i == |store|
      invariant store == (if k >= 2 then [URGENTE] else []) + (if k >= 3 then [STRAORDINARIO] else [])
      invariant index <= i && (index < i || index == 0)
      invariant t in TipoKeys[..k] ==> index < |store| && store[index] == t
      invariant t !in TipoKeys[..k] ==> index == 0
    {
      var cod := TipoKeys[k];
      if cod == t {
        index := i;
      }
      if cod != ORDINARIO {
        store := store + [cod];
        i := i + 1;
      }
      k := k + 1;
    }
    assert TipoKeys[..k] == TipoKeys;
  }

  function SumKg(rows: seq<SRow>): int
    decreases |rows|
  {
    if |rows| == 0 then 0 else SumKg(rows[..|rows| - 1]) + rows[|rows| - 1].quantita
  }

  function SumImporto(rows: seq<SRow>): int
    decreases |rows|
  {
    if |rows| == 0 then 0 else SumImporto(rows[..|rows| - 1]) + rows[|rows| - 1].importo
  }

  lemma {:induction false} SumsUpdate(rows: seq<SRow>, i: nat, r: SRow)
    requires i < |rows|
    ensures SumKg(rows[i := r]) == SumKg(rows) - rows[i].quantita + r.quantita
    ensures SumImporto(rows[i := r]) == SumImporto(rows) - rows[i].importo + r.importo
    decreases |rows|
  {
    var n := |rows|;
    if i == n - 1 {
      assert rows[i := r][..n - 1] == rows[..n - 1];
    } else {
      assert rows[i := r][..n - 1] == rows[..n - 1][i := r];
      SumsUpdate(rows[..n - 1], i, r);
    }
  }

  lemma SumsAppend(rows: seq<SRow>, r: SRow)
    ensures SumKg(rows + [r]) == SumKg(rows) + r.quantita && SumImporto(rows + [r]) == SumImporto(rows) + r.importo
  {
    assert (rows + [r])[..|rows|] == rows;
  }

  /** Every row's amount is its quantity at its price. */
  predicate RowsPriced(rows: seq<SRow>) {
    forall i :: 0 <= i < |rows| ==> rows[i].importo == rows[i].quantita * rows[i].prezzoKg
  }

  /** The dialog row of an in-stock article: the supplemental quantity already stored, or 0. */
  function ToSRow(sup: map<LineKey, SuppletivoLine>, order: OrderId, a: Article): (r: SRow)
    ensures r.importo == r.quantita * r.prezzoKg && r.id == a.id
    ensures r.tipo == a.tipo && r.descrizione == a.descrizione
  {
    var q := if (a.id, order) in sup then sup[(a.id, order)].ordine as int else 0;
    SRow(a.id, a.descrizione, a.tipo, q, a.prezzoKg * a.unitaMin, q * a.prezzoKg, a.unitaMin, a.prezzoKg)
  }

  // ---------------------------------------------------------------------------------------------
  // "where t.InMagazzino order by t.Tipo, t.Descrizione"

  /** a may come before b in the dialog's query: a smaller type, or the same type and a description not
      greater. */
  predicate ListedUpTo(a: Article, b: Article) {
    if a.tipo == b.tipo then StrLe(a.descrizione, b.descrizione) else StrLe(a.tipo, b.tipo)
  }

  predicate SortedListing(arts: seq<Article>) {
    forall i, j :: 0 <= i < j < |arts| ==> ListedUpTo(arts[i], arts[j])
  }

  /** The query's result: the catalog's in-stock articles, each once, sorted by type then description.
      Articles with the same type and description may come in either order, as in sqlite. */
  ghost predicate ListingOf(catalog: seq<Article>, arts: seq<Article>) {
    UniqueIds(arts) && (forall a :: a in arts <==> a in catalog && a.inMagazzino) && SortedListing(arts)
  }

  lemma ListedTotal(a: Article, b: Article)
    ensures ListedUpTo(a, b) || ListedUpTo(b, a)
  {
    StrLeTotal(a.tipo, b.tipo);
    StrLeTotal(a.descrizione, b.descrizione);
  }

  lemma ListedTransitive(a: Article, b: Article, c: Article)
    requires ListedUpTo(a, b) && ListedUpTo(b, c)
    ensures ListedUpTo(a, c)
  {
    if a.tipo == b.tipo && b.tipo == c.tipo {
      StrLeTransitive(a.descrizione, b.descrizione, c.descrizione);
    } else if a.tipo != b.tipo && b.tipo != c.tipo {
      StrLeTransitive(a.tipo, b.tipo, c.tipo);
      if a.tipo == c.tipo {
        StrLeAntisymmetric(a.tipo, b.tipo);
      }
    }
  }

  /** No article of s has a's code. */
  predicate IdFree(a: Article, s: seq<Article>) {
    forall i :: 0 <= i < |s| ==> s[i].id != a.id
  }

  /** a placed before the first article that may not come before it. */
  function InsertListed(a: Article, s: seq<Article>): (r: seq<Article>)
    ensures |r| == |s| + 1 && forall x :: x in r <==> x == a || x in s
  {
    if |s| == 0 || !ListedUpTo(s[0], a) then [a] + s
    else
      assert forall x :: x in s <==> x == s[0] || x in s[1..];
      [s[0]] + InsertListed(a, s[1..])
  }

  lemma {:induction false} InsertListedOk(a: Article, s: seq<Article>)
    requires SortedListing(s) && UniqueIds(s) && IdFree(a, s)
    ensures SortedListing(InsertListed(a, s)) && UniqueIds(InsertListed(a, s))
    decreases |s|
  {
    var r := InsertListed(a, s);
    if |s| == 0 {
    } else if !ListedUpTo(s[0], a) {
      ListedTotal(s[0], a);
      forall j | 0 < j < |r|
        ensures ListedUpTo(r[0], r[j]) && r[0].id != r[j].id
      {
        assert r[j] == s[j - 1];
        if j > 1 {
          ListedTransitive(a, s[0], s[j - 1]);
        }
      }
    } else {
      var rest := InsertListed(a, s[1..]);
      InsertListedOk(a, s[1..]);
      assert r == [s[0]] + rest;
      forall x | x in rest
        ensures ListedUpTo(s[0], x) && x.id != s[0].id
      {
        if x != a {
          var k :| 0 <= k < |s[1..]| && s[1..][k] == x;
          assert x == s[k + 1];
        }
      }
      forall j | 0 < j < |r|
        ensures ListedUpTo(r[0], r[j]) && r[0].id != r[j].id
      {
        assert r[j] == rest[j - 1] && r[j] in rest;
      }
    }
  }

  /** Insertion sort of the articles by type then description. */
  function SortListing(s: seq<Article>): (r: seq<Article>)
    ensures |r| == |s| && forall x :: x in r <==> x in s
  {
    if |s| == 0 then []
    else
      assert forall x :: x in s <==> x == s[0] || x in s[1..];
      InsertListed(s[0], SortListing(s[1..]))
  }

  lemma {:induction false} SortListingOk(s: seq<Article>)
    requires UniqueIds(s)
    ensures SortedListing(SortListing(s)) && UniqueIds(SortListing(s))
    decreases |s|
  {
    if |s| > 0 {
      var t := SortListing(s[1..]);
      SortListingOk(s[1..]);
      forall i | 0 <= i < |t|
        ensures t[i].id != s[0].id
      {
        assert t[i] in s[1..];
        var k :| 0 <= k < |s[1..]| && s[1..][k] == t[i];
        assert t[i] == s[k + 1];
      }
      InsertListedOk(s[0], t);
    }
  }

  /** The query always has an answer: a catalog with unique codes has a listing. */
  lemma ListingExists(catalog: seq<Article>)
    requires UniqueIds(catalog)
    ensures ListingOf(catalog, SortListing(InStock(catalog)))
  {
    SortListingOk(InStock(catalog));
  }

  /** The rows load builds from the listed articles, in the listing's order. */
  function LoadedRows(sup: map<LineKey, SuppletivoLine>, order: OrderId, arts: seq<Article>): (rows: seq<SRow>)
    ensures |rows| == |arts| && forall i :: 0 <= i < |arts| ==> rows[i] == ToSRow(sup, order, arts[i])
  {
    seq(|arts|, i requires 0 <= i < |arts| => ToSRow(sup, order, arts[i]))
  }

  /** The dialog's rows are those of the in-stock articles, one each, sorted by type then description. */
  lemma LoadedRowsListed(sup: map<LineKey, SuppletivoLine>, order: OrderId, catalog: seq<Article>, arts: seq<Article>)
    requires ListingOf(catalog, arts)
    ensures var rows := LoadedRows(sup, order, arts);
            UniqueSRowIds(rows)
            && (forall a :: a in catalog && a.inMagazzino ==> ToSRow(sup, order, a) in rows)
            && (forall i, j :: 0 <= i < j < |rows| ==> RowListedUpTo(rows[i], rows[j]))
  {
    var rows := LoadedRows(sup, order, arts);
    forall a | a in catalog && a.inMagazzino
      ensures ToSRow(sup, order, a) in rows
    {
      var i :| 0 <= i < |arts| && arts[i] == a;
      assert rows[i] == ToSRow(sup, order, a);
    }
    forall i, j | 0 <= i < j < |rows|
      ensures rows[i].id != rows[j].id && RowListedUpTo(rows[i], rows[j])
    {
      assert ListedUpTo(arts[i], arts[j]);
    }
  }

  /** The order of the query on the dialog's rows. */
  predicate RowListedUpTo(r: SRow, s: SRow) {
    if r.tipo == s.tipo then StrLe(r.descrizione, s.descrizione) else StrLe(r.tipo, s.tipo)
  }

  /** The save is accepted with a delivery date and a positive total weight. */
  predicate SaveAccepted(data: Option<Day>, totaleKg: int) { data.Some? && totaleKg > 0 }

  /** The supplemental lines that save inserts: the rows with a positive quantity. */
  function InsertRows(sup: map<LineKey, SuppletivoLine>, order: OrderId, rows: seq<SRow>): map<LineKey, SuppletivoLine>
    decreases |rows|
  {
    if |rows| == 0 then sup
    else
      var r := rows[|rows| - 1];
      var m := InsertRows(sup, order, rows[..|rows| - 1]);
      if r.quantita > 0 then m[(r.id, order) := SuppletivoLine(r.descrizione, r.quantita as nat)] else m
  }

  /** "delete from rigaOrdineSuppletivo where ID_Ordine = ?" followed by the inserts. */
  function SavedLines(sup: map<LineKey, SuppletivoLine>, order: OrderId, rows: seq<SRow>): map<LineKey, SuppletivoLine> {
    InsertRows(DropOrder(sup, order), order, rows)
  }

  predicate UniqueSRowIds(rows: seq<SRow>) {
    forall i, j :: 0 <= i < j < |rows| ==> rows[i].id != rows[j].id
  }

  /** After a save, the order's supplemental lines are exactly its rows with a positive quantity, and the
      lines of other orders are untouched. */
  lemma {:induction false} SavedLinesSpec(sup: map<LineKey, SuppletivoLine>, order: OrderId, rows: seq<SRow>, k: LineKey)
    requires UniqueSRowIds(rows)
    ensures k.1 != order ==> (k in SavedLines(sup, order, rows) <==> k in sup)
                             && (k in sup ==> SavedLines(sup, order, rows)[k] == sup[k])
    ensures k.1 == order ==>
              (k in SavedLines(sup, order, rows) <==> exists i :: 0 <= i < |rows| && rows[i].id == k.0 && rows[i].quantita > 0)
    ensures forall i :: 0 <= i < |rows| && rows[i].id == k.0 && rows[i].quantita > 0 && k.1 == order ==>
              SavedLines(sup, order, rows)[k] == SuppletivoLine(rows[i].descrizione, rows[i].quantita as nat)
    decreases |rows|
  {
    if |rows| > 0 {
      var p := rows[..|rows| - 1];
      assert forall i :: 0 <= i < |p| ==> p[i] == rows[i];
      SavedLinesSpec(sup, order, p, k);
      assert InsertRows(DropOrder(sup, order), order, p) == SavedLines(sup, order, p);
    }
  }

  class SuppletivoEditor {
    const idOrdine: OrderId
    var rows: seq<SRow>
    var totale: int
    var totaleKg: int
    var dirty: bool
    /** The combo's kinds and the selected one. */
    var tipoStore: seq<int>
    var tipoIndex: nat
    /** The delivery date of the date entry. */
    var data: Option<Day>

    /** The totals are the sums over the rows and the combo selects one of its kinds. */
    predicate Valid()
      reads this
    {
      RowsPriced(rows) && UniqueSRowIds(rows) && totale == SumImporto(rows) && totaleKg == SumKg(rows)
      && tipoIndex < |tipoStore|
    }

    /** The dialog opened on an order: the combo, then __loadModelFromDB over the articles the query lists,
        given as arts. */
    constructor (db: Db, arts: seq<Article>, order: OrderId, tipo: int, data0: Option<Day>)
      requires ListingOf(db.catalog, arts)
      ensures idOrdine == order && data == data0 && Valid()
      ensures rows == LoadedRows(db.suppletivo, order, arts)
      ensures tipoStore == [URGENTE, STRAORDINARIO]
      ensures dirty <==> tipo == ORDINARIO
    {
      idOrdine := order;
      data := data0;
      var st, ix, d := LoadCombo(tipo);
      tipoStore, tipoIndex, dirty := st, ix, d;
      var rs, t, tk := ReadRows(db.suppletivo, order, arts);
      rows, totale, totaleKg := rs, t, tk;
    }

    /** The loading loop: one row per article in stock, with the two totals summed along. */
    static method ReadRows(sup: map<LineKey, SuppletivoLine>, order: OrderId, arts: seq<Article>)
      returns (rs: seq<SRow>, t: int, tk: int)
      ensures rs == LoadedRows(sup, order, arts)
      ensures t == SumImporto(rs) && tk == SumKg(rs)
    {
      rs := [];
      t, tk := 0, 0;
      var k := 0;
      while k < |arts|
        invariant 0 <= k <= |arts|
        invariant rs == LoadedRows(sup, order, arts[..k])
        invariant t == SumImporto(rs) && tk == SumKg(rs)
      {
        var r := ToSRow(sup, order, arts[k]);
        SumsAppend(rs, r);
        assert LoadedRows(sup, order, arts[..k + 1]) == rs + [r];
        rs := rs + [r];
        tk := tk + r.quantita;
        t := t + r.quantita * r.prezzoKg;
        k := k + 1;
      }
      assert arts[..k] == arts;
    }

    /** __update: the kind or the date changed. */
    method ChangeTipo(index: nat)
      requires Valid() && index < |tipoStore|
      modifies this`tipoIndex, this`dirty
      ensures Valid() && tipoIndex == index && dirty
    {
      tipoIndex, dirty := index, true;
    }

    method ChangeData(d: Option<Day>)
      requires Valid()
      modifies this`data, this`dirty
      ensures Valid() && data == d && dirty
    {
      data, dirty := d, true;
    }

    /** __changeValue(row i, quantity): the totals move by the differences of quantity and amount. */
    method ChangeValue(i: nat, quantita: int)
      requires Valid() && i < |rows|
      modifies this`rows, this`totale, this`totaleKg, this`dirty
      ensures Valid() && dirty
      ensures rows == old(rows)[i := old(rows[i]).(quantita := quantita, importo := quantita * old(rows[i].prezzoKg))]
      ensures totaleKg == old(totaleKg) - old(rows[i].quantita) + quantita
      ensures totale == old(totale) - old(rows[i].quantita) * old(rows[i].prezzoKg) + quantita * old(rows[i].prezzoKg)
    {
      var row := rows[i];
      dirty := true;
      var importo := quantita * row.prezzoKg;
      var r' := row.(quantita := quantita, importo := importo);
      SumsUpdate(rows, i, r');
      totale := totale - (row.quantita * row.prezzoKg) + importo;
      totaleKg := totaleKg - row.quantita + quantita;
      rows := rows[i := r'];
    }

    /** The kind the combo selects. */
    function Tipo(): int
      reads this
      requires tipoIndex < |tipoStore|
    {
      tipoStore[tipoIndex]
    }

    /** The database after a committed save: the order's supplemental lines are replaced by the rows with a
        positive quantity, and the order gets the dialog's date and kind; the other tables are kept. */
    function SavedDb(db: Db): (db': Db)
      reads this
      requires tipoIndex < |tipoStore|
      ensures db'.catalog == db.catalog && db'.lines == db.lines && db'.verify == db.verify
      ensures db'.orders.Keys == db.orders.Keys
      ensures forall o :: o in db.orders && o != idOrdine ==> db'.orders[o] == db.orders[o]
    {
      db.(suppletivo := SavedLines(db.suppletivo, idOrdine, rows),
          orders := if idOrdine in db.orders
                    then db.orders[idOrdine := db.orders[idOrdine].(dataSuppletivo := data, suppletivo := Tipo())]
                    else db.orders)
    }

    /** __saveModelToDB: refused without a date or with nothing ordered; otherwise one transaction replaces
        the order's supplemental lines and sets its date and kind. It answers true even when the store fails,
        and the dialog stays dirty then. */
    method Save(store: Store, fails: bool) returns (ok: bool)
      requires Valid()
      modifies store, this`dirty
      ensures Valid()
      ensures ok <==> SaveAccepted(data, totaleKg)
      ensures !ok || fails ==> store.db == old(store.db) && dirty == old(dirty)
      ensures ok && !fails ==> !dirty && store.db == SavedDb(old(store.db))
    {
      if data.None? {
        return false;
      } else if totaleKg <= 0 {
        return false;
      }
      var tipo := tipoStore[tipoIndex];
      var sup := DropOrder(store.db.suppletivo, idOrdine);
      var k := 0;
      while k < |rows|
        invariant 0 <= k <= |rows|
        invariant sup == InsertRows(DropOrder(store.db.suppletivo, idOrdine), idOrdine, rows[..k])
      {
        assert rows[..k + 1][..k] == rows[..k];
        if rows[k].quantita > 0 {
          sup := sup[(rows[k].id, idOrdine) := SuppletivoLine(rows[k].descrizione, rows[k].quantita as nat)];
        }
        k := k + 1;
      }
      assert rows[..k] == rows;
      var orders := store.db.orders;
      if idOrdine in orders {
        orders := orders[idOrdine := orders[idOrdine].(dataSuppletivo := data, suppletivo := tipo)];
      }
      if !fails {
        store.db := store.db.(suppletivo := sup, orders := orders);
        dirty := false;
      }
      return true;
    }

    /** run: each round of the dialog answers OK or not; a dirty dialog left without OK asks whether to
        save. A refused save opens the dialog again. The rounds are the given answers, in order. */
    method Run(store: Store, answers: seq<Answer>, fails: bool) returns (rounds: nat)
      requires Valid()
      modifies store, this`dirty
      ensures Valid() && rounds <= |answers|
      ensures |answers| > 0 ==> rounds >= 1
      ensures !old(dirty) ==> rounds == (if |answers| > 0 then 1 else 0) && store.db == old(store.db)
      ensures SaveAccepted(data, totaleKg) ==> rounds == (if |answers| > 0 then 1 else 0)
      ensures !SaveAccepted(data, totaleKg) ==> store.db == old(store.db)
      ensures old(dirty) && !SaveAccepted(data, totaleKg) ==>
                forall k :: 0 <= k < rounds - 1 ==> WantsSave(answers[k])
      ensures old(dirty) && !SaveAccepted(data, totaleKg) && rounds < |answers| ==>
                rounds > 0 && !WantsSave(answers[rounds - 1])
      ensures old(dirty) && |answers| > 0 && WantsSave(answers[0]) && SaveAccepted(data, totaleKg) ==>
                store.db == (if fails then old(store.db) else SavedDb(old(store.db))) && dirty == fails
      ensures old(dirty) && |answers| > 0 && !WantsSave(answers[0]) ==>
                rounds == 1 && store.db == old(store.db) && dirty
    {
      var redo := true;
      rounds := 0;
      while redo && rounds < |answers|
        invariant Valid() && rounds <= |answers|
        invariant !redo ==> rounds >= 1
        invariant redo ==> dirty == old(dirty) && store.db == old(store.db)
        invariant rounds > 0 && !old(dirty) ==> !redo && rounds == 1 && store.db == old(store.db)
        invariant rounds > 0 && SaveAccepted(data, totaleKg) ==> !redo && rounds == 1
        invariant !SaveAccepted(data, totaleKg) ==> store.db == old(store.db) && dirty == old(dirty)
        invariant old(dirty) && !SaveAccepted(data, totaleKg) ==> forall k :: 0 <= k < rounds ==> (WantsSave(answers[k]) <==> k < rounds - 1 || redo)
        invariant rounds > 0 && old(dirty) && WantsSave(answers[0]) && SaveAccepted(data, totaleKg) ==>
                    store.db == (if fails then old(store.db) else SavedDb(old(store.db))) && dirty == fails
        invariant rounds > 0 && old(dirty) && !WantsSave(answers[0]) ==> !redo && rounds == 1 && store.db == old(store.db) && dirty
      {
        redo := false;
        var answer := answers[rounds];
        rounds := rounds + 1;
        var doSave := answer.ok;
        if dirty {
          if !doSave {
            doSave := answer.confirmSave;
          }
          if doSave {
            var saved := Save(store, fails);
            if !saved {
              redo := true;
            }
          }
        }
      }
    }
  }

  /** One round of the dialog: OK pressed, and the answer to "save the changes?" when it is asked. */
  datatype Answer = Answer(ok: bool, confirmSave: bool)

  predicate WantsSave(a: Answer) { a.ok || a.confirmSave }
}
