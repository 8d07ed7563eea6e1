/** The series behind the statistics dialogs (tabacchi/stats.py): for one article (StatsDialog.loadData)
    and for all articles together (GlobalStatsDialog.loadData), the rows of the orders in the chosen
    period become four series of equal length: dates, consumption, ordered weight and stock. Weights
    are kilograms rounded to three decimals by the source, so the model takes them as whole grams.
    The queries are inputs; the plots are not part of this model. */
module Stats {

  /** One row of the period's query, weights in grams (kg rounded to 3 decimals), the date in days. */
  datatype Row = Row(date: int, consumption: int, stock: int, order: int)

  /** A negative value is shown as 0 (`x if (x > 0) else 0`). */
  function Clamp(x: int): nat {
    if x > 0 then x else 0
  }

  function Dates(rows: seq<Row>): (r: seq<int>)
    ensures |r| == |rows| && forall k :: 0 <= k < |rows| ==> r[k] == rows[k].date
  {
    seq(|rows|, k requires 0 <= k < |rows| => rows[k].date)
  }

  function Consumption(rows: seq<Row>): (r: seq<nat>)
    ensures |r| == |rows| && forall k :: 0 <= k < |rows| ==> r[k] == Clamp(rows[k].consumption)
  {
    seq(|rows|, k requires 0 <= k < |rows| => Clamp(rows[k].consumption))
  }

  function Orders(rows: seq<Row>): (r: seq<nat>)
    ensures |r| == |rows| && forall k :: 0 <= k < |rows| ==> r[k] == Clamp(rows[k].order)
  {
    seq(|rows|, k requires 0 <= k < |rows| => Clamp(rows[k].order))
  }

  /** The order of the row before (oldOrdine): 0 for the first row, otherwise the previous row's
      rounded order, negative or not. */
  function PreviousOrder(rows: seq<Row>, k: nat): int
    requires k <= |rows|
  {
    if k == 0 then 0 else rows[k - 1].order
  }

  /** Per-article stock: the row's stock less what the previous order added, clamped at 0. */
  function ArticleStock(rows: seq<Row>): (r: seq<nat>)
    ensures |r| == |rows|
    ensures forall k :: 0 <= k < |rows| ==> r[k] == Clamp(rows[k].stock - PreviousOrder(rows, k))
  {
    seq(|rows|, k requires 0 <= k < |rows| => Clamp(rows[k].stock - PreviousOrder(rows, k)))
  }

  /** Global stock: the summed stock of the order, clamped at 0, with nothing subtracted. */
  function TotalStock(rows: seq<Row>): (r: seq<nat>)
    ensures |r| == |rows| && forall k :: 0 <= k < |rows| ==> r[k] == Clamp(rows[k].stock)
  {
    seq(|rows|, k requires 0 <= k < |rows| => Clamp(rows[k].stock))
  }

  /** Each series is built row by row: one more query row adds one entry at the end of every series and
      leaves the earlier entries alone; the per-article stock of the new row depends only on the row
      before it. */
  lemma SeriesSnoc(rows: seq<Row>, x: Row)
    ensures Dates(rows + [x]) == Dates(rows) + [x.date]
    ensures Consumption(rows + [x]) == Consumption(rows) + [Clamp(x.consumption)]
    ensures Orders(rows + [x]) == Orders(rows) + [Clamp(x.order)]
    ensures TotalStock(rows + [x]) == TotalStock(rows) + [Clamp(x.stock)]
    ensures ArticleStock(rows + [x]) == ArticleStock(rows) + [Clamp(x.stock - (if |rows| == 0 then 0 else rows[|rows| - 1].order))]
  {
    var r := rows + [x];
    var n := |rows|;
    forall k | 0 <= k < n
      ensures Dates(r)[k] == Dates(rows)[k] && Consumption(r)[k] == Consumption(rows)[k]
      ensures Orders(r)[k] == Orders(rows)[k] && TotalStock(r)[k] == TotalStock(rows)[k]
      ensures ArticleStock(r)[k] == ArticleStock(rows)[k]
    {
      assert r[k] == rows[k];
      assert PreviousOrder(r, k) == PreviousOrder(rows, k);
    }
    assert r[n] == x;
    Snoc(Dates(r), Dates(rows), x.date);
    Snoc(Consumption(r), Consumption(rows), Clamp(x.consumption));
    Snoc(Orders(r), Orders(rows), Clamp(x.order));
    Snoc(TotalStock(r), TotalStock(rows), Clamp(x.stock));
    Snoc(ArticleStock(r), ArticleStock(rows), Clamp(x.stock - PreviousOrder(r, n)));
  }

  /** A sequence one longer than b that starts with b's items. */
  lemma Snoc<T>(a: seq<T>, b: seq<T>, y: T)
    requires |a| == |b| + 1 && a[|b|] == y && forall k :: 0 <= k < |b| ==> a[k] == b[k]
    ensures a == b + [y]
  {
  }

  /** The two stock series agree on the first row and after every row with no order; when the orders
      are not negative the per-article stock never exceeds the global one. */
  lemma {:induction false} ArticleBelowTotal(rows: seq<Row>)
    ensures |rows| > 0 ==> ArticleStock(rows)[0] == TotalStock(rows)[0]
    ensures forall k :: 0 < k < |rows| && rows[k - 1].order == 0 ==> ArticleStock(rows)[k] == TotalStock(rows)[k]
    ensures (forall k :: 0 <= k < |rows| ==> rows[k].order >= 0) ==>
              forall k :: 0 <= k < |rows| ==> ArticleStock(rows)[k] <= TotalStock(rows)[k]
  {
    forall k | 0 <= k < |rows|
      ensures (k == 0 || rows[k - 1].order == 0) ==> ArticleStock(rows)[k] == TotalStock(rows)[k]
      ensures PreviousOrder(rows, k) >= 0 ==> ArticleStock(rows)[k] <= TotalStock(rows)[k]
    {
      assert ArticleStock(rows)[k] == Clamp(rows[k].stock - PreviousOrder(rows, k));
    }
  }

  /** The stock series of one article: the result of StatsDialog.loadData. */
  class StatsDialog {
    var dates: seq<int>
    var consumption: seq<nat>
    var stock: seq<nat>
    var orders: seq<nat>

    /** The four series always have the same length. */
    predicate Lockstep()
      reads this
    {
      |dates| == |consumption| == |stock| == |orders|
    }

    constructor ()
      ensures dates == [] && consumption == [] && stock == [] && orders == []
    {
      dates, consumption, stock, orders := [], [], [], [];
    }

    /** Clear the series, then append one value to each per row, carrying the previous row's order. */
    method LoadData(rows: seq<Row>)
      modifies this
      ensures Lockstep() && |dates| == |rows|
      ensures dates == Dates(rows) && consumption == Consumption(rows)
      ensures orders == Orders(rows) && stock == ArticleStock(rows)
    {
      var d, c, o, g := [], [], [], [];
      var oldOrder := 0;
      var k := 0;
      while k < |rows|
        invariant k <= |rows| && oldOrder == PreviousOrder(rows, k)
        invariant |d| == |c| == |o| == |g| == k
        invariant forall i :: 0 <= i < k ==> d[i] == rows[i].date
        invariant forall i :: 0 <= i < k ==> c[i] == Clamp(rows[i].consumption)
        invariant forall i :: 0 <= i < k ==> o[i] == Clamp(rows[i].order)
        invariant forall i :: 0 <= i < k ==> g[i] == Clamp(rows[i].stock - PreviousOrder(rows, i))
      {
        var row := rows[k];
        var level := row.stock - oldOrder;
        d := d + [row.date];
        c := c + [Clamp(row.consumption)];
        o := o + [Clamp(row.order)];
        g := g + [Clamp(level)];
        oldOrder := row.order;
        k := k + 1;
      }
      dates, consumption, orders, stock := d, c, o, g;
    }
  }

  /** One line of the most-bought list: description, total weight, last purchase date. */
  datatype Bought = Bought(description: string, totalWeight: int, lastDate: int)

  /** The series over all articles: the result of GlobalStatsDialog.loadData. */
  class GlobalStatsDialog {
    var bought: seq<Bought>
    var dates: seq<int>
    var consumption: seq<nat>
    var stock: seq<nat>
    var orders: seq<nat>

    predicate Lockstep()
      reads this
    {
      |dates| == |consumption| == |stock| == |orders|
    }

    constructor ()
      ensures bought == [] && dates == [] && consumption == [] && stock == [] && orders == []
    {
      bought, dates, consumption, stock, orders := [], [], [], [], [];
    }

    /** The most-bought list replaces the old one as the first query returns it; the series are
        cleared and grown as for one article, except that the stock is taken as it is. */
    method LoadData(best: seq<Bought>, rows: seq<Row>)
      modifies this
      ensures bought == best
      ensures Lockstep() && |dates| == |rows|
      ensures dates == Dates(rows) && consumption == Consumption(rows)
      ensures orders == Orders(rows) && stock == TotalStock(rows)
    {
      bought := best;
      var d, c, o, g := [], [], [], [];
      var k := 0;
      while k < |rows|
        invariant k <= |rows|
        invariant |d| == |c| == |o| == |g| == k
        invariant forall i :: 0 <= i < k ==> d[i] == rows[i].date
        invariant forall i :: 0 <= i < k ==> c[i] == Clamp(rows[i].consumption)
        invariant forall i :: 0 <= i < k ==> o[i] == Clamp(rows[i].order)
        invariant forall i :: 0 <= i < k ==> g[i] == Clamp(rows[i].stock)
      {
        var row := rows[k];
        d := d + [row.date];
        c := c + [Clamp(row.consumption)];
        o := o + [Clamp(row.order)];
        g := g + [Clamp(row.stock)];
        k := k + 1;
      }
      dates, consumption, orders, stock := d, c, o, g;
    }
  }
}
