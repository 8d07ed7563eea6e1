/** The printed documents (tabacchi/stampe.py): the order written on the U88 fax form (printU88Fax), 24
    lines by 2 blocks per page, one character per box, and the price labels (printLabels), a sheet of
    20 rows by 5 labels that starts at the row and column the user picks. The canvas drawing, the
    header fields, the fonts and the watermark are not part of this model: a page is the table of
    boxes the source fills before drawing it. */
module Printing {
  import opened Wrappers
  import opened Text

  // ---------------------------------------------------------------------------------------------
  // Weights as the form writes them

  /** Three digits, zero-padded: the fractional part of "%.3f" in grams. */
  function Decimals(n: nat): (s: string)
    requires n < 1000
    ensures |s| == 3 && AllDigits(s) && DigitsValue(s) == n
  {
    var h := [DigitChar(n / 100)];
    DigitRoundTrip(n / 100);
    assert h[..|h| - 1] == [];
    DigitsValueConcat2(h, Pad2(n % 100));
    h + Pad2(n % 100)
  }

  /** "%.3f" of a weight of g grams, in kilograms. */
  function Kilograms(g: nat): string {
    NatToString(g / 1000) + "." + Decimals(g % 1000)
  }

  /** "%7.3f": the kilograms right-justified to seven characters. */
  function Fixed(g: nat): string {
    RJust(Kilograms(g), 7)
  }

  /** "% 7.3f", as printU88Fax formats a weight: a blank in place of the plus sign, then the kilograms,
      right-justified to seven characters. */
  function SpaceFlagged(g: nat): string {
    RJust(" " + Kilograms(g), 7)
  }

  /** The six boxes of a weight: characters 0-2 (kilograms) and 4-6 (grams), skipping the point. */
  function WeightCells(s: string): string
    requires |s| >= 7
  {
    [s[0], s[1], s[2], s[4], s[5], s[6]]
  }

  /** What the form asks for: the kilograms right-justified in three boxes, the grams in three. */
  function IntendedCells(g: nat): (r: string)
    requires g < 1000000
    ensures |r| >= 3
  {
    RJust(NatToString(g / 1000), 3) + Decimals(g % 1000)
  }

  lemma NumberWidth(n: nat)
    ensures n < 1000 ==> |NatToString(n)| <= 3
    ensures n >= 100 ==> |NatToString(n)| >= 3
  {
    if n >= 10 {
      assert |NatToString(n)| == |NatToString(n / 10)| + 1;
      if n / 10 >= 10 {
        assert |NatToString(n / 10)| == |NatToString(n / 100)| + 1;
      }
    }
  }

  /** With "%7.3f" every weight under 1000 kg fills the boxes as the form asks. */
  lemma FixedCells(g: nat)
    requires g < 1000000
    ensures |Fixed(g)| == 7 && WeightCells(Fixed(g)) == IntendedCells(g)
  {
    var x := NatToString(g / 1000);
    var d := Decimals(g % 1000);
    NumberWidth(g / 1000);
    var a := RJust(x, 3);
    assert Fixed(g) == a + "." + d;
  }

  /** "% 7.3f" gives the same text as "%7.3f" under 100 kg. */
  lemma SpaceFlaggedBelow100(g: nat)
    requires g < 100000
    ensures SpaceFlagged(g) == Fixed(g)
  {
    var k := Kilograms(g);
    NumberWidth(g / 1000);
    assert |k| <= 6;
    assert seq(7 - |k| - 1, _ => ' ') + (" " + k) == seq(7 - |k|, _ => ' ') + k;
  }

  /** From 100 kg to 1000 kg "% 7.3f" is eight characters long: the decimal point falls in the
      fourth box and the last gram digit is lost. */
  lemma SpaceFlaggedShifts(g: nat)
    requires 100000 <= g < 1000000
    ensures |SpaceFlagged(g)| == 8 && WeightCells(SpaceFlagged(g))[3] == '.'
    ensures WeightCells(SpaceFlagged(g)) != IntendedCells(g)
  {
    NumberWidth(g / 1000);
    var s := SpaceFlagged(g);
    assert s == " " + NatToString(g / 1000) + "." + Decimals(g % 1000);
    assert s[4] == '.';
    var i := IntendedCells(g);
    assert i[3] == Decimals(g % 1000)[0];
    assert IsDigit(i[3]);
  }

  // ---------------------------------------------------------------------------------------------
  // The U88 form

  /** One order line: the article code and the ordered weight in grams. */
  datatype OrderLine = OrderLine(id: string, weight: nat)

  const FORM_ROWS: nat := 24
  const FORM_BLOCKS: nat := 2
  const BLOCK_WIDTH: nat := 14
  /** The boxes of a row, len(COL_WIDTHS). */
  const FORM_COLUMNS: nat := 27
  const PER_PAGE: nat := 48

  /** math.ceil(n / 48.0): the smallest number of pages with room for n lines. */
  function PageTotal(n: nat): (r: nat)
    ensures r * PER_PAGE >= n && (r > 0 ==> (r - 1) * PER_PAGE < n)
  {
    (n + PER_PAGE - 1) / PER_PAGE
  }

  /** The boxes a line uses, by column within its block; 5 and 9 are the gaps of the form. */
  predicate Slot(j: nat) {
    j < 13 && j != 5 && j != 9
  }

  /** The code's five characters in columns 0-4, the weight's six boxes in 6-8 and 10-12. */
  function Boxes(code: string, weight: string): (m: map<nat, char>)
    requires |code| >= 5 && |weight| >= 6
    ensures forall j :: j in m <==> Slot(j)
  {
    map j: nat | j < 13 && Slot(j) :: if j < 5 then code[j] else if j < 9 then weight[j - 6] else weight[j - 7]
  }

  /** The boxes of one line: the code right-justified to five characters, the weight as "%7.3f". */
  function LineCells(line: OrderLine): (m: map<nat, char>)
    ensures forall j :: j in m <==> Slot(j)
  {
    Boxes(RJust(line.id, 5), WeightCells(Fixed(line.weight)))
  }

  /** tableData: 24 rows of 27 boxes, each the empty string or one character. */
  type Grid = seq<seq<string>>

  predicate FormShape(g: Grid) {
    |g| == FORM_ROWS && forall r :: 0 <= r < |g| ==> |g[r]| == FORM_COLUMNS
  }

  /** A fresh page: every box empty. */
  function Blank(): (g: Grid)
    ensures FormShape(g)
  {
    seq(FORM_ROWS, _ => seq(FORM_COLUMNS, _ => ""))
  }

  /** A row with the given boxes, by column from base, overwritten. */
  function SetRow(boxes: seq<string>, base: nat, cells: map<nat, char>): (r: seq<string>)
    ensures |r| == |boxes|
    ensures forall c :: 0 <= c < |r| ==> r[c] == if c >= base && c - base in cells then [cells[c - base]] else boxes[c]
  {
    seq(|boxes|, c requires 0 <= c < |boxes| => if c >= base && c - base in cells then [cells[c - base]] else boxes[c])
  }

  /** The boxes of a line written at a row of a block, 14 boxes per block. */
  function Place(grid: Grid, row: nat, block: nat, cells: map<nat, char>): (g: Grid)
    requires row < |grid|
    ensures |g| == |grid| && forall r :: 0 <= r < |g| ==> |g[r]| == |grid[r]|
  {
    grid[row := SetRow(grid[row], BLOCK_WIDTH * block, cells)]
  }

  /** Place leaves every other box as it was. */
  lemma PlaceKeeps(grid: Grid, row: nat, block: nat, cells: map<nat, char>, r: nat, c: nat)
    requires row < |grid| && r < |grid| && c < |grid[r]|
    requires r != row || c < BLOCK_WIDTH * block || c - BLOCK_WIDTH * block !in cells
    ensures Place(grid, row, block, cells)[r][c] == grid[r][c]
  {
  }

  /** The lines lo..hi-1 of a page, the k-th at row k mod 24 of block (k div 24) mod 2, each with the
      boxes boxes(line). */
  function FillWith(boxes: OrderLine -> map<nat, char>, items: seq<OrderLine>, lo: nat, hi: nat): (g: Grid)
    requires lo <= hi <= |items|
    ensures FormShape(g)
    decreases hi
  {
    if hi == lo then Blank()
    else
      var m := hi - 1;
      Place(FillWith(boxes, items, lo, m), m % FORM_ROWS, (m / FORM_ROWS) % FORM_BLOCKS, boxes(items[m]))
  }

  /** totale: the sum of the weights. */
  function Sum(items: seq<OrderLine>): nat {
    if |items| == 0 then 0 else Sum(items[..|items| - 1]) + items[|items| - 1].weight
  }

  /** One printed page: its number, the page total, the boxes, and the total on the last page. */
  datatype FormPage = FormPage(number: nat, pageTotal: nat, cells: Grid, total: Option<nat>)

  /** Page p of a form whose lines fill the given boxes: lines 48p..48p+47, the total on the last page. */
  function PageWith(boxes: OrderLine -> map<nat, char>, items: seq<OrderLine>, p: nat): FormPage
    requires p < PageTotal(|items|)
  {
    var lo := PER_PAGE * p;
    var hi := if lo + PER_PAGE < |items| then lo + PER_PAGE else |items|;
    FormPage(p + 1, PageTotal(|items|), FillWith(boxes, items, lo, hi), if hi == |items| then Some(Sum(items)) else None)
  }

  /** What page p of PagesWith holds. */
  lemma PageParts(boxes: OrderLine -> map<nat, char>, items: seq<OrderLine>, p: nat)
    requires p < PageTotal(|items|)
    ensures var hi := if PER_PAGE * p + PER_PAGE < |items| then PER_PAGE * p + PER_PAGE else |items|;
            var page := PagesWith(boxes, items)[p];
            && page.number == p + 1
            && page.cells == FillWith(boxes, items, PER_PAGE * p, hi)
            && page.total == if hi == |items| then Some(Sum(items)) else None
  {
  }

  function PagesWith(boxes: OrderLine -> map<nat, char>, items: seq<OrderLine>): (r: seq<FormPage>)
    ensures |r| == PageTotal(|items|)
  {
    seq(PageTotal(|items|), p requires 0 <= p < PageTotal(|items|) => PageWith(boxes, items, p))
  }

  /** The pages of the form, one per 48 lines, each line with its code and weight boxes. */
  function FormPages(items: seq<OrderLine>): (r: seq<FormPage>)
    ensures |r| == PageTotal(|items|)
  {
    PagesWith(LineCells, items)
  }

  /** Two lines of the same page in the same row and block are the same line. */
  lemma SameBox(k: nat, m: nat, p: nat)
    requires PER_PAGE * p <= k < PER_PAGE * p + PER_PAGE && PER_PAGE * p <= m < PER_PAGE * p + PER_PAGE
    requires k % FORM_ROWS == m % FORM_ROWS && (k / FORM_ROWS) % FORM_BLOCKS == (m / FORM_ROWS) % FORM_BLOCKS
    ensures k == m
  {
    var a := k - PER_PAGE * p;
    var b := m - PER_PAGE * p;
    // A line's row and block are those of its place a on the page: the page adds two whole blocks.
    BoxOnPage(k, p, a);
    BoxOnPage(m, p, b);
    assert a == FORM_ROWS * (a / FORM_ROWS) + a % FORM_ROWS;
    assert b == FORM_ROWS * (b / FORM_ROWS) + b % FORM_ROWS;
  }

  lemma BoxOnPage(k: nat, p: nat, a: nat)
    requires a < PER_PAGE && k == PER_PAGE * p + a
    ensures k % FORM_ROWS == a % FORM_ROWS && (k / FORM_ROWS) % FORM_BLOCKS == a / FORM_ROWS
  {
    var q, r := a / 24, a % 24;
    assert a == 24 * q + r && 0 <= r < 24 && 0 <= q < 2;
    assert k == 24 * (2 * p + q) + r;
    assert k / 24 == 2 * p + q && k % 24 == r;
    assert (2 * p + q) % 2 == q;
  }

  /** Place writes each of the line's boxes. */
  lemma PlaceWrites(grid: Grid, row: nat, block: nat, cells: map<nat, char>, j: nat)
    requires row < |grid| && j in cells && BLOCK_WIDTH * block + j < |grid[row]|
    ensures Place(grid, row, block, cells)[row][BLOCK_WIDTH * block + j] == [cells[j]]
  {
  }

  /** One more line on the page. */
  lemma FillWithStep(boxes: OrderLine -> map<nat, char>, items: seq<OrderLine>, lo: nat, hi: nat)
    requires lo < hi <= |items|
    ensures FillWith(boxes, items, lo, hi)
            == Place(FillWith(boxes, items, lo, hi - 1), (hi - 1) % FORM_ROWS, ((hi - 1) / FORM_ROWS) % FORM_BLOCKS, boxes(items[hi - 1]))
  {
  }

  /** Every box of a line on a page holds what the line puts there: later lines of the page do not
      overwrite it. */
  lemma {:induction false} FillPlacement(boxes: OrderLine -> map<nat, char>, items: seq<OrderLine>, p: nat, hi: nat, k: nat, j: nat)
    requires forall line, i :: i in boxes(line) ==> i < BLOCK_WIDTH - 1
    requires PER_PAGE * p <= k < hi <= |items| && hi <= PER_PAGE * p + PER_PAGE
    requires j in boxes(items[k])
    ensures FillWith(boxes, items, PER_PAGE * p, hi)[k % FORM_ROWS][BLOCK_WIDTH * ((k / FORM_ROWS) % FORM_BLOCKS) + j]
            == [boxes(items[k])[j]]
    decreases hi
  {
    var m := hi - 1;
    var row := k % FORM_ROWS;
    var block := (k / FORM_ROWS) % FORM_BLOCKS;
    var col := BLOCK_WIDTH * block + j;
    var before := FillWith(boxes, items, PER_PAGE * p, m);
    FillWithStep(boxes, items, PER_PAGE * p, hi);
    assert j <= 12;
    if m != k {
      FillPlacement(boxes, items, p, m, k, j);
      var mblock := (m / FORM_ROWS) % FORM_BLOCKS;
      if row == m % FORM_ROWS && col >= BLOCK_WIDTH * mblock && col - BLOCK_WIDTH * mblock in boxes(items[m]) {
        SameBox(k, m, p);
      }
      PlaceKeeps(before, m % FORM_ROWS, mblock, boxes(items[m]), row, col);
    } else {
      PlaceWrites(before, row, block, boxes(items[k]), j);
    }
  }

  /** Line k of a form whose lines fill the boxes of boxes(line) is on page k div 48 + 1. */
  lemma LineOnPage(boxes: OrderLine -> map<nat, char>, items: seq<OrderLine>, k: nat, j: nat)
    requires forall line, i :: i in boxes(line) ==> i < BLOCK_WIDTH - 1
    requires k < |items| && j in boxes(items[k])
    ensures k / PER_PAGE < |PagesWith(boxes, items)|
    ensures var page := PagesWith(boxes, items)[k / PER_PAGE];
            && page.number == k / PER_PAGE + 1
            && page.cells[k % FORM_ROWS][BLOCK_WIDTH * ((k / FORM_ROWS) % FORM_BLOCKS) + j] == [boxes(items[k])[j]]
            && (page.total.Some? <==> k / PER_PAGE == PageTotal(|items|) - 1)
            && (page.total.Some? ==> page.total.value == Sum(items))
  {
    var n := |items|;
    var p := k / PER_PAGE;
    assert PER_PAGE * p <= k < PER_PAGE * p + PER_PAGE;
    assert p < PageTotal(n);
    PageParts(boxes, items, p);
    var hi := if PER_PAGE * p + PER_PAGE < n then PER_PAGE * p + PER_PAGE else n;
    FillPlacement(boxes, items, p, hi, k, j);
  }

  /** The k-th line is on page k div 48 + 1, at row k mod 24 of block (k div 24) mod 2; only the last
      page carries the total, which is the sum of all the weights. */
  lemma ItemPlacement(items: seq<OrderLine>, k: nat, j: nat)
    requires k < |items| && Slot(j)
    ensures k / PER_PAGE < |FormPages(items)|
    ensures var page := FormPages(items)[k / PER_PAGE];
            && page.number == k / PER_PAGE + 1
            && page.cells[k % FORM_ROWS][BLOCK_WIDTH * ((k / FORM_ROWS) % FORM_BLOCKS) + j] == [LineCells(items[k])[j]]
            && (page.total.Some? <==> k / PER_PAGE == PageTotal(|items|) - 1)
            && (page.total.Some? ==> page.total.value == Sum(items))
  {
    var boxes := LineCells;
    assert FormPages(items) == PagesWith(boxes, items);
    assert boxes(items[k]) == LineCells(items[k]);
    LineOnPage(boxes, items, k, j);
  }

  /** The line after line c: the next row of the block, the top of the next block after row 23, a
      new page after the second block. */
  lemma NextBox(c: nat)
    ensures (c + 1) % FORM_ROWS == if c % FORM_ROWS == FORM_ROWS - 1 then 0 else c % FORM_ROWS + 1
    ensures ((c + 1) / FORM_ROWS) % FORM_BLOCKS
            == if c % FORM_ROWS < FORM_ROWS - 1 then (c / FORM_ROWS) % FORM_BLOCKS
               else if (c / FORM_ROWS) % FORM_BLOCKS == 0 then 1 else 0
    ensures (c + 1) % PER_PAGE == 0 <==> c % FORM_ROWS == FORM_ROWS - 1 && (c / FORM_ROWS) % FORM_BLOCKS == 1
    ensures (c + 1) / PER_PAGE == if (c + 1) % PER_PAGE == 0 then c / PER_PAGE + 1 else c / PER_PAGE
  {
    var q := c / PER_PAGE;
    var b := (c % PER_PAGE) / FORM_ROWS;
    var r := (c % PER_PAGE) % FORM_ROWS;
    assert c == PER_PAGE * q + FORM_ROWS * b + r && b < 2 && r < FORM_ROWS;
    assert c % FORM_ROWS == r && c / FORM_ROWS == 2 * q + b;
    if r < 23 {
      assert c + 1 == PER_PAGE * q + FORM_ROWS * b + (r + 1);
    } else if b == 0 {
      assert c + 1 == PER_PAGE * q + FORM_ROWS * 1 + 0;
    } else {
      assert c + 1 == PER_PAGE * (q + 1);
    }
  }

  /** The page that goes out after its last line is the next page of the form. */
  lemma PageEmitted(boxes: OrderLine -> map<nat, char>, items: seq<OrderLine>, p: nat, hi: nat, grid: Grid, total: nat)
    requires p < PageTotal(|items|)
    requires hi == if PER_PAGE * p + PER_PAGE < |items| then PER_PAGE * p + PER_PAGE else |items|
    requires grid == FillWith(boxes, items, PER_PAGE * p, hi) && (hi == |items| ==> total == Sum(items))
    ensures FormPage(p + 1, PageTotal(|items|), grid, if hi == |items| then Some(total) else None) == PagesWith(boxes, items)[p]
  {
  }

  lemma SumStep(items: seq<OrderLine>, k: nat)
    requires k < |items|
    ensures Sum(items[..k + 1]) == Sum(items[..k]) + items[k].weight
  {
    assert items[..k + 1][..k] == items[..k];
  }

  /** Line c lies on page c div 48, which ends at its 48th line or at the last line. */
  lemma PageBounds(c: nat, n: nat)
    requires c < n
    ensures var p := c / PER_PAGE;
            && p < PageTotal(n) && PER_PAGE * p <= c < PER_PAGE * p + PER_PAGE
            && c / PER_PAGE * PER_PAGE == PER_PAGE * p
            && ((c + 1) % PER_PAGE == 0 || c + 1 == n ==>
                  c + 1 == if PER_PAGE * p + PER_PAGE < n then PER_PAGE * p + PER_PAGE else n)
  {
  }

  /** The arithmetic of a page's end: count lines written, the last of them on page p. */
  lemma PageEnd(count: nat, n: nat)
    requires 0 < count <= n && (count % PER_PAGE == 0 || count == n)
    ensures var p := (count - 1) / PER_PAGE;
            && p < PageTotal(n) && (count - 1) / PER_PAGE * PER_PAGE == PER_PAGE * p
            && count == (if PER_PAGE * p + PER_PAGE < n then PER_PAGE * p + PER_PAGE else n)
            && (count < n ==> count / PER_PAGE == p + 1 && count / PER_PAGE * PER_PAGE == count)
            && (count == n ==> PageTotal(n) == p + 1)
  {
    PageBounds(count - 1, n);
  }

  /** A prefix of t grows by t's next element and stays a prefix. */
  lemma AppendAgrees<T>(s: seq<T>, x: T, t: seq<T>)
    requires |s| < |t| && x == t[|s|] && forall q :: 0 <= q < |s| ==> s[q] == t[q]
    ensures forall q :: 0 <= q < |s| + 1 ==> (s + [x])[q] == t[q]
  {
  }

  /** The state of printU88Fax's loop after count lines, each filling boxes(line): where the next line
      goes, the total so far, the page being filled and the pages already out. */
  ghost predicate Written(boxes: OrderLine -> map<nat, char>, items: seq<OrderLine>, count: nat, row: nat, col: nat,
                          pageNum: nat, total: nat, grid: Grid, pages: seq<FormPage>)
  {
    && count <= |items|
    && row == count % FORM_ROWS && col == (count / FORM_ROWS) % FORM_BLOCKS
    && pageNum == count / PER_PAGE + 1
    && total == Sum(items[..count])
    && (count < |items| ==> grid == FillWith(boxes, items, count / PER_PAGE * PER_PAGE, count))
    && |pages| == (if count < |items| then count / PER_PAGE else PageTotal(|items|))
    && (forall q :: 0 <= q < |pages| ==> pages[q] == PagesWith(boxes, items)[q])
  }

  /** A page goes out once its last box is written (count lines so far) or the lines end: numbered,
      with the total on the last page only; a fresh form follows unless the lines have ended. */
  method EmitPage(boxes: OrderLine -> map<nat, char>, items: seq<OrderLine>, count: nat, pageNum: nat, total: nat,
                  grid: Grid, pages: seq<FormPage>)
    returns (grid': Grid, pages': seq<FormPage>)
    requires 0 < count <= |items| && (count % PER_PAGE == 0 || count == |items|)
    requires pageNum == (count - 1) / PER_PAGE + 1 && total == Sum(items[..count])
    requires grid == FillWith(boxes, items, (count - 1) / PER_PAGE * PER_PAGE, count)
    requires |pages| == (count - 1) / PER_PAGE && forall q :: 0 <= q < |pages| ==> pages[q] == PagesWith(boxes, items)[q]
    ensures |pages'| == (if count < |items| then count / PER_PAGE else PageTotal(|items|))
    ensures forall q :: 0 <= q < |pages'| ==> pages'[q] == PagesWith(boxes, items)[q]
    ensures count < |items| ==> grid' == FillWith(boxes, items, count / PER_PAGE * PER_PAGE, count)
  {
    var n := |items|;
    ghost var p := (count - 1) / PER_PAGE;
    PageEnd(count, n);
    if count == n {
      assert items[..count] == items;
    }
    var page := FormPage(pageNum, PageTotal(n), grid, if count == n then Some(total) else None);
    PageEmitted(boxes, items, p, count, grid, total);
    AppendAgrees(pages, page, PagesWith(boxes, items));
    pages' := pages + [page];
    grid' := grid;
    if count < n {
      grid' := Blank();
    }
  }

  /** One turn of printU88Fax's loop: the line's boxes are written, the row moves on (to the next block
      after row 23, to a new page after the second block), and a page goes out when it is full or
      the lines end. */
  method WriteLine(boxes: OrderLine -> map<nat, char>, items: seq<OrderLine>, count: nat, row: nat, col: nat,
                   pageNum: nat, total: nat, grid: Grid, pages: seq<FormPage>)
    returns (count': nat, row': nat, col': nat, pageNum': nat, total': nat, grid': Grid, pages': seq<FormPage>)
    requires count < |items| && Written(boxes, items, count, row, col, pageNum, total, grid, pages)
    ensures count' == count + 1 && Written(boxes, items, count', row', col', pageNum', total', grid', pages')
  {
    var n := |items|;
    PageBounds(count, n);
    FillWithStep(boxes, items, count / PER_PAGE * PER_PAGE, count + 1);
    grid' := Place(grid, row, col, boxes(items[count]));
    SumStep(items, count);
    total' := total + items[count].weight;
    count' := count + 1;
    var newPage;
    row', col', newPage := NextRow(count, row, col);
    PageStep(count);
    pageNum' := if newPage then pageNum + 1 else pageNum;
    if newPage || count' == n {
      grid', pages' := EmitPage(boxes, items, count', pageNum, total', grid', pages);
    } else {
      pages' := pages;
    }
  }

  /** The page number moves on exactly when a page is full. */
  lemma PageStep(c: nat)
    ensures (c + 1) / PER_PAGE == if (c + 1) % PER_PAGE == 0 then c / PER_PAGE + 1 else c / PER_PAGE
  {
    NextBox(c);
  }

  /** The row moves on: to the next block after row 23, to a new page after the second block. */
  method NextRow(count: nat, row: nat, col: nat) returns (row': nat, col': nat, newPage: bool)
    requires row == count % FORM_ROWS && col == (count / FORM_ROWS) % FORM_BLOCKS
    ensures row' == (count + 1) % FORM_ROWS && col' == ((count + 1) / FORM_ROWS) % FORM_BLOCKS
    ensures newPage <==> (count + 1) % PER_PAGE == 0
  {
    NextBox(count);
    row', col', newPage := row + 1, col, false;
    if row' >= FORM_ROWS {
      row' := 0;
      col' := col' + 1;
      if col' >= FORM_BLOCKS {
        col' := 0;
        newPage := true;
      }
    }
  }

  /** printU88Fax: nothing is printed without the preferences and the images it needs (ready); otherwise
      the lines are written one by one, each as its code and weight boxes, a page going out when its
      48 boxes are full or the lines end. */
  method PrintU88Fax(items: seq<OrderLine>, ready: bool) returns (pages: seq<FormPage>)
    ensures pages == if ready then FormPages(items) else []
  {
    pages := [];
    if |items| == 0 || !ready {
      return;
    }
    var grid := Blank();
    var count, pageNum, row, col, total := 0, 1, 0, 0, 0;
    while count < |items|
      invariant Written(LineCells, items, count, row, col, pageNum, total, grid, pages)
      decreases |items| - count
    {
      count, row, col, pageNum, total, grid, pages := WriteLine(LineCells, items, count, row, col, pageNum, total, grid, pages);
    }
    assert pages == FormPages(items);
  }

  // ---------------------------------------------------------------------------------------------
  // The price labels

  /** A label to print: the article, the pack weight in grams, the price per kilogram in milli-euro
      and the pieces in a pack (0 when unknown). */
  datatype Label = Label(description: string, unitaMin: nat, prezzoKg: nat, pezzi: nat)

  const SHEET_ROWS: nat := 20
  const SHEET_COLUMNS: nat := 5
  const PER_SHEET: nat := 100

  lemma QuotientBounds(x: int, d: int)
    requires x >= 0 && d > 0
    ensures x / d >= 0 && d * (x / d) <= x < d * (x / d) + d
  {
  }

  /** "%.2f" of the price of one piece, in cents: the pack's price shared among its pieces, rounded
      to the nearest cent. */
  function LabelCents(l: Label): nat
    requires l.pezzi > 0
  {
    var x := 2 * l.unitaMin * l.prezzoKg + 10000 * l.pezzi;
    var d := 20000 * l.pezzi;
    QuotientBounds(x, d);
    x / d
  }

  /** The printed cents are within half a cent of the exact piece price unitaMin * prezzoKg / pezzi,
      which is in hundredths of a cent when weights are grams and prices milli-euro per kilogram. */
  lemma CentsNearest(l: Label)
    requires l.pezzi > 0
    ensures var exact := l.unitaMin * l.prezzoKg;
            10000 * l.pezzi * LabelCents(l) - 5000 * l.pezzi <= exact < 10000 * l.pezzi * LabelCents(l) + 5000 * l.pezzi
  {
    var x := 2 * l.unitaMin * l.prezzoKg + 10000 * l.pezzi;
    var d := 20000 * l.pezzi;
    var r := x / d;
    assert d * r <= x < d * r + d;
    assert 20000 * l.pezzi * r == 2 * (10000 * l.pezzi * r);
  }

  /** "€ %.2f": the euro, a point and two digits of cents. */
  function PriceText(cents: nat): string {
    "€ " + NatToString(cents / 100) + "." + Pad2(cents % 100)
  }

  /** The digits of a price label, read without the sign and the point, give back the cents: two
      prices print alike only when they are equal. */
  lemma PriceTextCents(cents: nat)
    ensures var t := PriceText(cents);
            && |t| >= 6 && t[..2] == "€ " && t[|t| - 3] == '.'
            && AllDigits(t[2..|t| - 3] + t[|t| - 2..])
            && DigitsValue(t[2..|t| - 3] + t[|t| - 2..]) == cents
  {
    var euros := NatToString(cents / 100);
    var frac := Pad2(cents % 100);
    var t := PriceText(cents);
    NatToStringDigits(cents / 100);
    assert t == "€ " + euros + "." + frac;
    assert t[2..|t| - 3] == euros && t[|t| - 2..] == frac;
    DigitsValueConcat2(euros, frac);
  }

  lemma PriceTextInjective(a: nat, b: nat)
    requires PriceText(a) == PriceText(b)
    ensures a == b
  {
    PriceTextCents(a);
    PriceTextCents(b);
  }

  /** The text of a label: the price of one piece; an item without a count has none, and is skipped. */
  function LabelText(l: Label): string {
    if l.pezzi > 0 then PriceText(LabelCents(l)) else ""
  }

  /** tableData of a sheet, its 20 rows of 5 labels held row after row: the label at row r and
      column c is at place 5 * r + c. */
  type Sheet = seq<string>

  predicate SheetShape(t: Sheet) {
    |t| == PER_SHEET
  }

  function BlankSheet(): (t: Sheet)
    ensures SheetShape(t) && forall c :: 0 <= c < |t| ==> t[c] == ""
  {
    seq(PER_SHEET, _ => "")
  }

  /** The place of row r, column c of a sheet. */
  function At(row: nat, col: nat): nat {
    SHEET_COLUMNS * row + col
  }

  /** The label at place q of the sheet written. */
  function Put(t: Sheet, q: nat, text: string): (u: Sheet)
    requires SheetShape(t) && q < PER_SHEET
    ensures SheetShape(u)
  {
    t[q := text]
  }

  /** The sheets printed from item k on, each printed item showing text(item), the current sheet t
      filled up to place q (5 * row + col), q = 100 meaning full: a full sheet goes out, and a fresh
      one follows only while items remain; an item without its pieces count is skipped and takes no
      place; the last sheet goes out when the items end. */
  function Run(text: Label -> string, items: seq<Label>, k: nat, q: nat, t: Sheet): (r: seq<Sheet>)
    requires k <= |items| && q <= PER_SHEET && SheetShape(t)
    ensures |r| > 0
    decreases |items| - k, if q == PER_SHEET then 1 else 0
  {
    if q == PER_SHEET then [t] + (if k < |items| then Run(text, items, k, 0, BlankSheet()) else [])
    else if k == |items| then [t]
    else if items[k].pezzi == 0 then Run(text, items, k + 1, q, t)
    else Run(text, items, k + 1, q + 1, Put(t, q, text(items[k])))
  }

  /** printLabels from the chosen row and column: no document for an empty list, otherwise the sheets. */
  function LabelSheets(items: seq<Label>, row: nat, col: nat): seq<Sheet>
    requires row < SHEET_ROWS && col < SHEET_COLUMNS
  {
    if |items| == 0 then [] else Run(LabelText, items, 0, At(row, col), BlankSheet())
  }

  /** How many of the items lo..hi-1 are printed: for hi = |items| the labels still to come, for
      lo = 0 the place of item hi among the printed ones. */
  function PrintedRange(items: seq<Label>, lo: nat, hi: nat): nat
    requires lo <= hi <= |items|
    decreases hi - lo
  {
    if lo == hi then 0 else (if items[lo].pezzi > 0 then 1 else 0) + PrintedRange(items, lo + 1, hi)
  }

  /** The sheet being filled keeps what it had before position q. */
  lemma {:induction false} RunKeeps(text: Label -> string, items: seq<Label>, k: nat, q: nat, t: Sheet, c: nat)
    requires k <= |items| && q <= PER_SHEET && SheetShape(t) && c < q
    ensures SheetShape(Run(text, items, k, q, t)[0]) && Run(text, items, k, q, t)[0][c] == t[c]
    decreases |items| - k
  {
    if q < PER_SHEET && k < |items| {
      if items[k].pezzi == 0 {
        RunKeeps(text, items, k + 1, q, t, c);
      } else {
        var u := Put(t, q, text(items[k]));
        RunKeeps(text, items, k + 1, q + 1, u, c);
      }
    }
  }

  /** The sheets from item k on: one per 100 places taken, counting the q already taken, and one more
      unless the last place taken filled a sheet with the last item, so that items without a count
      after a full sheet still give a blank sheet. */
  lemma {:induction false} RunCount(text: Label -> string, items: seq<Label>, k: nat, q: nat, t: Sheet)
    requires 0 < |items| && k <= |items| && q <= PER_SHEET && SheetShape(t)
    requires k == |items| ==> 0 < q < PER_SHEET || (q == PER_SHEET && items[k - 1].pezzi > 0)
                              || (q == 0 && k > 0 && items[k - 1].pezzi == 0)
    ensures var taken := q + PrintedRange(items, k, |items|);
            |Run(text, items, k, q, t)| == taken / PER_SHEET
                                     + (if taken % PER_SHEET == 0 && items[|items| - 1].pezzi > 0 then 0 else 1)
    decreases |items| - k, if q == PER_SHEET then 1 else 0
  {
    if q == PER_SHEET {
      if k < |items| {
        RunCount(text, items, k, 0, BlankSheet());
      }
    } else if k < |items| {
      if items[k].pezzi == 0 {
        RunCount(text, items, k + 1, q, t);
      } else {
        RunCount(text, items, k + 1, q + 1, Put(t, q, text(items[k])));
      }
    }
  }

  /** A printed item m at or after k lands d places on from the start of the current sheet, d being q
      plus the printed items between k and m: on sheet d div 100, at row (d mod 100) div 5 and
      column d mod 5. */
  lemma {:induction false} RunPlaces(text: Label -> string, items: seq<Label>, k: nat, q: nat, t: Sheet, m: nat)
    requires k <= m < |items| && items[m].pezzi > 0 && q <= PER_SHEET && SheetShape(t)
    ensures var d := q + PrintedRange(items, k, m);
            && d / PER_SHEET < |Run(text, items, k, q, t)|
            && SheetShape(Run(text, items, k, q, t)[d / PER_SHEET])
            && Run(text, items, k, q, t)[d / PER_SHEET][d % PER_SHEET] == text(items[m])
    decreases |items| - k, if q == PER_SHEET then 1 else 0
  {
    var d := q + PrintedRange(items, k, m);
    var r := Run(text, items, k, q, t);
    if q == PER_SHEET {
      var rest := Run(text, items, k, 0, BlankSheet());
      assert r == [t] + rest;
      RunPlaces(text, items, k, 0, BlankSheet(), m);
      var e := d - PER_SHEET;
      assert d / PER_SHEET == e / PER_SHEET + 1 && d % PER_SHEET == e % PER_SHEET;
      assert r[d / PER_SHEET] == rest[e / PER_SHEET];
    } else if k < m {
      assert PrintedRange(items, k, m) == (if items[k].pezzi > 0 then 1 else 0) + PrintedRange(items, k + 1, m);
      if items[k].pezzi == 0 {
        assert r == Run(text, items, k + 1, q, t);
        RunPlaces(text, items, k + 1, q, t, m);
      } else {
        var u := Put(t, q, text(items[k]));
        assert r == Run(text, items, k + 1, q + 1, u);
        RunPlaces(text, items, k + 1, q + 1, u, m);
      }
    } else {
      var u := Put(t, q, text(items[k]));
      assert r == Run(text, items, k + 1, q + 1, u);
      assert d == q && d / PER_SHEET == 0 && d % PER_SHEET == q;
      RunKeeps(text, items, k + 1, q + 1, u, q);
    }
  }

  /** The sheets printLabels makes: none for an empty list; otherwise one per 100 places, counting the
      places before the chosen row and column, plus one unless the last item filled the last place
      of a sheet. */
  lemma LabelCount(items: seq<Label>, row: nat, col: nat)
    requires row < SHEET_ROWS && col < SHEET_COLUMNS
    ensures |items| == 0 ==> LabelSheets(items, row, col) == []
    ensures |items| > 0 ==>
              var taken := At(row, col) + PrintedRange(items, 0, |items|);
              |LabelSheets(items, row, col)|
                == taken / PER_SHEET + (if taken % PER_SHEET == 0 && items[|items| - 1].pezzi > 0 then 0 else 1)
  {
    if |items| > 0 {
      RunCount(LabelText, items, 0, At(row, col), BlankSheet());
    }
  }

  /** Every item with a pieces count gets its price label, the labels taking the places from the
      chosen row and column on, row by row, in the order of the items, skipped items taking none. */
  lemma LabelPlacement(items: seq<Label>, row: nat, col: nat, m: nat)
    requires row < SHEET_ROWS && col < SHEET_COLUMNS && m < |items| && items[m].pezzi > 0
    ensures var d := At(row, col) + PrintedRange(items, 0, m);
            && d / PER_SHEET < |LabelSheets(items, row, col)|
            && SheetShape(LabelSheets(items, row, col)[d / PER_SHEET])
            && LabelSheets(items, row, col)[d / PER_SHEET][d % PER_SHEET] == LabelText(items[m])
  {
    RunPlaces(LabelText, items, 0, At(row, col), BlankSheet(), m);
  }

  /** Concatenation regrouped, for a sheet moving from the pending ones to the printed ones. */
  lemma Regroup<T>(a: seq<T>, x: T, b: seq<T>)
    ensures a + ([x] + b) == (a + [x]) + b
  {
  }

  /** A row ends where the next one starts, and the 20th row ends where the sheet does. */
  lemma RowEnd(row: nat)
    ensures At(row, SHEET_COLUMNS) == At(row + 1, 0)
    ensures At(row, SHEET_COLUMNS) == PER_SHEET <==> row == SHEET_ROWS - 1
  {
  }

  /** One row of printLabels' inner loop: items are taken until the row's five labels are written or
      the items end; an item without a pieces count is only warned about. Nothing printed changes. */
  method FillRow(text: Label -> string, items: seq<Label>, count: nat, row: nat, col: nat, table: Sheet)
    returns (count': nat, col': nat, table': Sheet)
    requires count < |items| && row < SHEET_ROWS && col < SHEET_COLUMNS && SheetShape(table)
    ensures count < count' <= |items| && col' <= SHEET_COLUMNS && SheetShape(table')
    ensures count' == |items| || col' == SHEET_COLUMNS
    ensures Run(text, items, count', At(row, col'), table') == Run(text, items, count, At(row, col), table)
  {
    count', col', table' := count, col, table;
    while count' < |items| && col' < SHEET_COLUMNS
      invariant count <= count' <= |items| && col' <= SHEET_COLUMNS && SheetShape(table')
      invariant count' > count || col' < SHEET_COLUMNS
      invariant Run(text, items, count', At(row, col'), table') == Run(text, items, count, At(row, col), table)
      decreases |items| - count'
    {
      if items[count'].pezzi > 0 {
        table' := table'[At(row, col') := text(items[count'])];
        col' := col' + 1;
      }
      count' := count' + 1;
    }
  }

  /** printLabels' loop for labels showing text(item): row after row from the chosen row and column,
      each item with a pieces count taking the next label, an item without one only warned about; a
      sheet goes out when its 20th row ends or the items do. */
  method FillSheets(text: Label -> string, items: seq<Label>, row0: nat, col0: nat) returns (sheets: seq<Sheet>)
    requires 0 < |items| && row0 < SHEET_ROWS && col0 < SHEET_COLUMNS
    ensures sheets == Run(text, items, 0, At(row0, col0), BlankSheet())
  {
    sheets := [];
    var n := |items|;
    var table := BlankSheet();
    var count: nat, row: nat, col: nat := 0, row0, col0;
    ghost var final := Run(text, items, 0, At(row0, col0), BlankSheet());
    while count < n
      invariant count <= n && row < SHEET_ROWS && col < SHEET_COLUMNS && SheetShape(table)
      invariant count < n ==> sheets + Run(text, items, count, At(row, col), table) == final
      invariant count == n ==> sheets == final
      decreases n - count
    {
      count, col, table := FillRow(text, items, count, row, col, table);
      RowEnd(row);
      row := row + 1;
      if row == SHEET_ROWS || count == n {
        Regroup(sheets, table, if count < n then Run(text, items, count, 0, BlankSheet()) else []);
        sheets := sheets + [table];
        table := BlankSheet();
        row := 0;
      }
      col := 0;
    }
  }

  /** printLabels: nothing for an empty list (a warning instead); otherwise the sheets of price labels
      from the chosen row and column, which the dialog's spin buttons give as 1-20 and 1-5, less one. */
  method PrintLabels(items: seq<Label>, row0: nat, col0: nat) returns (sheets: seq<Sheet>)
    requires row0 < SHEET_ROWS && col0 < SHEET_COLUMNS
    ensures sheets == LabelSheets(items, row0, col0)
  {
    sheets := [];
    if |items| > 0 {
      sheets := FillSheets(LabelText, items, row0, col0);
    }
  }
}
