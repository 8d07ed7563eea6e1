/** The delivery plan pasted from the supplier's site (MainWindow.__parsePianoLevateFromClipboard,
    tabacchi/main.py:1238-1262). The copied table arrives on the clipboard as lines of six tab-separated
    fields: delivery date, order deadline, order, state, channel and type. The clipboard is read as a
    parameter; the popover refresh that follows is not part of this model. */
module PlanText {
  import opened Wrappers
  import opened Text
  import opened Calendar
  import opened Deadline
  import opened Prefs

  /** One pasted line as a plan row: exactly six fields and two dates that strptime accepts, or nothing. */
  function ParseLine(line: string): (r: Option<PlanRow>)
    ensures r.Some? ==> ValidRow(r.value)
    ensures r.Some? <==> var f := Split(line, '\t');
                         |f| == 6 && ParseDate(f[0]).Some? && ParseDateTime(f[1]).Some?
    ensures r.Some? ==> var f := Split(line, '\t');
                        r.value == PlanRow(ParseDate(f[0]).value, ParseDateTime(f[1]).value, f[2], f[3], f[4], f[5])
  {
    var f := Split(line, '\t');
    if |f| != 6 then None
    else
      match (ParseDate(f[0]), ParseDateTime(f[1]))
      case (Some(consegna), Some(dataLimite)) => Some(PlanRow(consegna, dataLimite, f[2], f[3], f[4], f[5]))
      case _ => None
  }

  /** The rows the loop appends: the lines that parse, in input order; the others are skipped. */
  function ParsedRows(lines: seq<string>): (rows: seq<PlanRow>)
    ensures ValidPlan(rows) && |rows| <= |lines|
  {
    if |lines| == 0 then []
    else
      var rest := ParsedRows(lines[1..]);
      match ParseLine(lines[0])
      case None => rest
      case Some(row) => [row] + rest
  }

  /** The parse is a filter: it works line by line and keeps the order of the lines. */
  lemma {:induction false} ParsedRowsAppend(a: seq<string>, b: seq<string>)
    ensures ParsedRows(a + b) == ParsedRows(a) + ParsedRows(b)
  {
    if |a| == 0 {
      assert a + b == b;
    } else {
      assert (a + b)[0] == a[0] && (a + b)[1..] == a[1..] + b;
      ParsedRowsAppend(a[1..], b);
    }
  }

  /** A single line gives its row or nothing. */
  lemma ParsedRowsOne(line: string)
    ensures ParsedRows([line]) == match ParseLine(line) case None => [] case Some(row) => [row]
  {
    assert [line][1..] == [];
  }

  /** __parsePianoLevateFromClipboard on the clipboard's text ("" when it holds none): a non-empty text
      empties the clipboard and replaces the plan with the rows of its lines that parse; an empty one
      changes nothing. Returns the clipboard's text afterwards. */
  method ParseClipboard(prefs: Preferences, text: string) returns (clipboard: string)
    requires prefs.Valid()
    modifies prefs`pianoConsegneList
    ensures prefs.Valid()
    ensures |text| == 0 ==> clipboard == text && prefs.pianoConsegneList == old(prefs.pianoConsegneList)
    ensures |text| > 0 ==> clipboard == "" && prefs.pianoConsegneList == ParsedRows(SplitLines(text))
  {
    clipboard := text;
    if |text| > 0 {
      clipboard := "";
      var lines := SplitLines(text);
      if |lines| > 0 {
        prefs.ClearPlan();
        for k := 0 to |lines|
          invariant prefs.Valid()
          invariant prefs.pianoConsegneList == ParsedRows(lines[..k])
        {
          AddLine(prefs, lines, k);
        }
        assert lines[..|lines|] == lines;
      }
    }
  }

  /** One turn of that loop: the row of line k, when it parses, is appended to the plan. */
  method AddLine(prefs: Preferences, lines: seq<string>, k: nat)
    requires prefs.Valid() && k < |lines| && prefs.pianoConsegneList == ParsedRows(lines[..k])
    modifies prefs`pianoConsegneList
    ensures prefs.Valid() && prefs.pianoConsegneList == ParsedRows(lines[..k + 1])
  {
    var row := ParseLine(lines[k]);
    ParsedRowsSnoc(lines, k);
    if row.Some? {
      prefs.AppendPlanRow(row.value);
    }
  }

  /** The rows of one more line. */
  lemma ParsedRowsSnoc(lines: seq<string>, k: nat)
    requires k < |lines|
    ensures ParsedRows(lines[..k + 1])
            == ParsedRows(lines[..k]) + match ParseLine(lines[k]) case None => [] case Some(row) => [row]
  {
    ParsedRowsAppend(lines[..k], [lines[k]]);
    ParsedRowsOne(lines[k]);
    assert lines[..k + 1] == lines[..k] + [lines[k]];
  }

  // ---------------------------------------------------------------------------------------------
  // What the site's table looks like once copied

  /** A row as the copied table holds it. */
  function PlanLine(row: PlanRow): string
    requires ValidRow(row)
  {
    Join([FormatDate(row.consegna), FormatDateTime(row.dataLimite), row.ordine, row.stato, row.canale, row.tipo], '\t')
  }

  /** The copied table: its rows, one per line. */
  function PlanTable(rows: seq<PlanRow>): string
    requires ValidPlan(rows)
  {
    Join(seq(|rows|, k requires 0 <= k < |rows| => PlanLine(rows[k])), '\n')
  }

  /** A text field fit for the table: no tab and no line boundary. */
  predicate Plain(s: string) { forall k :: 0 <= k < |s| ==> s[k] != '\t' && !IsLineBoundary(s[k]) }

  predicate PlainRow(row: PlanRow) { Plain(row.ordine) && Plain(row.stato) && Plain(row.canale) && Plain(row.tipo) }

  /** A copied line holds no line boundary, and parses back into its row. */
  lemma PlanLineParses(row: PlanRow)
    requires ValidRow(row) && PlainRow(row)
    ensures |PlanLine(row)| > 0 && forall k :: 0 <= k < |PlanLine(row)| ==> !IsLineBoundary(PlanLine(row)[k])
    ensures ParseLine(PlanLine(row)) == Some(row)
  {
    var parts := Fields(row);
    FieldsPlain(row);
    JoinNoBoundary(parts, '\t');
    SplitJoin(parts, '\t');
    assert Split(PlanLine(row), '\t') == parts;
    ParseFormatDate(row.consegna);
    ParseFormatDateTime(row.dataLimite);
  }

  /** The six fields of a table line. */
  function Fields(row: PlanRow): (parts: seq<string>)
    requires ValidRow(row)
    ensures |parts| == 6 && PlanLine(row) == Join(parts, '\t')
  {
    [FormatDate(row.consegna), FormatDateTime(row.dataLimite), row.ordine, row.stato, row.canale, row.tipo]
  }

  /** The fields of a plain row hold no tab and no line boundary. */
  lemma FieldsPlain(row: PlanRow)
    requires ValidRow(row) && PlainRow(row)
    ensures var parts := Fields(row);
            forall k :: 0 <= k < |parts| ==> '\t' !in parts[k] && forall j :: 0 <= j < |parts[k]| ==> !IsLineBoundary(parts[k][j])
  {
    var parts := Fields(row);
    FormatChars(row.dataLimite);
    forall k | 0 <= k < |parts|
      ensures '\t' !in parts[k] && forall j :: 0 <= j < |parts[k]| ==> !IsLineBoundary(parts[k][j])
    {
      if k < 2 {
        forall j | 0 <= j < |parts[k]|
          ensures parts[k][j] != '\t' && !IsLineBoundary(parts[k][j])
        {
          assert parts[k][j] in parts[k];
        }
      } else {
        assert Plain(parts[k]);
      }
    }
  }

  /** Joining pieces free of line boundaries with a tab gives a line free of them. */
  lemma {:induction false} JoinNoBoundary(parts: seq<string>, sep: char)
    requires !IsLineBoundary(sep)
    requires forall k :: 0 <= k < |parts| ==> forall j :: 0 <= j < |parts[k]| ==> !IsLineBoundary(parts[k][j])
    ensures |parts| > 1 ==> |Join(parts, sep)| > 0
    ensures forall j :: 0 <= j < |Join(parts, sep)| ==> !IsLineBoundary(Join(parts, sep)[j])
  {
    if |parts| > 1 {
      JoinNoBoundary(parts[1..], sep);
      var s := Join(parts, sep);
      var rest := Join(parts[1..], sep);
      assert s == parts[0] + [sep] + rest;
      forall j | 0 <= j < |s|
        ensures !IsLineBoundary(s[j])
      {
        if j < |parts[0]| {
          assert s[j] == parts[0][j];
        } else if j > |parts[0]| {
          assert s[j] == rest[j - |parts[0]| - 1];
        }
      }
    }
  }

  /** The first boundary of p + rest, when p has none and rest starts with one. */
  lemma FirstBoundaryAfter(p: string, rest: string)
    requires forall j :: 0 <= j < |p| ==> !IsLineBoundary(p[j])
    requires |rest| > 0 && IsLineBoundary(rest[0])
    ensures FirstBoundary(p + rest) == |p|
  {
    var s := p + rest;
    assert IsLineBoundary(s[|p|]);
    assert forall j :: 0 <= j < |p| ==> s[j] == p[j];
  }

  /** Lines joined with "\n" split back into the same lines, when none is empty or holds a boundary. */
  lemma {:induction false} SplitLinesJoin(lines: seq<string>)
    requires |lines| >= 1
    requires forall k :: 0 <= k < |lines| ==> |lines[k]| > 0
    requires forall k :: 0 <= k < |lines| ==> forall j :: 0 <= j < |lines[k]| ==> !IsLineBoundary(lines[k][j])
    ensures SplitLines(Join(lines, '\n')) == lines
    decreases |lines|
  {
    var p := lines[0];
    if |lines| == 1 {
      assert forall j :: 0 <= j < |p| ==> !IsLineBoundary(p[j]);
    } else {
      var rest := Join(lines[1..], '\n');
      var s := Join(lines, '\n');
      assert s == p + (['\n'] + rest);
      FirstBoundaryAfter(p, ['\n'] + rest);
      assert s[|p|] == '\n';
      assert s[|p| + 1..] == rest;
      SplitLinesJoin(lines[1..]);
      assert lines == [p] + lines[1..];
    }
  }

  /** Copy-and-paste round trip: pasting the table of a plan whose text fields hold no tab and no line
      boundary gives the plan back, in the same order. */
  lemma PlanTableRoundTrip(rows: seq<PlanRow>)
    requires |rows| > 0 && ValidPlan(rows)
    requires forall k :: 0 <= k < |rows| ==> PlainRow(rows[k])
    ensures |PlanTable(rows)| > 0
    ensures ParsedRows(SplitLines(PlanTable(rows))) == rows
  {
    var lines := seq(|rows|, k requires 0 <= k < |rows| => PlanLine(rows[k]));
    forall k | 0 <= k < |rows|
      ensures |lines[k]| > 0 && forall j :: 0 <= j < |lines[k]| ==> !IsLineBoundary(lines[k][j])
      ensures ParseLine(lines[k]) == Some(rows[k])
    {
      PlanLineParses(rows[k]);
    }
    SplitLinesJoin(lines);
    AllParse(lines, rows);
  }

  lemma {:induction false} AllParse(lines: seq<string>, rows: seq<PlanRow>)
    requires |lines| == |rows|
    requires forall k :: 0 <= k < |rows| ==> ParseLine(lines[k]) == Some(rows[k])
    ensures ParsedRows(lines) == rows
  {
    if |lines| > 0 {
      AllParse(lines[1..], rows[1..]);
      assert rows == [rows[0]] + rows[1..];
    }
  }
}
