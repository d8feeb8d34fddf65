/** Lines, words and pipe tables of markdown (agent/src/core/channels/markdown_html.rs, lines 211-350). */
module MarkdownTables {
  import opened Base
  import opened Text
  import opened HtmlTokens
  import opened HtmlTexts

  /** Widest grid, in characters, that a phone shows without wrapping. */
  const MOBILE_GRID_MAX_WIDTH: nat := 34

  // -------------------------------------------------------------------------
  // Rows
  // -------------------------------------------------------------------------

  predicate IsTableRow(line: string) {
    var t := Trim(line);
    t != "" && '|' in t
  }

  predicate IsTableSeparator(line: string) {
    var t := Trim(line);
    '-' in t && forall i :: 0 <= i < |t| ==> t[i] == '|' || t[i] == '-' || t[i] == ':' || t[i] == ' '
  }

  function TrimAll(cells: seq<string>): (r: seq<string>)
    ensures |r| == |cells|
  {
    if cells == [] then [] else [Trim(cells[0])] + TrimAll(cells[1..])
  }

  function SplitRow(line: string): (cells: seq<string>)
    ensures cells != []
  {
    var t := Trim(line);
    var t1 := if t != "" && t[0] == '|' then t[1..] else t;
    var t2 := if t1 != "" && t1[|t1| - 1] == '|' then t1[..|t1| - 1] else t1;
    TrimAll(Split(t2, '|'))
  }

  /** `cells.resize(n, "")`. */
  function Resize(cells: seq<string>, n: nat): (r: seq<string>)
    ensures |r| == n
    ensures forall c :: 0 <= c < n ==> r[c] == if c < |cells| then cells[c] else ""
  {
    seq(n, (c: nat) => if c < |cells| then cells[c] else "")
  }

  /** Line behind the last row of the table. */
  function TableEnd(lines: seq<string>, idx: nat): (e: nat)
    requires idx <= |lines|
    ensures idx <= e <= |lines|
    decreases |lines| - idx
  {
    if idx < |lines| && IsTableRow(lines[idx]) && !IsTableSeparator(lines[idx]) then TableEnd(lines, idx + 1) else idx
  }

  predicate Rectangular(rows: seq<seq<string>>, ncols: nat) {
    forall r :: 0 <= r < |rows| ==> |rows[r]| == ncols
  }

  /** The rows between lines 2 and `end`, `n` cells each. */
  function BodyRows(lines: seq<string>, end: nat, n: nat): (rows: seq<seq<string>>)
    requires 2 <= end <= |lines|
    ensures |rows| == end - 2 && Rectangular(rows, n)
  {
    if end == 2 then [] else BodyRows(lines, end - 1, n) + [Resize(SplitRow(lines[end - 1]), n)]
  }

  /** The header and the rows between lines 2 and `end`, all as wide as the header. */
  function TableRows(lines: seq<string>, end: nat): (rows: seq<seq<string>>)
    requires 2 <= end <= |lines|
    ensures |rows| == end - 1 && rows[0] == SplitRow(lines[0]) && Rectangular(rows, |rows[0]|)
  {
    [SplitRow(lines[0])] + BodyRows(lines, end, |SplitRow(lines[0])|)
  }

  // -------------------------------------------------------------------------
  // Grid
  // -------------------------------------------------------------------------

  /** Length of the longest cell of a column. */
  function Width(rows: seq<seq<string>>, ncols: nat, c: nat): (w: nat)
    requires Rectangular(rows, ncols) && c < ncols
    ensures forall r :: 0 <= r < |rows| ==> |rows[r][c]| <= w
    ensures w > 0 ==> exists r :: 0 <= r < |rows| && |rows[r][c]| == w
  {
    if rows == [] then 0 else
    var last := rows[|rows| - 1];
    var before := Width(rows[..|rows| - 1], ncols, c);
    assert forall r :: 0 <= r < |rows| - 1 ==> rows[..|rows| - 1][r] == rows[r];
    if |last[c]| > before then |last[c]| else before
  }

  function Widths(rows: seq<seq<string>>, ncols: nat): (w: seq<nat>)
    requires Rectangular(rows, ncols)
    ensures |w| == ncols && forall c :: 0 <= c < ncols ==> w[c] == Width(rows, ncols, c)
  {
    seq(ncols, (c: nat) requires c < ncols => Width(rows, ncols, c))
  }

  function Sum(widths: seq<nat>): nat {
    if widths == [] then 0 else Sum(widths[..|widths| - 1]) + widths[|widths| - 1]
  }

  /** Columns and the three characters between neighbours. */
  function GridWidth(widths: seq<nat>): nat {
    Sum(widths) + 3 * (if widths == [] then 0 else |widths| - 1)
  }

  function Spaces(n: nat): (s: string)
    ensures |s| == n && forall i :: 0 <= i < n ==> s[i] == ' '
  {
    seq(n, (_: nat) => ' ')
  }

  function Pad(cell: string, width: nat): (s: string)
    ensures |s| == if |cell| < width then width else |cell|
  {
    cell + Spaces(if width < |cell| then 0 else width - |cell|)
  }

  function Padded(cells: seq<string>, widths: seq<nat>): (r: seq<string>)
    ensures |r| == |widths|
    ensures forall c :: 0 <= c < |r| ==> r[c] == Pad(if c < |cells| then cells[c] else "", widths[c])
  {
    seq(|widths|, (c: nat) requires c < |widths| => Pad(if c < |cells| then cells[c] else "", widths[c]))
  }

  function FormatRow(cells: seq<string>, widths: seq<nat>): string {
    JoinWith(Padded(cells, widths), " | ")
  }

  /** Columns line up: every formatted row of the grid has the grid's width. */
  lemma FormatRowWidth(rows: seq<seq<string>>, ncols: nat, r: nat)
    requires Rectangular(rows, ncols) && r < |rows|
    ensures |FormatRow(rows[r], Widths(rows, ncols))| == GridWidth(Widths(rows, ncols))
  {
    var widths := Widths(rows, ncols);
    var padded := Padded(rows[r], widths);
    forall c | 0 <= c < |padded| ensures |padded[c]| == widths[c] {
      assert |rows[r][c]| <= Width(rows, ncols, c);
    }
    JoinLength(padded, widths);
  }

  lemma {:induction false} JoinLength(parts: seq<string>, widths: seq<nat>)
    requires |parts| == |widths| && forall c :: 0 <= c < |parts| ==> |parts[c]| == widths[c]
    ensures |JoinWith(parts, " | ")| == GridWidth(widths)
  {
    if |parts| == 1 {
      assert widths[..|widths| - 1] == [] && Sum([]) == 0;
      assert Sum(widths) == widths[0];
    } else if |parts| > 1 {
      JoinLength(parts[..|parts| - 1], widths[..|parts| - 1]);
    }
  }

  function GridLines(rows: seq<seq<string>>, widths: seq<nat>): (r: seq<string>)
    ensures |r| == |rows|
    ensures forall k :: 0 <= k < |r| ==> r[k] == TrimEnd(FormatRow(rows[k], widths))
  {
    seq(|rows|, (k: nat) requires k < |rows| => TrimEnd(FormatRow(rows[k], widths)))
  }

  // -------------------------------------------------------------------------
  // Records
  // -------------------------------------------------------------------------

  function RecordLine(header: seq<string>, row: seq<string>, c: nat): string
    requires |row| == |header| && c < |row|
  {
    if c == 0 then "<b>" + Escaped(row[0], TEXT) + "</b>"
    else "  " + Escaped(header[c], TEXT) + ": " + Escaped(row[c], TEXT)
  }

  function RecordLines(header: seq<string>, row: seq<string>): (r: seq<string>)
    requires |row| == |header|
    ensures |r| == |row| && forall c :: 0 <= c < |r| ==> r[c] == RecordLine(header, row, c)
  {
    seq(|row|, (c: nat) requires c < |row| => RecordLine(header, row, c))
  }

  function RecordText(header: seq<string>, row: seq<string>): string
    requires |row| == |header|
  {
    JoinWith(RecordLines(header, row), "\n")
  }

  function RecordsOf(header: seq<string>, rows: seq<seq<string>>): seq<string>
    requires Rectangular(rows, |header|)
  {
    if rows == [] then [] else
    var init, last := rows[..|rows| - 1], rows[|rows| - 1];
    assert Rectangular(init, |header|);
    RecordsOf(header, init) + [RecordText(header, last)]
  }

  lemma {:induction false} RecordsOfAt(header: seq<string>, rows: seq<seq<string>>, k: nat)
    requires Rectangular(rows, |header|) && k < |rows|
    ensures |RecordsOf(header, rows)| == |rows| && RecordsOf(header, rows)[k] == RecordText(header, rows[k])
  {
    hide RecordText;
    var init := rows[..|rows| - 1];
    if k < |init| {
      RecordsOfAt(header, init, k);
    } else if init != [] {
      RecordsOfAt(header, init, 0);
    }
  }

  function Records(rows: seq<seq<string>>): seq<string>
    requires rows != [] && Rectangular(rows, |rows[0]|)
  {
    assert Rectangular(rows[1..], |rows[0]|);
    RecordsOf(rows[0], rows[1..])
  }

  predicate ShownAsGrid(rows: seq<seq<string>>)
    requires rows != [] && Rectangular(rows, |rows[0]|)
  {
    |rows| <= 1 || GridWidth(Widths(rows, |rows[0]|)) <= MOBILE_GRID_MAX_WIDTH
  }

  function TableHtml(rows: seq<seq<string>>): string
    requires rows != [] && Rectangular(rows, |rows[0]|)
  {
    if ShownAsGrid(rows) then
      "<pre>" + Escaped(JoinWith(GridLines(rows, Widths(rows, |rows[0]|)), "\n"), TEXT) + "</pre>"
    else JoinWith(Records(rows), "\n\n")
  }

  /** A grid with data rows never has a line wider than a phone shows. */
  lemma GridFitsThePhone(rows: seq<seq<string>>, k: nat)
    requires |rows| > 1 && Rectangular(rows, |rows[0]|) && ShownAsGrid(rows) && k < |rows|
    ensures |GridLines(rows, Widths(rows, |rows[0]|))[k]| <= MOBILE_GRID_MAX_WIDTH
  {
    FormatRowWidth(rows, |rows[0]|, k);
  }

  // -------------------------------------------------------------------------
  // The loops
  // -------------------------------------------------------------------------

  method CollectRows(lines: seq<string>) returns (rows: seq<seq<string>>, consumed: nat)
    requires |lines| >= 2
    ensures consumed == TableEnd(lines, 2) && rows == TableRows(lines, consumed)
  {
    hide SplitRow, IsTableRow, IsTableSeparator;
    var header := SplitRow(lines[0]);
    var ncols := |header|;
    rows := [header];
    consumed := 2;
    var idx := 2;
    while idx < |lines| && IsTableRow(lines[idx]) && !IsTableSeparator(lines[idx])
      invariant 2 <= idx == consumed <= |lines|
      invariant TableEnd(lines, 2) == TableEnd(lines, idx)
      invariant rows == TableRows(lines, idx)
    {
      var cells := Resize(SplitRow(lines[idx]), ncols);
      rows := rows + [cells];
      consumed := consumed + 1;
      idx := idx + 1;
    }
  }

  method MeasureColumns(rows: seq<seq<string>>, ncols: nat) returns (widths: seq<nat>)
    requires Rectangular(rows, ncols)
    ensures widths == Widths(rows, ncols)
  {
    widths := seq(ncols, (_: nat) => 0);
    assert rows[..0] == [];
    for r := 0 to |rows|
      invariant |widths| == ncols
      invariant Rectangular(rows[..r], ncols)
      invariant forall c :: 0 <= c < ncols ==> widths[c] == Width(rows[..r], ncols, c)
    {
      assert rows[..r + 1][..r] == rows[..r] && rows[..r + 1][r] == rows[r];
      ghost var before := widths;
      for c := 0 to ncols
        invariant |widths| == ncols
        invariant forall d :: 0 <= d < c ==> widths[d] == (if |rows[r][d]| > before[d] then |rows[r][d]| else before[d])
        invariant forall d :: c <= d < ncols ==> widths[d] == before[d]
      {
        widths := widths[c := if widths[c] < |rows[r][c]| then |rows[r][c]| else widths[c]];
      }
      assert Rectangular(rows[..r + 1], ncols);
    }
    assert rows[..|rows|] == rows;
  }

  method RenderGrid(rows: seq<seq<string>>, widths: seq<nat>) returns (grid: string)
    ensures grid == JoinWith(GridLines(rows, widths), "\n")
  {
    hide FormatRow;
    grid := "";
    var shown := GridLines(rows, widths);
    assert shown[..0] == [];
    for r := 0 to |rows|
      invariant grid == JoinWith(shown[..r], "\n")
    {
      assert shown[..r + 1] == shown[..r] + [shown[r]];
      JoinAdd(shown[..r], shown[r], "\n");
      if r > 0 {
        grid := grid + "\n";
      }
      grid := grid + TrimEnd(FormatRow(rows[r], widths));
    }
    assert shown[..|rows|] == shown;
  }

  method RenderRecord(header: seq<string>, row: seq<string>) returns (record: string)
    requires |row| == |header| > 0
    ensures record == RecordText(header, row)
  {
    hide Escaped;
    var title := Escape(row[0]);
    var outLines := ["<b>" + title + "</b>"];
    for c := 1 to |row|
      invariant |outLines| == c
      invariant forall k :: 0 <= k < c ==> outLines[k] == RecordLine(header, row, k)
    {
      var name := Escape(header[c]);
      var value := Escape(row[c]);
      outLines := outLines + ["  " + name + ": " + value];
    }
    assert outLines == RecordLines(header, row);
    record := JoinWith(outLines, "\n");
  }

  method RenderTable(lines: seq<string>) returns (html: string, consumed: nat)
    requires |lines| >= 2
    ensures consumed == TableEnd(lines, 2) && html == TableHtml(TableRows(lines, consumed))
  {
    hide SplitRow, JoinWith, Escaped, Widths, TableRows, TableEnd, GridLines, RecordText;
    var rows;
    rows, consumed := CollectRows(lines);
    var ncols := |rows[0]|;
    var widths := MeasureColumns(rows, ncols);
    if |rows| <= 1 || GridWidth(widths) <= MOBILE_GRID_MAX_WIDTH {
      var grid := RenderGrid(rows, widths);
      grid := Escape(grid);
      html := "<pre>" + grid + "</pre>";
    } else {
      var records: seq<string> := [];
      for r := 1 to |rows|
        invariant Rectangular(rows[1..r], ncols) && records == RecordsOf(rows[0], rows[1..r])
      {
        var record := RenderRecord(rows[0], rows[r]);
        assert rows[1..r + 1][..r - 1] == rows[1..r] && rows[1..r + 1][r - 1] == rows[r];
        records := records + [record];
      }
      assert rows[1..|rows|] == rows[1..];
      html := JoinWith(records, "\n\n");
    }
  }
}
