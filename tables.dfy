/**
 * The table helpers of components/CaseViewer.tsx: `cleanCell`, `splitRow` and
 * `TableRenderer`, which pads every row to the widest row and renders each cell with
 * `parseInline`.
 */
module Tables {
  import opened Wrappers
  import opened Text
  import opened Types
  import opened Inline

  /** The row with surrounding whitespace and at most one outer `|` on each side removed. */
  function RowInterior(row: string): string {
    DropTrailingBar(DropLeadingBar(Trim(row)))
  }

  function DropLeadingBar(t: string): string {
    if StartsWith(t, "|") then t[1..] else t
  }

  function DropTrailingBar(u: string): string {
    if EndsWith(u, "|") then u[..|u| - 1] else u
  }

  /** `cleanCell`. */
  function CleanCell(cell: string): string {
    Trim(cell)
  }

  /** `splitRow`: the interior split at every `|`, each part trimmed. */
  function SplitRow(row: string): (cells: seq<string>)
    ensures |cells| == Occurrences(RowInterior(row), '|') + 1
    ensures forall k :: 0 <= k < |cells| ==> IsTrimmed(cells[k]) && '|' !in cells[k]
  {
    CleanCells(Split(RowInterior(row), '|'))
  }

  /** `.map(cleanCell)`. */
  function CleanCells(parts: seq<string>): (cells: seq<string>)
    ensures |cells| == |parts|
    ensures forall k :: 0 <= k < |parts| ==> cells[k] == Trim(parts[k])
  {
    seq(|parts|, k requires 0 <= k < |parts| => CleanCell(parts[k]))
  }

  /** A row written back: the cells between outer bars. */
  function FormatRow(cells: seq<string>): string
    requires |cells| >= 1
  {
    "|" + Join(cells, '|') + "|"
  }

  lemma JoinFree(parts: seq<string>, sep: char, c: char)
    requires |parts| >= 1 && c != sep
    requires forall k :: 0 <= k < |parts| ==> c !in parts[k]
    ensures c !in Join(parts, sep)
  {
    if |parts| > 1 {
      JoinFree(parts[1..], sep, c);
    }
  }

  /** Splitting a formatted row gives back its cells, whatever they are, as long as they are
      trimmed and hold no bar. */
  lemma SplitRowFormatRow(cells: seq<string>)
    requires |cells| >= 1
    requires forall k :: 0 <= k < |cells| ==> IsTrimmed(cells[k]) && '|' !in cells[k]
    ensures SplitRow(FormatRow(cells)) == cells
  {
    var j := Join(cells, '|');
    var row := FormatRow(cells);
    assert row[0] == '|' && row[|row| - 1] == '|';
    TrimTrimmed(row);
    assert StartsWith(row, "|");
    var u := row[1..];
    assert u == j + "|";
    assert EndsWith(u, "|");
    assert RowInterior(row) == j;
    SplitJoin(cells, '|');
    forall k | 0 <= k < |cells| ensures CleanCell(cells[k]) == cells[k] {
      TrimTrimmed(cells[k]);
    }
  }

  /** A row with no bar in it is one cell: the trimmed row. */
  lemma SplitRowNoBar(row: string)
    requires '|' !in row
    ensures SplitRow(row) == [Trim(row)]
  {
    var t := Trim(row);
    if '|' in t {
      TrimKeepsCharacters(row, '|');
    }
    BarFreeInterior(t);
    SplitFree(t, '|');
    TrimTrimmed(t);
  }

  lemma BarFreeInterior(t: string)
    requires '|' !in t
    ensures DropTrailingBar(DropLeadingBar(t)) == t
  {
    if t != [] {
      assert t[0] != '|' && t[|t| - 1] != '|';
    }
  }

  // ---------------------------------------------------------------------------
  // TableRenderer

  /** A rendered table: caption text when present, header and body cells as HTML. */
  datatype Table = Table(caption: Option<string>, header: seq<string>, body: seq<seq<string>>)

  /** The number of columns: the longest of the header and the body rows. */
  function Width(header: seq<string>, body: seq<seq<string>>): (w: nat)
    ensures w >= |header| && forall r :: 0 <= r < |body| ==> w >= |body[r]|
    ensures w == |header| || exists r :: 0 <= r < |body| && w == |body[r]|
    decreases |body|
  {
    if body == [] then |header|
    else
      var rest := Width(header, body[..|body| - 1]);
      if |body[|body| - 1]| > rest then |body[|body| - 1]| else rest
  }

  /** `normalize`: `row` padded with empty cells up to `w` cells. */
  function Pad(row: seq<string>, w: nat): (r: seq<string>)
    ensures |r| == if |row| < w then w else |row|
    ensures r[..|row|] == row && forall k :: |row| <= k < |r| ==> r[k] == ""
  {
    if |row| < w then row + seq(w - |row|, _ => "") else row
  }

  /** The cell `c` of a row, the empty string beyond its end. */
  function CellOf(cells: seq<string>, c: nat): string {
    if c < |cells| then cells[c] else ""
  }

  function RenderCells(row: seq<string>): (html: seq<string>)
    ensures |html| == |row|
  {
    seq(|row|, k requires 0 <= k < |row| => ParseInline(row[k]))
  }

  /** What `TableRenderer` shows for `lines` (header, separator, body) and a caption. */
  function RenderTable(lines: seq<string>, caption: Option<string>): Option<Table> {
    if |lines| < 2 then None else Some(TableOf(SplitRow(lines[0]), BodyRows(lines), caption))
  }

  /** `lines.slice(2).map(splitRow)`. */
  function BodyRows(lines: seq<string>): (rows: seq<seq<string>>)
    requires |lines| >= 2
    ensures |rows| == |lines| - 2 && forall r :: 0 <= r < |rows| ==> rows[r] == SplitRow(lines[r + 2])
  {
    seq(|lines| - 2, r requires 0 <= r < |lines| - 2 => SplitRow(lines[r + 2]))
  }

  function TableOf(header: seq<string>, body: seq<seq<string>>, caption: Option<string>): Table {
    Table(
      if Truthy(caption) then caption else None,
      RenderCells(Pad(header, Width(header, body))),
      RenderRows(body, Width(header, body)))
  }

  function RenderRows(body: seq<seq<string>>, w: nat): (rows: seq<seq<string>>)
    ensures |rows| == |body| && forall r :: 0 <= r < |body| ==> rows[r] == RenderCells(Pad(body[r], w))
  {
    seq(|body|, r requires 0 <= r < |body| => RenderCells(Pad(body[r], w)))
  }

  /** `normalize`, as the loop that pushes empty cells. */
  method Normalize(row: seq<string>, maxCols: nat) returns (r: seq<string>)
    ensures r == Pad(row, maxCols)
  {
    r := row;
    while |r| < maxCols
      invariant |row| <= |r| && r[..|row|] == row
      invariant forall k :: |row| <= k < |r| ==> r[k] == ""
      invariant |row| < maxCols ==> |r| <= maxCols
      invariant |row| >= maxCols ==> r == row
      decreases maxCols - |r|
    {
      r := r + [""];
    }
    assert r == row + r[|row|..];
  }

  /** The table is rectangular, and each cell is the rendered raw cell or empty. */
  lemma RenderTableShape(lines: seq<string>, caption: Option<string>) returns (t: Table)
    requires |lines| >= 2
    ensures RenderTable(lines, caption) == Some(t)
    ensures |t.body| == |lines| - 2 && |t.header| >= |SplitRow(lines[0])|
    ensures forall r :: 0 <= r < |lines| - 2 ==> |t.body[r]| == |t.header| && |t.header| >= |SplitRow(lines[r + 2])|
    ensures forall c :: 0 <= c < |t.header| ==> t.header[c] == ParseInline(CellOf(SplitRow(lines[0]), c))
    ensures forall r, c :: 0 <= r < |lines| - 2 && 0 <= c < |t.header| ==>
      t.body[r][c] == ParseInline(CellOf(SplitRow(lines[r + 2]), c))
  {
    var header, body := SplitRow(lines[0]), BodyRows(lines);
    t := TableOf(header, body, caption);
    TableOfShape(header, body, caption);
    forall r | 0 <= r < |lines| - 2
      ensures |t.body[r]| == |t.header| && |t.header| >= |SplitRow(lines[r + 2])|
      ensures forall c :: 0 <= c < |t.header| ==> t.body[r][c] == ParseInline(CellOf(SplitRow(lines[r + 2]), c))
    {
      assert body[r] == SplitRow(lines[r + 2]);
    }
  }

  lemma TableOfShape(header: seq<string>, body: seq<seq<string>>, caption: Option<string>)
    ensures var t := TableOf(header, body, caption);
      && |t.body| == |body| && |t.header| == Width(header, body)
      && (forall r :: 0 <= r < |body| ==> |t.body[r]| == |t.header|)
      && (forall c :: 0 <= c < |t.header| ==> t.header[c] == ParseInline(CellOf(header, c)))
      && (forall r, c :: 0 <= r < |body| && 0 <= c < |t.header| ==> t.body[r][c] == ParseInline(CellOf(body[r], c)))
  {
    var w := Width(header, body);
    PadCells(header, w);
    forall r | 0 <= r < |body| ensures forall c :: 0 <= c < w ==> Pad(body[r], w)[c] == CellOf(body[r], c) {
      PadCells(body[r], w);
    }
  }

  lemma PadCells(row: seq<string>, w: nat)
    requires |row| <= w
    ensures |Pad(row, w)| == w && forall c :: 0 <= c < w ==> Pad(row, w)[c] == CellOf(row, c)
  {
    var p := Pad(row, w);
    forall c | 0 <= c < w ensures p[c] == CellOf(row, c) {
      if c < |row| {
        assert p[..|row|][c] == row[c];
      }
    }
  }

  /** The caption is shown exactly when it is a non-empty string. */
  lemma RenderTableCaption(lines: seq<string>, caption: Option<string>)
    requires |lines| >= 2
    ensures RenderTable(lines, caption).value.caption.Some? <==> Truthy(caption)
    ensures Truthy(caption) ==> RenderTable(lines, caption).value.caption == caption
  {
  }

  /** The column count: the loop over the body rows keeping the largest length. */
  method MaxCols(headerRow: seq<string>, bodyRows: seq<seq<string>>) returns (maxCols: nat)
    ensures maxCols == Width(headerRow, bodyRows)
  {
    maxCols := |headerRow|;
    var i := 0;
    while i < |bodyRows|
      invariant 0 <= i <= |bodyRows|
      invariant maxCols == Width(headerRow, bodyRows[..i])
    {
      assert bodyRows[..i + 1][..i] == bodyRows[..i];
      if |bodyRows[i]| > maxCols {
        maxCols := |bodyRows[i]|;
      }
      i := i + 1;
    }
    assert bodyRows[..i] == bodyRows;
  }

  /** `bodyRows.map(normalize)`. */
  method NormalizeRows(bodyRows: seq<seq<string>>, maxCols: nat) returns (normBody: seq<seq<string>>)
    ensures |normBody| == |bodyRows|
    ensures forall r :: 0 <= r < |bodyRows| ==> normBody[r] == Pad(bodyRows[r], maxCols)
  {
    normBody := [];
    var i := 0;
    while i < |bodyRows|
      invariant 0 <= i <= |bodyRows|
      invariant |normBody| == i
      invariant forall r :: 0 <= r < i ==> normBody[r] == Pad(bodyRows[r], maxCols)
    {
      var row := Normalize(bodyRows[i], maxCols);
      normBody := normBody + [row];
      i := i + 1;
    }
  }

  /** `TableRenderer`: nothing for fewer than two lines, otherwise the table `RenderTable` describes. */
  method TableRenderer(lines: seq<string>, caption: Option<string>) returns (t: Option<Table>)
    ensures t == RenderTable(lines, caption)
  {
    if |lines| < 2 {
      return None;
    }
    var headerRow := SplitRow(lines[0]);
    var bodyRows := BodyRows(lines);
    var table := RenderSplit(headerRow, bodyRows, caption);
    t := Some(table);
  }

  /** The rest of `TableRenderer`, once the rows are split: pad every row to the widest, render each cell. */
  method RenderSplit(headerRow: seq<string>, bodyRows: seq<seq<string>>, caption: Option<string>) returns (t: Table)
    ensures t == TableOf(headerRow, bodyRows, caption)
  {
    var maxCols := MaxCols(headerRow, bodyRows);
    var normHeader := Normalize(headerRow, maxCols);
    var normBody := NormalizeRows(bodyRows, maxCols);
    var body := seq(|normBody|, r requires 0 <= r < |normBody| => RenderCells(normBody[r]));
    t := Table(if Truthy(caption) then caption else None, RenderCells(normHeader), body);
    assert body == RenderRows(bodyRows, maxCols);
  }
}
