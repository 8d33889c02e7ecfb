/**
 * `FormattedContent` of components/CaseViewer.tsx: the document is split into lines and
 * scanned once; each position starts a table, a list, a heading, a quotation, a caption,
 * a paragraph, or nothing (a blank line).
 */
module Blocks {
  import opened Wrappers
  import opened Text
  import opened Types
  import opened Inline
  import opened Tables

  /** A list entry as the loop collects it: the text without its marker, the nesting level, and whether it is numbered. */
  datatype ListItem = ListItem(text: string, indent: nat, ordered: bool)

  /**
   * The blocks, as the elements the loop pushes: a table element receives its lines and
   * caption; list items, quotations and paragraphs hold the text that is rendered with
   * `parseInline`; heading and caption texts are shown as plain text.
   */
  datatype Block =
    | TableBlock(lines: seq<string>, caption: Option<string>)
    | ListBlock(items: seq<ListItem>)
    | Heading(level: nat, text: string)
    | Quote(text: string)
    | CaptionBlock(text: string)
    | Paragraph(text: string)

  datatype Marker = Bullet | Numbered(n: nat)

  /** The marker shown before the item at position `idx` of its list: numbering is by position. */
  function MarkerAt(items: seq<ListItem>, idx: nat): Marker
    requires idx < |items|
  {
    if items[idx].ordered then Numbered(idx + 1) else Bullet
  }

  // ---------------------------------------------------------------------------
  // Line classes, on the trimmed line

  predicate SeparatorChar(c: char) {
    IsWhitespace(c) || c == '-' || c == ':' || c == '|'
  }

  /**
   * The separator-row pattern: an optional bar, one or more of whitespace, `-`, `:` and `|`,
   * an optional bar. As `|` is in the class itself, this is any non-empty run of those.
   */
  predicate IsSeparatorLine(t: string) {
    |t| > 0 && forall k :: 0 <= k < |t| ==> SeparatorChar(t[k])
  }

  /** A table starts at a line holding a bar that is followed by a separator line. */
  predicate TableStartsAt(lines: seq<string>, i: nat)
    requires i < |lines|
  {
    '|' in Trim(lines[i]) && i + 1 < |lines| && IsSeparatorLine(Trim(lines[i + 1]))
  }

  predicate NoLineTerminator(s: string) {
    forall k :: 0 <= k < |s| ==> !IsLineTerminator(s[k])
  }

  /** The caption pattern with one of its words: two asterisks, the word, anything on one line, two asterisks. */
  predicate CaptionWith(t: string, w: string) {
    && |t| >= |w| + 4
    && StartsWith(t, "**" + w)
    && EndsWith(t, "**")
    && NoLineTerminator(t[|w| + 2..|t| - 2])
  }

  /** The words a caption may start with: the Chinese word for "chart", Table, Figure, Exhibit. */
  const ChartWord: string := "\U{56FE}\U{8868}"

  predicate IsCaptionLine(t: string) {
    CaptionWith(t, ChartWord) || CaptionWith(t, "Table") || CaptionWith(t, "Figure") || CaptionWith(t, "Exhibit")
  }

  /** The caption with every `**` removed. */
  function CaptionText(t: string): string {
    DeleteAll(t, "**")
  }

  /** `-` or `*` followed by whitespace. */
  predicate IsBulletLine(t: string) {
    |t| >= 2 && (t[0] == '-' || t[0] == '*') && IsWhitespace(t[1])
  }

  /** Length of the leading run of decimal digits. */
  function DigitRun(t: string): (n: nat)
    ensures n <= |t| && (forall k :: 0 <= k < n ==> IsDigit(t[k])) && (n < |t| ==> !IsDigit(t[n]))
  {
    if t == [] || !IsDigit(t[0]) then 0 else 1 + DigitRun(t[1..])
  }

  /** Digits, a dot, whitespace. */
  predicate IsOrderedLine(t: string) {
    DigitRun(t) >= 1 && DigitRun(t) + 1 < |t| && t[DigitRun(t)] == '.' && IsWhitespace(t[DigitRun(t) + 1])
  }

  predicate IsListLine(t: string) {
    IsBulletLine(t) || IsOrderedLine(t)
  }

  /** A raw line that continues a table: its trimmed text holds a bar. */
  predicate BarLine(line: string) {
    '|' in Trim(line)
  }

  /** A raw line that continues a list. */
  predicate ListLine(line: string) {
    IsListLine(Trim(line))
  }

  /** `s` without its leading whitespace run. */
  function DropWhitespace(s: string): string {
    s[LeadingWhitespace(s)..]
  }

  /** The item text: the marker and all whitespace after it removed. */
  function ItemText(t: string): string {
    if IsBulletLine(t) then DropWhitespace(t[1..])
    else if IsOrderedLine(t) then DropWhitespace(t[DigitRun(t) + 1..])
    else t
  }

  /** One nesting level per two leading whitespace characters of the raw line. */
  function Indent(raw: string): nat {
    LeadingWhitespace(raw) / 2
  }

  /** The item a raw list line gives. */
  function ItemOf(raw: string): ListItem {
    ListItem(ItemText(Trim(raw)), Indent(raw), !IsBulletLine(Trim(raw)))
  }

  /** A quotation without its `>` and at most one whitespace character after it. */
  function QuoteText(t: string): string
    requires StartsWith(t, ">")
  {
    if |t| >= 2 && IsWhitespace(t[1]) then t[2..] else t[1..]
  }

  /** The block of a line that is neither a table start nor a list line. */
  function LineBlock(t: string): Option<Block> {
    if StartsWith(t, "# ") then Some(Heading(1, DropWhitespace(t[1..])))
    else if StartsWith(t, "## ") then Some(Heading(2, DropWhitespace(t[2..])))
    else if StartsWith(t, "### ") then Some(Heading(3, DropWhitespace(t[3..])))
    else if StartsWith(t, ">") then Some(Quote(QuoteText(t)))
    else if IsCaptionLine(t) then Some(CaptionBlock(CaptionText(t)))
    else if t != [] then Some(Paragraph(t))
    else None
  }

  // ---------------------------------------------------------------------------
  // The scan

  /** The end of the run of lines satisfying `inRun`, from `j`. */
  function RunEnd(lines: seq<string>, j: nat, inRun: string -> bool): (k: nat)
    requires j <= |lines|
    ensures j <= k <= |lines|
    ensures forall m :: j <= m < k ==> inRun(lines[m])
    ensures k < |lines| ==> !inRun(lines[k])
    decreases |lines| - j
  {
    if j == |lines| || !inRun(lines[j]) then j else RunEnd(lines, j + 1, inRun)
  }

  /** The end of the run of lines holding a bar, from `j`. */
  function TableEnd(lines: seq<string>, j: nat): (k: nat)
    requires j <= |lines|
  {
    RunEnd(lines, j, BarLine)
  }

  /** The end of the run of list lines, from `j`. */
  function ListEnd(lines: seq<string>, j: nat): (k: nat)
    requires j <= |lines|
  {
    RunEnd(lines, j, ListLine)
  }

  /** The caption of a table starting at `i`: the previous line, when it is a caption line. */
  function TableCaption(lines: seq<string>, i: nat): Option<string>
    requires i < |lines|
  {
    if i > 0 && IsCaptionLine(Trim(lines[i - 1])) then Some(CaptionText(Trim(lines[i - 1]))) else None
  }

  /** The lines handed to `TableRenderer`: the trimmed header line, then the raw lines. */
  function TableLines(lines: seq<string>, i: nat, end: nat): (t: seq<string>)
    requires i + 2 <= end <= |lines|
    ensures |t| == end - i
  {
    [Trim(lines[i])] + lines[i + 1..end]
  }

  /** `f` of each of lines `a` to `b`. */
  function Mapped<T>(lines: seq<string>, a: nat, b: nat, f: string -> T): (r: seq<T>)
    requires a <= b <= |lines|
    ensures |r| == b - a
    ensures forall k :: 0 <= k < b - a ==> r[k] == f(lines[a + k])
  {
    seq(b - a, k requires 0 <= k < b - a => f(lines[a + k]))
  }

  /** The items of lines `a` to `b`, one per line. */
  function ListItems(lines: seq<string>, a: nat, b: nat): (items: seq<ListItem>)
    requires a <= b <= |lines|
  {
    Mapped(lines, a, b, ItemOf)
  }

  datatype Step = Step(block: Option<Block>, next: nat)

  /** What the scan does at line `i`, and where it resumes. */
  function StepAt(lines: seq<string>, i: nat): (st: Step)
    requires i < |lines|
    ensures i < st.next <= |lines|
  {
    if TableStartsAt(lines, i) then TableStep(lines, i)
    else if ListLine(lines[i]) then ListStep(lines, i)
    else Step(LineBlock(Trim(lines[i])), i + 1)
  }

  /** A table: the header line, the separator line and every following line holding a bar. */
  function TableStep(lines: seq<string>, i: nat): (st: Step)
    requires i < |lines| && TableStartsAt(lines, i)
    ensures i + 2 <= st.next <= |lines|
  {
    Step(
      Some(TableBlock(TableLines(lines, i, TableEnd(lines, i + 2)), TableCaption(lines, i))),
      TableEnd(lines, i + 2))
  }

  /** A list: the maximal run of list lines from `i`. */
  function ListStep(lines: seq<string>, i: nat): (st: Step)
    requires i < |lines| && ListLine(lines[i])
    ensures i < st.next <= |lines|
  {
    Step(Some(ListBlock(ListItems(lines, i, ListEnd(lines, i)))), ListEnd(lines, i))
  }

  /** The blocks a step pushes: none or one. */
  function Emitted(st: Step): seq<Block> {
    if st.block.Some? then [st.block.value] else []
  }

  function BlocksFrom(lines: seq<string>, i: nat): seq<Block>
    requires i <= |lines|
    decreases |lines| - i
  {
    if i == |lines| then []
    else
      Emitted(StepAt(lines, i)) + BlocksFrom(lines, StepAt(lines, i).next)
  }

  /** The blocks `FormattedContent` renders for a document. */
  function Render(content: string): seq<Block> {
    if content == [] then [] else BlocksFrom(Split(content, '\n'), 0)
  }

  // ---------------------------------------------------------------------------
  // FormattedContent

  /** `FormattedContent`: the scanning loop over the lines of the document. */
  method FormattedContent(content: string) returns (blocks: seq<Block>)
    ensures blocks == Render(content)
  {
    if content == [] {
      return [];
    }
    blocks := [];
    var lines := Split(content, '\n');
    var i := 0;
    while i < |lines|
      invariant 0 <= i <= |lines|
      invariant blocks + BlocksFrom(lines, i) == BlocksFrom(lines, 0)
      decreases |lines| - i
    {
      var line := Trim(lines[i]);
      var b: Option<Block>, next: nat;
      if TableStartsAt(lines, i) {
        var table;
        table, next := ScanTable(lines, i);
        b := Some(table);
        StepTable(lines, i);
      } else if IsBulletLine(line) || IsOrderedLine(line) {
        var list;
        list, next := ScanList(lines, i);
        b := Some(list);
        StepList(lines, i);
      } else {
        b := ScanLine(line);
        next := i + 1;
        StepLine(lines, i);
      }
      BlocksFromStep(lines, i, Step(b, next), blocks);
      assert blocks + Emitted(Step(b, next)) == if b.Some? then blocks + [b.value] else blocks;
      if b.Some? {
        blocks := blocks + [b.value];
      }
      i := next;
    }
  }

  lemma StepTable(lines: seq<string>, i: nat)
    requires i < |lines| && TableStartsAt(lines, i)
    ensures StepAt(lines, i) == TableStep(lines, i)
  {
  }

  lemma StepList(lines: seq<string>, i: nat)
    requires i < |lines| && !TableStartsAt(lines, i) && ListLine(lines[i])
    ensures StepAt(lines, i) == ListStep(lines, i)
  {
  }

  lemma StepLine(lines: seq<string>, i: nat)
    requires i < |lines| && !TableStartsAt(lines, i) && !ListLine(lines[i])
    ensures StepAt(lines, i) == Step(LineBlock(Trim(lines[i])), i + 1)
  {
  }

  /** One step of the scan. */
  lemma BlocksFromStep(lines: seq<string>, i: nat, st: Step, done: seq<Block>)
    requires i < |lines| && StepAt(lines, i) == st
    ensures done + BlocksFrom(lines, i) == done + Emitted(st) + BlocksFrom(lines, st.next)
  {
    AppendAssoc(done, Emitted(st), BlocksFrom(lines, st.next));
  }

  lemma AppendAssoc(a: seq<Block>, b: seq<Block>, c: seq<Block>)
    ensures a + (b + c) == a + b + c
  {
  }

  /** The table branch: the caption from the previous line, then the rows while they hold a bar. */
  method ScanTable(lines: seq<string>, i: nat) returns (b: Block, next: nat)
    requires i < |lines| && TableStartsAt(lines, i)
    ensures TableStep(lines, i) == Step(Some(b), next)
  {
    var caption := CaptionBefore(lines, i);
    var tableLines;
    tableLines, next := TableRows(lines, i);
    b := TableBlock(tableLines, caption);
  }

  /** The lines of the table starting at `i`: the header and separator, then every line holding a bar. */
  method TableRows(lines: seq<string>, i: nat) returns (tableLines: seq<string>, next: nat)
    requires i + 2 <= |lines|
    ensures next == TableEnd(lines, i + 2) && tableLines == TableLines(lines, i, next)
  {
    tableLines := [Trim(lines[i]), lines[i + 1]];
    next := i + 2;
    assert lines[i + 1..next] == [lines[i + 1]];
    while next < |lines| && BarLine(lines[next])
      invariant i + 2 <= next <= |lines|
      invariant tableLines == TableLines(lines, i, next)
      invariant TableEnd(lines, next) == TableEnd(lines, i + 2)
      decreases |lines| - next
    {
      TableLinesSnoc(lines, i, next);
      RunEndStep(lines, next, BarLine);
      tableLines := tableLines + [lines[next]];
      next := next + 1;
    }
    RunEndStop(lines, next, BarLine);
  }

  /** The caption of a table: the previous trimmed line with `**` removed, when it is a caption line. */
  method CaptionBefore(lines: seq<string>, i: nat) returns (caption: Option<string>)
    requires i < |lines|
    ensures caption == TableCaption(lines, i)
  {
    caption := None;
    var prevLine := if i > 0 then Trim(lines[i - 1]) else "";
    if IsCaptionLine(prevLine) {
      caption := Some(CaptionText(prevLine));
    }
  }

  /** The list branch: one item per line while the lines are list lines. */
  method ScanList(lines: seq<string>, i: nat) returns (b: Block, next: nat)
    requires i < |lines| && ListLine(lines[i])
    ensures ListStep(lines, i) == Step(Some(b), next)
  {
    var items: seq<ListItem> := [];
    next := i;
    while next < |lines|
      invariant i <= next <= |lines|
      invariant items == ListItems(lines, i, next)
      invariant ListEnd(lines, next) == ListEnd(lines, i)
      decreases |lines| - next
    {
      var isItem, item := ScanItem(lines[next]);
      if !isItem {
        RunEndStop(lines, next, ListLine);
        break;
      }
      ListItemsSnoc(lines, i, next);
      RunEndStep(lines, next, ListLine);
      items := items + [item];
      next := next + 1;
    }
    if next == |lines| {
      RunEndStop(lines, next, ListLine);
    }
    b := ListBlock(items);
  }

  /** One line of the list loop: whether it is a list line, and the item it gives. */
  method ScanItem(currLine: string) returns (isItem: bool, item: ListItem)
    ensures isItem == ListLine(currLine) && (isItem ==> item == ItemOf(currLine))
  {
    var trimmed := Trim(currLine);
    var isUl := IsBulletLine(trimmed);
    var isOl := IsOrderedLine(trimmed);
    isItem := isUl || isOl;
    var indentLevel := Indent(currLine);
    var cleanText := ItemText(trimmed);
    item := ListItem(cleanText, indentLevel, !isUl);
  }

  lemma RunEndStop(lines: seq<string>, j: nat, inRun: string -> bool)
    requires j <= |lines| && (j == |lines| || !inRun(lines[j]))
    ensures RunEnd(lines, j, inRun) == j
  {
  }

  lemma ListItemsSnoc(lines: seq<string>, a: nat, b: nat)
    requires a <= b < |lines|
    ensures ListItems(lines, a, b + 1) == ListItems(lines, a, b) + [ItemOf(lines[b])]
  {
    MappedSnoc(lines, a, b, ItemOf);
  }

  lemma MappedSnoc<T>(lines: seq<string>, a: nat, b: nat, f: string -> T)
    requires a <= b < |lines|
    ensures Mapped(lines, a, b + 1, f) == Mapped(lines, a, b, f) + [f(lines[b])]
  {
    var longer, shorter := Mapped(lines, a, b + 1, f), Mapped(lines, a, b, f);
    forall k | 0 <= k < b - a ensures longer[k] == shorter[k] {
    }
    assert longer[b - a] == f(lines[b]);
  }

  lemma TableLinesSnoc(lines: seq<string>, i: nat, n: nat)
    requires i + 2 <= n < |lines|
    ensures TableLines(lines, i, n + 1) == TableLines(lines, i, n) + [lines[n]]
  {
    assert lines[i + 1..n + 1] == lines[i + 1..n] + [lines[n]];
  }

  lemma RunEndStep(lines: seq<string>, j: nat, inRun: string -> bool)
    requires j < |lines| && inRun(lines[j])
    ensures RunEnd(lines, j, inRun) == RunEnd(lines, j + 1, inRun)
  {
  }

  /** The single-line branches: headings, quotation, caption, paragraph, blank. */
  method ScanLine(line: string) returns (b: Option<Block>)
    ensures b == LineBlock(line)
  {
    if StartsWith(line, "# ") {
      b := Some(Heading(1, DropWhitespace(line[1..])));
    } else if StartsWith(line, "## ") {
      b := Some(Heading(2, DropWhitespace(line[2..])));
    } else if StartsWith(line, "### ") {
      b := Some(Heading(3, DropWhitespace(line[3..])));
    } else if StartsWith(line, ">") {
      b := Some(Quote(QuoteText(line)));
    } else if IsCaptionLine(line) {
      b := Some(CaptionBlock(CaptionText(line)));
    } else if line != [] {
      b := Some(Paragraph(line));
    } else {
      b := None;
    }
  }

  // ---------------------------------------------------------------------------
  // Properties of the scan

  /** A line yields no block exactly when it is blank (trims to nothing), and then the scan moves to the next line. */
  lemma StepBlank(lines: seq<string>, i: nat)
    requires i < |lines|
    ensures StepAt(lines, i).block.None? <==> Trim(lines[i]) == []
    ensures StepAt(lines, i).block.None? ==> StepAt(lines, i).next == i + 1
  {
    if Trim(lines[i]) == [] {
      assert !ListLine(lines[i]);
    }
  }

  /** Every line from `i` on is blank. */
  predicate BlankFrom(lines: seq<string>, i: nat)
    requires i <= |lines|
    decreases |lines| - i
  {
    i == |lines| || (Trim(lines[i]) == [] && BlankFrom(lines, i + 1))
  }

  lemma {:induction false} BlankFromAll(lines: seq<string>, i: nat)
    requires i <= |lines|
    ensures BlankFrom(lines, i) <==> forall k :: i <= k < |lines| ==> AllWhitespace(lines[k])
    decreases |lines| - i
  {
    if i < |lines| {
      BlankFromAll(lines, i + 1);
    }
  }

  /** The scan emits nothing exactly when every remaining line is blank. */
  lemma {:induction false} BlocksFromEmpty(lines: seq<string>, i: nat)
    requires i <= |lines|
    ensures BlocksFrom(lines, i) == [] <==> BlankFrom(lines, i)
    decreases |lines| - i
  {
    if i < |lines| {
      var st := StepAt(lines, i);
      StepBlank(lines, i);
      BlocksFromStep(lines, i, st, []);
      if st.block.None? {
        assert BlocksFrom(lines, i) == BlocksFrom(lines, i + 1);
        assert BlankFrom(lines, i) == BlankFrom(lines, i + 1);
        BlocksFromEmpty(lines, i + 1);
      } else {
        assert BlocksFrom(lines, i) != [] by {
          assert |Emitted(st)| == 1;
        }
        assert !BlankFrom(lines, i);
      }
    }
  }

  /** A document renders to nothing exactly when every one of its lines is blank. */
  lemma RenderEmptyIffBlank(content: string)
    ensures Render(content) == [] <==>
      forall k :: 0 <= k < |Split(content, '\n')| ==> AllWhitespace(Split(content, '\n')[k])
  {
    var lines := Split(content, '\n');
    if content == [] {
      assert lines == [[]];
      assert AllWhitespace(lines[0]);
      assert forall k :: 0 <= k < |lines| ==> AllWhitespace(lines[k]);
    } else {
      BlankFromAll(lines, 0);
      BlocksFromEmpty(lines, 0);
      assert Render(content) == BlocksFrom(lines, 0);
    }
  }

  /** At most one block per line. */
  lemma {:induction false} BlocksFromCount(lines: seq<string>, i: nat)
    requires i <= |lines|
    ensures |BlocksFrom(lines, i)| <= |lines| - i
    decreases |lines| - i
  {
    if i < |lines| {
      BlocksFromCount(lines, StepAt(lines, i).next);
    }
  }

  /**
   * A table block receives the trimmed header line and then the raw lines, up to the first
   * line after the separator whose trimmed form holds no bar.
   */
  lemma TableBlockShape(lines: seq<string>, i: nat) returns (t: Block, next: nat)
    requires i < |lines| && TableStartsAt(lines, i)
    ensures StepAt(lines, i) == Step(Some(t), next) && t.TableBlock?
    ensures |t.lines| == next - i >= 2 && t.lines[0] == Trim(lines[i])
    ensures forall k :: 1 <= k < |t.lines| ==> t.lines[k] == lines[i + k]
    ensures forall m :: i + 2 <= m < next ==> '|' in Trim(lines[m])
    ensures next < |lines| ==> '|' !in Trim(lines[next])
    ensures t.caption == TableCaption(lines, i)
  {
    StepTable(lines, i);
    next := TableEnd(lines, i + 2);
    t := TableBlock(TableLines(lines, i, next), TableCaption(lines, i));
    forall k | 1 <= k < |t.lines| ensures t.lines[k] == lines[i + k] {
      assert t.lines[k] == lines[i + 1..next][k - 1];
    }
    forall m | i + 2 <= m < next ensures '|' in Trim(lines[m]) {
      InRun(lines, i + 2, BarLine, m);
    }
  }

  /** A list block holds one item per line of the maximal run of list lines. */
  lemma ListBlockShape(lines: seq<string>, i: nat) returns (items: seq<ListItem>, next: nat)
    requires i < |lines| && !TableStartsAt(lines, i) && ListLine(lines[i])
    ensures StepAt(lines, i) == Step(Some(ListBlock(items)), next)
    ensures |items| == next - i >= 1
    ensures forall k :: 0 <= k < |items| ==> ListLine(lines[i + k]) && items[k] == ItemOf(lines[i + k])
    ensures next < |lines| ==> !ListLine(lines[next])
  {
    StepList(lines, i);
    next := ListEnd(lines, i);
    items := ListItems(lines, i, next);
    forall k | 0 <= k < |items| ensures ListLine(lines[i + k]) && items[k] == ItemOf(lines[i + k]) {
      InRun(lines, i, ListLine, i + k);
      MappedAt(lines, i, next, ItemOf, k);
    }
  }

  /** Items are numbered by their position in the list, whatever number their own line starts with. */
  lemma ListMarkers(lines: seq<string>, i: nat) returns (items: seq<ListItem>)
    requires i < |lines| && !TableStartsAt(lines, i) && ListLine(lines[i])
    ensures StepAt(lines, i).block == Some(ListBlock(items))
    ensures forall k :: 0 <= k < |items| ==>
      MarkerAt(items, k) == if IsBulletLine(Trim(lines[i + k])) then Bullet else Numbered(k + 1)
  {
    var next;
    items, next := ListBlockShape(lines, i);
  }

  lemma MappedAt<T>(lines: seq<string>, a: nat, b: nat, f: string -> T, k: nat)
    requires a <= b <= |lines| && k < b - a
    ensures Mapped(lines, a, b, f)[k] == f(lines[a + k])
  {
  }

  /** Every line of a run satisfies the run's predicate. */
  lemma InRun(lines: seq<string>, j: nat, inRun: string -> bool, m: nat)
    requires j <= |lines| && j <= m < RunEnd(lines, j, inRun)
    ensures inRun(lines[m])
  {
  }

  /**
   * A list line is its marker, at least one whitespace character, and the item text, which
   * starts with no whitespace: the marker and the whitespace after it are what is stripped.
   */
  lemma ListLineSplits(t: string) returns (marker: string, gap: string)
    requires IsListLine(t)
    ensures t == marker + gap + ItemText(t)
    ensures |gap| >= 1 && AllWhitespace(gap)
    ensures ItemText(t) == [] || !IsWhitespace(ItemText(t)[0])
    ensures IsBulletLine(t) ==> marker == [t[0]] && (t[0] == '-' || t[0] == '*')
    ensures !IsBulletLine(t) ==>
      (|marker| >= 2 && marker[|marker| - 1] == '.' && forall k :: 0 <= k < |marker| - 1 ==> IsDigit(marker[k]))
  {
    var n: nat;
    if IsBulletLine(t) {
      n := 1;
      assert ItemText(t) == DropWhitespace(t[n..]);
    } else {
      n := DigitRun(t) + 1;
      assert ItemText(t) == DropWhitespace(t[n..]);
    }
    marker, gap := MarkerSplit(t, n);
  }

  /** Cutting after a marker of length `n` that is followed by whitespace. */
  lemma MarkerSplit(t: string, n: nat) returns (marker: string, gap: string)
    requires n < |t| && IsWhitespace(t[n])
    ensures marker == t[..n] && t == marker + gap + DropWhitespace(t[n..])
    ensures |gap| >= 1 && AllWhitespace(gap)
    ensures DropWhitespace(t[n..]) == [] || !IsWhitespace(DropWhitespace(t[n..])[0])
  {
    var rest := t[n..];
    var w := LeadingWhitespace(rest);
    marker, gap := t[..n], rest[..w];
    assert rest[0] == t[n];
    assert rest == gap + rest[w..];
    assert t == marker + rest;
  }

  /** A caption line keeps visible text once its asterisks are removed. */
  lemma CaptionTextNonEmpty(t: string)
    requires IsCaptionLine(t)
    ensures CaptionText(t) != []
  {
    if CaptionWith(t, ChartWord) {
      CaptionWithNonEmpty(t, ChartWord);
    } else if CaptionWith(t, "Table") {
      CaptionWithNonEmpty(t, "Table");
    } else if CaptionWith(t, "Figure") {
      CaptionWithNonEmpty(t, "Figure");
    } else {
      CaptionWithNonEmpty(t, "Exhibit");
    }
  }

  lemma CaptionWithNonEmpty(t: string, w: string)
    requires CaptionWith(t, w) && w != [] && w[0] != '*'
    ensures DeleteAll(t, "**") != []
  {
    assert t[..|w| + 2] == "**" + w;
    assert t[0] == '*' && t[1] == '*' && t[2] == w[0];
    var u := t[2..];
    assert u[0] == w[0];
    assert !StartsWith(u, "**");
    assert StartsWith(t, "**");
    assert DeleteAll(t, "**") == DeleteAll(u, "**");
  }

  /** A caption line starts with two asterisks, so it is not a list line. */
  lemma CaptionIsNoListLine(t: string)
    requires IsCaptionLine(t)
    ensures t[0] == '*' && t[1] == '*' && !IsListLine(t)
  {
    if CaptionWith(t, ChartWord) {
      CaptionWithStars(t, ChartWord);
    } else if CaptionWith(t, "Table") {
      CaptionWithStars(t, "Table");
    } else if CaptionWith(t, "Figure") {
      CaptionWithStars(t, "Figure");
    } else {
      CaptionWithStars(t, "Exhibit");
    }
    StarsNoListLine(t);
  }

  lemma CaptionWithStars(t: string, w: string)
    requires CaptionWith(t, w)
    ensures |t| >= 2 && t[0] == '*' && t[1] == '*'
  {
    assert t[..|w| + 2] == "**" + w;
  }

  lemma StarsNoListLine(t: string)
    requires |t| >= 2 && t[0] == '*' && t[1] == '*'
    ensures !IsListLine(t)
  {
    assert DigitRun(t) == 0;
  }

  /**
   * A caption line before a table becomes the table's caption, without its asterisks,
   * and the table shows it.
   */
  lemma CaptionAttachesToTable(lines: seq<string>, i: nat)
    requires i < |lines| && TableStartsAt(lines, i) && i > 0 && IsCaptionLine(Trim(lines[i - 1]))
    ensures StepAt(lines, i).block.value.caption == Some(CaptionText(Trim(lines[i - 1])))
    ensures RenderTable(StepAt(lines, i).block.value.lines, StepAt(lines, i).block.value.caption).value.caption
      == Some(CaptionText(Trim(lines[i - 1])))
  {
    var t, next := TableBlockShape(lines, i);
    CaptionTextNonEmpty(Trim(lines[i - 1]));
    RenderTableCaption(t.lines, t.caption);
  }

  /** On its own line, a caption line that starts no table is a caption block. */
  lemma CaptionLineIsCaptionBlock(lines: seq<string>, j: nat)
    requires j < |lines| && IsCaptionLine(Trim(lines[j])) && !TableStartsAt(lines, j)
    ensures StepAt(lines, j) == Step(Some(CaptionBlock(CaptionText(Trim(lines[j])))), j + 1)
  {
    var t := Trim(lines[j]);
    CaptionIsNoListLine(t);
    StepLine(lines, j);
    CaptionLineBlock(t);
  }

  /**
   * A caption line right above a table is shown twice: first as a caption block of its own,
   * then again as the caption of the table that follows.
   */
  lemma CaptionShownTwice(lines: seq<string>, j: nat)
    requires j + 1 < |lines| && TableStartsAt(lines, j + 1) && !TableStartsAt(lines, j)
    requires IsCaptionLine(Trim(lines[j]))
    ensures var blocks, c := BlocksFrom(lines, j), CaptionText(Trim(lines[j]));
      |blocks| >= 2 && blocks[0] == CaptionBlock(c) && blocks[1].TableBlock? && blocks[1].caption == Some(c)
  {
    CaptionLineIsCaptionBlock(lines, j);
    var t, next := TableBlockShape(lines, j + 1);
    BlocksFromTwo(lines, j, CaptionBlock(CaptionText(Trim(lines[j]))), t, next);
  }

  /** Two steps that each emit a block start the blocks from there. */
  lemma BlocksFromTwo(lines: seq<string>, j: nat, b0: Block, b1: Block, n: nat)
    requires j + 1 < |lines| && StepAt(lines, j) == Step(Some(b0), j + 1) && StepAt(lines, j + 1) == Step(Some(b1), n)
    ensures |BlocksFrom(lines, j)| >= 2 && BlocksFrom(lines, j)[0] == b0 && BlocksFrom(lines, j)[1] == b1
  {
    assert Emitted(Step(Some(b0), j + 1)) == [b0];
    assert Emitted(Step(Some(b1), n)) == [b1];
    assert BlocksFrom(lines, j) == [b0] + BlocksFrom(lines, j + 1);
    assert BlocksFrom(lines, j + 1) == [b1] + BlocksFrom(lines, n);
    Heads(BlocksFrom(lines, j), b0, b1, BlocksFrom(lines, j + 1), BlocksFrom(lines, n));
  }

  lemma Heads(blocks: seq<Block>, a: Block, b: Block, mid: seq<Block>, rest: seq<Block>)
    requires blocks == [a] + mid && mid == [b] + rest
    ensures |blocks| >= 2 && blocks[0] == a && blocks[1] == b
  {
  }

  lemma CaptionLineBlock(t: string)
    requires IsCaptionLine(t) && t[0] == '*'
    ensures LineBlock(t) == Some(CaptionBlock(CaptionText(t)))
  {
    assert !StartsWith(t, "# ") && !StartsWith(t, "## ") && !StartsWith(t, "### ") && !StartsWith(t, ">");
  }

  /** `## ` and `### ` lines are not caught by the `# ` rule. */
  lemma HeadingLevels(t: string)
    ensures StartsWith(t, "# ") ==> LineBlock(t) == Some(Heading(1, DropWhitespace(t[1..])))
    ensures StartsWith(t, "## ") ==> LineBlock(t) == Some(Heading(2, DropWhitespace(t[2..])))
    ensures StartsWith(t, "### ") ==> LineBlock(t) == Some(Heading(3, DropWhitespace(t[3..])))
  {
    if StartsWith(t, "## ") || StartsWith(t, "### ") {
      assert t[1] == '#';
      assert !StartsWith(t, "# ");
    }
    if StartsWith(t, "### ") {
      assert t[2] == '#';
      assert !StartsWith(t, "## ");
    }
  }

  // ---------------------------------------------------------------------------
  // The HTML handed to the page

  /** Every table cell splits into the renderer's tags and characters other than `<` and `>`. */
  predicate CellsTokenized(t: Table) {
    && (forall c :: 0 <= c < |t.header| ==> Tokenizes(t.header[c], Tags))
    && (forall r, c :: 0 <= r < |t.body| && 0 <= c < |t.body[r]| ==> Tokenizes(t.body[r][c], Tags))
  }

  /**
   * The HTML a block injects (the `parseInline` output) splits into the renderer's tags and
   * characters other than `<` and `>` (the tags need not nest); plain texts need nothing.
   */
  predicate HtmlTokenized(b: Block) {
    match b
    case TableBlock(lines, caption) => |lines| >= 2 && CellsTokenized(RenderTable(lines, caption).value)
    case ListBlock(items) => forall k :: 0 <= k < |items| ==> Tokenizes(ParseInline(items[k].text), Tags)
    case Quote(text) => Tokenizes(ParseInline(text), Tags)
    case Paragraph(text) => Tokenizes(ParseInline(text), Tags)
    case Heading(_, _) => true
    case CaptionBlock(_) => true
  }

  lemma TableCellsTokenized(lines: seq<string>, caption: Option<string>)
    requires |lines| >= 2
    ensures CellsTokenized(RenderTable(lines, caption).value)
  {
    var t := RenderTableShape(lines, caption);
    forall c | 0 <= c < |t.header| ensures Tokenizes(t.header[c], Tags) {
      InlineHtmlTokenized(CellOf(SplitRow(lines[0]), c));
    }
    forall r, c | 0 <= r < |t.body| && 0 <= c < |t.body[r]| ensures Tokenizes(t.body[r][c], Tags) {
      InlineHtmlTokenized(CellOf(SplitRow(lines[r + 2]), c));
    }
  }

  lemma StepHtmlTokenized(lines: seq<string>, i: nat)
    requires i < |lines|
    ensures StepAt(lines, i).block.Some? ==> HtmlTokenized(StepAt(lines, i).block.value)
  {
    if TableStartsAt(lines, i) {
      var t, next := TableBlockShape(lines, i);
      TableCellsTokenized(t.lines, t.caption);
    } else if ListLine(lines[i]) {
      var items, next := ListBlockShape(lines, i);
      forall k | 0 <= k < |items| ensures Tokenizes(ParseInline(items[k].text), Tags) {
        InlineHtmlTokenized(items[k].text);
      }
    } else {
      StepLine(lines, i);
      LineHtmlTokenized(Trim(lines[i]));
    }
  }

  lemma LineHtmlTokenized(t: string)
    ensures LineBlock(t).Some? ==> HtmlTokenized(LineBlock(t).value)
  {
    var b := LineBlock(t);
    if b.Some? && (b.value.Quote? || b.value.Paragraph?) {
      InlineHtmlTokenized(b.value.text);
    }
  }

  predicate AllTokenized(blocks: seq<Block>) {
    forall k :: 0 <= k < |blocks| ==> HtmlTokenized(blocks[k])
  }

  lemma AppendTokenized(a: seq<Block>, b: seq<Block>)
    requires AllTokenized(a) && AllTokenized(b)
    ensures AllTokenized(a + b)
  {
    forall k | 0 <= k < |a + b| ensures HtmlTokenized((a + b)[k]) {
      if k < |a| {
        assert (a + b)[k] == a[k];
      } else {
        assert (a + b)[k] == b[k - |a|];
      }
    }
  }

  lemma {:induction false} BlocksFromHtmlTokenized(lines: seq<string>, i: nat)
    requires i <= |lines|
    ensures AllTokenized(BlocksFrom(lines, i))
    decreases |lines| - i
  {
    if i < |lines| {
      var st := StepAt(lines, i);
      StepHtmlTokenized(lines, i);
      BlocksFromStep(lines, i, st, []);
      BlocksFromHtmlTokenized(lines, st.next);
      assert AllTokenized(Emitted(st));
      AppendTokenized(Emitted(st), BlocksFrom(lines, st.next));
      assert BlocksFrom(lines, i) == Emitted(st) + BlocksFrom(lines, st.next);
    }
  }

  /**
   * Whatever the document, every HTML string the renderer injects into the page is a
   * sequence of the renderer's own tags and text with no raw angle bracket.
   */
  lemma RenderedHtmlTokenized(content: string)
    ensures AllTokenized(Render(content))
  {
    if content != [] {
      BlocksFromHtmlTokenized(Split(content, '\n'), 0);
    }
  }
}
