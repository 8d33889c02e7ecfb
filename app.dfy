/**
 * The workflow of App.tsx: the topic and the uploaded files, the case document being built
 * (`caseData`) and the generation state shown to the user (`genState`), moved from step to
 * step by the handlers — research, choosing a learning objective, reviewing the framework,
 * drafting and polishing — and the view predicates derived from them.
 *
 * Every service of services/geminiService.ts that is not modelled elsewhere is an oracle in
 * `Services`; the handlers that await several of them are methods that return the generation
 * states they show, in order.
 */
module App {
  import opened Wrappers
  import opened Text
  import opened Types
  import opened Research
  import opened Firewall

  // ---------------------------------------------------------------------------
  // Status messages

  const StartingResearch: string :=
    "\U{6B63}\U{5728}\U{542F}\U{52A8}\U{5168}\U{7EF4}\U{6DF1}\U{5EA6}\U{7814}\U{7A76}..."
  const Distilling: string :=
    "\U{6B63}\U{5728}\U{63D0}\U{70BC}\U{6838}\U{5FC3}\U{6559}\U{5B66}\U{4EF7}\U{503C}..."
  const AwaitingChoice: string :=
    "\U{7B49}\U{5F85}\U{7528}\U{6237}\U{51B3}\U{7B56}..."
  const ResearchFailed: string :=
    "\U{7814}\U{7A76}\U{9636}\U{6BB5}\U{9047}\U{5230}\U{95EE}\U{9898}\U{FF0C}\U{8BF7}\U{91CD}\U{8BD5}\U{3002}"
  const BuildingFramework: string :=
    "\U{6B63}\U{5728}\U{6784}\U{5EFA}\U{6848}\U{4F8B}\U{53D9}\U{4E8B}\U{6846}\U{67B6}..."
  const FrameworkFailed: string :=
    "\U{6846}\U{67B6}\U{751F}\U{6210}\U{5931}\U{8D25}\U{3002}"
  const WritingDraft: string :=
    "\U{6B63}\U{5728}\U{64B0}\U{5199}\U{6848}\U{4F8B}\U{521D}\U{7A3F}..."
  const PolishingCase: string :=
    "\U{8D44}\U{6DF1}\U{7F16}\U{8F91}\U{6B63}\U{5728}\U{8FDB}\U{884C}"
    + "\U{6DF1}\U{5EA6}\U{6DA6}\U{8272}\U{4E0E}\U{6392}\U{7248}..."
  const WritingNotes: string :=
    "\U{6B63}\U{5728}\U{7F16}\U{5236}\U{4E13}\U{4E1A}\U{6559}\U{5B66}\U{6307}\U{5357}..."
  const ReviewingNotes: string :=
    "\U{6559}\U{5B66}\U{6307}\U{5357}: \U{6B63}\U{5728}\U{8FDB}\U{884C}"
    + "\U{6700}\U{7EC8}\U{683C}\U{5F0F}\U{5408}\U{89C4}\U{5BA1}\U{67E5}..."
  const BuildingCharts: string :=
    "\U{6B63}\U{5728}\U{6784}\U{5EFA}\U{5546}\U{4E1A}\U{56FE}\U{8868}"
    + "\U{4E0E}\U{6570}\U{636E}\U{770B}\U{677F}..."
  const Finished: string := "\U{751F}\U{6210}\U{5B8C}\U{6BD5}"
  const DraftFailed: string := "\U{64B0}\U{5199}\U{8FC7}\U{7A0B}\U{4E2D}\U{65AD}\U{3002}"

  // ---------------------------------------------------------------------------
  // Initial state and the view predicates

  /** The case document of a fresh start and of a reset. */
  const InitialData: CaseStudyData :=
    CaseStudyData("", [], "", [], Some(""), Some(""), Some(""), Some(""))

  const InitialState: GenerationState := GenerationState(Idle, 0, "")

  predicate IsIdle(g: GenerationState) { g.step == Idle }

  /** A step that is still waiting for the service, including a framework not yet received. */
  predicate IsProcessing(g: GenerationState, framework: Option<string>) {
    g.step == Researching || g.step == Drafting || (g.step == ReviewFramework && !Truthy(framework))
  }

  predicate IsSelecting(g: GenerationState) { g.step == SelectingObjective }

  predicate IsReviewing(g: GenerationState, framework: Option<string>) {
    g.step == ReviewFramework && Truthy(framework)
  }

  predicate IsCompleted(g: GenerationState) { g.step == Completed }

  predicate IsError(g: GenerationState) { g.step == Error }

  /** The six view predicates, in the order the page tests them. */
  function Views(g: GenerationState, framework: Option<string>): seq<bool> {
    [IsIdle(g), IsProcessing(g, framework), IsSelecting(g), IsReviewing(g, framework), IsCompleted(g), IsError(g)]
  }

  /** Whatever the step and the framework, exactly one view is shown. */
  lemma ExactlyOneView(g: GenerationState, framework: Option<string>)
    ensures var views := Views(g, framework);
      exists i :: 0 <= i < |views| && views[i] && forall j :: 0 <= j < |views| && j != i ==> !views[j]
  {
    var views := Views(g, framework);
    var i := match g.step
      case Idle => 0
      case Researching => 1
      case Drafting => 1
      case ReviewFramework => if Truthy(framework) then 3 else 1
      case SelectingObjective => 2
      case Completed => 4
      case Error => 5;
    assert views[i];
  }

  // ---------------------------------------------------------------------------
  // Research progress

  /** The percentage the research progress callback shows for a message: `人文` wins over `量化`. */
  function ResearchProgress(message: string): int {
    if ContainsSub(message, Label(Human)) then 35
    else if ContainsSub(message, Label(Quant)) then 20
    else 10
  }

  /** The three research messages show 10, 20 and 35 per cent, in the order they are reported. */
  lemma ResearchMilestone(d: Dimension)
    ensures ResearchProgress(ProgressMessage(d)) == if d == General then 10 else if d == Quant then 20 else 35
  {
    var m := ProgressMessage(d);
    match d {
      case General =>
        AbsentFirstChar(m, Label(Human));
        AbsentFirstChar(m, Label(Quant));
      case Quant =>
        AbsentFirstChar(m, Label(Human));
        assert m[5..7] == Label(Quant);
        ContainsSubAt(m, Label(Quant), 5);
      case Human =>
        assert m[5..7] == Label(Human);
        ContainsSubAt(m, Label(Human), 5);
    }
  }

  // ---------------------------------------------------------------------------
  // The title: the first match of `^#\s+(.+)$` in multiline mode

  /** `^` in multiline mode: the start of the text or just after a line terminator. */
  predicate LineStart(s: string, p: nat) {
    p == 0 || (p <= |s| && IsLineTerminator(s[p - 1]))
  }

  /** Where `.+` starting at `r` stops: the next line terminator, or the end of the text. */
  function LineEnd(s: string, r: nat): (e: nat)
    requires r <= |s|
    ensures r <= e <= |s| && (e < |s| ==> IsLineTerminator(s[e]))
    ensures forall j :: r <= j < e ==> !IsLineTerminator(s[j])
    decreases |s| - r
  {
    if r == |s| || IsLineTerminator(s[r]) then r else LineEnd(s, r + 1)
  }

  /** The line that `r` is on ends at `k` when no terminator comes before `k` and one (or the end) is at `k`. */
  lemma {:induction false} LineEndAt(s: string, r: nat, k: nat)
    requires r <= k <= |s|
    requires forall j :: r <= j < k ==> !IsLineTerminator(s[j])
    requires k == |s| || IsLineTerminator(s[k])
    ensures LineEnd(s, r) == k
    decreases k - r
  {
    if r < k {
      LineEndAt(s, r + 1, k);
    }
  }

  /**
   * The pattern matches at `p` with `\s+` ending at `r`: a `#` at a line start, at least one
   * whitespace character (line terminators included), then a character `.` accepts.
   */
  predicate SplitsAt(s: string, p: nat, r: nat) {
    && p < |s| && LineStart(s, p) && s[p] == '#'
    && p + 2 <= r < |s| && AllWhitespace(s[p + 1..r]) && !IsLineTerminator(s[r])
  }

  /** Backtracking `\s+` from its longest run `r` down to one character. */
  function BestSplit(s: string, p: nat, r: nat): (b: Option<nat>)
    ensures b.Some? ==> p + 2 <= b.value <= r && b.value < |s| && !IsLineTerminator(s[b.value])
    ensures b.Some? ==> forall j :: b.value < j <= r && j < |s| ==> IsLineTerminator(s[j])
    ensures b.None? ==> forall j :: p + 2 <= j <= r && j < |s| ==> IsLineTerminator(s[j])
    decreases r
  {
    if r < p + 2 then None
    else if r < |s| && !IsLineTerminator(s[r]) then Some(r)
    else BestSplit(s, p, r - 1)
  }

  /** The capture of the match at `p`, if the pattern matches there. */
  function MatchAt(s: string, p: nat): Option<string> {
    if p < |s| && LineStart(s, p) && s[p] == '#' then
      var b := BestSplit(s, p, p + 1 + LeadingWhitespace(s[p + 1..]));
      if b.Some? then Some(s[b.value..LineEnd(s, b.value)]) else None
    else None
  }

  /** The capture of the first match at or after `p`. */
  function FirstMatch(s: string, p: nat): Option<string>
    decreases |s| - p
  {
    if p >= |s| then None
    else if MatchAt(s, p).Some? then MatchAt(s, p)
    else FirstMatch(s, p + 1)
  }

  /** `titleMatch ? titleMatch[1].trim() : topic`. */
  function ExtractTitle(content: string, topic: string): string {
    var m := FirstMatch(content, 0);
    if m.Some? then Trim(m.value) else topic
  }

  /**
   * The pattern matches at `p` exactly when some split does, and the capture is the rest of
   * the line after the longest such `\s+` run.
   */
  lemma MatchAtExact(s: string, p: nat)
    ensures MatchAt(s, p).Some? <==> exists r: nat :: SplitsAt(s, p, r)
    ensures MatchAt(s, p).Some? ==>
      exists r: nat :: SplitsAt(s, p, r) && MatchAt(s, p) == Some(s[r..LineEnd(s, r)])
        && forall r': nat :: SplitsAt(s, p, r') ==> r' <= r
  {
    if p < |s| && LineStart(s, p) && s[p] == '#' {
      var n := LeadingWhitespace(s[p + 1..]);
      var q := p + 1 + n;
      assert s[p + 1..][..n] == s[p + 1..q];
      assert q < |s| ==> s[q] == s[p + 1..][n];
      assert forall r: nat :: SplitsAt(s, p, r) ==> r <= q;
      forall r: nat | p + 2 <= r <= q && r < |s| && !IsLineTerminator(s[r])
        ensures SplitsAt(s, p, r)
      {
        assert s[p + 1..r] == s[p + 1..q][..r - (p + 1)];
      }
      var b := BestSplit(s, p, q);
      if b.Some? {
        assert SplitsAt(s, p, b.value);
      }
    }
  }

  /** The first match is the match at the first position where the pattern matches. */
  lemma {:induction false} FirstMatchFirst(s: string, p: nat)
    ensures FirstMatch(s, p).None? <==> forall j :: p <= j < |s| ==> MatchAt(s, j).None?
    ensures FirstMatch(s, p).Some? ==>
      exists j :: p <= j < |s| && FirstMatch(s, p) == MatchAt(s, j) && forall i :: p <= i < j ==> MatchAt(s, i).None?
    decreases |s| - p
  {
    if p < |s| && MatchAt(s, p).None? {
      FirstMatchFirst(s, p + 1);
      if FirstMatch(s, p).Some? {
        var j :| p + 1 <= j < |s| && FirstMatch(s, p + 1) == MatchAt(s, j)
          && forall i :: p + 1 <= i < j ==> MatchAt(s, i).None?;
        assert forall i :: p <= i < j ==> MatchAt(s, i).None?;
      }
    }
  }

  /** A `##` heading never matches: `\s+` cannot start at the second `#`. */
  lemma DeeperHeadingNeverMatches(s: string, p: nat)
    requires p + 1 < |s| && s[p + 1] == '#'
    ensures MatchAt(s, p).None?
  {
    assert s[p + 1..][0] == '#';
  }

  /** Without a line that starts with `#` and a non-`#`, the topic stays the title. */
  lemma NoHeadingKeepsTopic(s: string, topic: string)
    requires forall p :: 0 <= p < |s| && LineStart(s, p) && s[p] == '#' ==> p + 1 < |s| && s[p + 1] == '#'
    ensures ExtractTitle(s, topic) == topic
  {
    forall j | 0 <= j < |s|
      ensures MatchAt(s, j).None?
    {
      if LineStart(s, j) && s[j] == '#' {
        DeeperHeadingNeverMatches(s, j);
      }
    }
    FirstMatchFirst(s, 0);
  }

  /** `# Title` on the first line gives the trimmed rest of that line. */
  lemma FirstLineHeading(line: string, rest: string, topic: string)
    requires line != [] && !IsWhitespace(line[0])
    requires forall i :: 0 <= i < |line| ==> !IsLineTerminator(line[i])
    requires rest == [] || IsLineTerminator(rest[0])
    ensures ExtractTitle("# " + line + rest, topic) == Trim(line)
  {
    var s := "# " + line + rest;
    assert s[3..][..0] == [];
    assert s[1..][..1] == " ";
    assert s[1..][1] == line[0];
    assert LeadingWhitespace(s[1..]) == 1 by {
      assert s[1..][1..] == line + rest;
      assert LeadingWhitespace(line + rest) == 0;
    }
    assert SplitsAt(s, 0, 2);
    MatchAtExact(s, 0);
    assert forall i :: 0 <= i < |line| ==> s[2 + i] == line[i];
    assert rest != [] ==> s[2 + |line|] == rest[0];
    LineEndAt(s, 2, 2 + |line|);
    assert s[2..2 + |line|] == line;
  }

  /** After a bare `#`, `\s+` runs over the line break: the next line becomes the title. */
  lemma BareHashTakesNextLine(line: string, rest: string, topic: string)
    requires line != [] && !IsWhitespace(line[0])
    requires forall i :: 0 <= i < |line| ==> !IsLineTerminator(line[i])
    requires rest == [] || IsLineTerminator(rest[0])
    ensures ExtractTitle("#\n" + line + rest, topic) == Trim(line)
  {
    var s := "#\n" + line + rest;
    assert s[1..][1..] == line + rest;
    assert LeadingWhitespace(line + rest) == 0;
    assert LeadingWhitespace(s[1..]) == 1;
    assert SplitsAt(s, 0, 2) by {
      assert s[1..2] == "\n";
    }
    MatchAtExact(s, 0);
    assert forall i :: 0 <= i < |line| ==> s[2 + i] == line[i];
    assert rest != [] ==> s[2 + |line|] == rest[0];
    LineEndAt(s, 2, 2 + |line|);
    assert s[2..2 + |line|] == line;
  }

  /** A heading of spaces only matches too, and gives an empty title rather than the topic. */
  lemma BlankHeadingEmptyTitle(topic: string)
    ensures ExtractTitle("#  ", topic) == ""
  {
    var s := "#  ";
    assert SplitsAt(s, 0, 2) by {
      assert s[1..2] == " ";
    }
    MatchAtExact(s, 0);
    var m := MatchAt(s, 0);
    assert m == Some(s[2..LineEnd(s, 2)]) by {
      var r: nat :| SplitsAt(s, 0, r) && m == Some(s[r..LineEnd(s, r)]) && forall r': nat :: SplitsAt(s, 0, r') ==> r' <= r;
    }
    assert LineEnd(s, 2) == 3;
    assert AllWhitespace(s[2..3]);
  }

  // ---------------------------------------------------------------------------
  // Uploaded files

  /** A file the user picked: its name and its MIME type. */
  datatype PickedFile = PickedFile(name: string, mimeType: string)

  const PdfType: string := "application/pdf"
  const PlainText: string := "text/plain"

  /**
   * A picked file as stored: a PDF keeps its type and holds the Base64 payload; every other
   * file is read as text and stored as `text/plain`. A failed read skips the file.
   */
  function ReadFile(f: PickedFile, readBase64: PickedFile -> Reply<string>, readText: PickedFile -> Reply<string>)
    : Option<UploadedFile>
  {
    if f.mimeType == PdfType then
      (if readBase64(f).Success? then Some(UploadedFile(f.name, f.mimeType, readBase64(f).value, false)) else None)
    else
      (if readText(f).Success? then Some(UploadedFile(f.name, PlainText, readText(f).value, true)) else None)
  }

  /** The files a pick adds, in the order they were picked. */
  function Uploaded(picked: seq<PickedFile>, readBase64: PickedFile -> Reply<string>, readText: PickedFile -> Reply<string>)
    : seq<UploadedFile>
  {
    if picked == [] then []
    else
      var last := ReadFile(picked[|picked| - 1], readBase64, readText);
      Uploaded(picked[..|picked| - 1], readBase64, readText) + (if last.Some? then [last.value] else [])
  }

  /** What `ReadFile` stores: the picked name, and the type the reader used. */
  lemma ReadFileKind(f: PickedFile, readBase64: PickedFile -> Reply<string>, readText: PickedFile -> Reply<string>)
    requires ReadFile(f, readBase64, readText).Some?
    ensures var u := ReadFile(f, readBase64, readText).value;
      && u.name == f.name && (u.isText <==> f.mimeType != PdfType)
      && (u.isText ==> u.mimeType == PlainText) && (!u.isText ==> u.mimeType == PdfType)
  {
  }

  /**
   * Every stored file is one of the picked files, a PDF as binary with its own type and any
   * other file as plain text.
   */
  lemma {:induction false} UploadedClassified(picked: seq<PickedFile>, readBase64: PickedFile -> Reply<string>,
                                              readText: PickedFile -> Reply<string>)
    ensures var u := Uploaded(picked, readBase64, readText);
      && |u| <= |picked|
      && forall k :: 0 <= k < |u| ==>
            && (exists j :: 0 <= j < |picked| && ReadFile(picked[j], readBase64, readText) == Some(u[k])
                  && u[k].name == picked[j].name && (u[k].isText <==> picked[j].mimeType != PdfType))
            && (u[k].isText ==> u[k].mimeType == PlainText)
            && (!u[k].isText ==> u[k].mimeType == PdfType)
  {
    if picked != [] {
      var n := |picked| - 1;
      var front := picked[..n];
      var uf := Uploaded(front, readBase64, readText);
      var last := ReadFile(picked[n], readBase64, readText);
      var u := Uploaded(picked, readBase64, readText);
      assert u == uf + (if last.Some? then [last.value] else []);
      UploadedClassified(front, readBase64, readText);
      forall k | 0 <= k < |u|
        ensures exists j :: 0 <= j < |picked| && ReadFile(picked[j], readBase64, readText) == Some(u[k])
                  && u[k].name == picked[j].name && (u[k].isText <==> picked[j].mimeType != PdfType)
        ensures u[k].isText ==> u[k].mimeType == PlainText
        ensures !u[k].isText ==> u[k].mimeType == PdfType
      {
        if k < |uf| {
          assert u[k] == uf[k];
          var j :| 0 <= j < |front| && ReadFile(front[j], readBase64, readText) == Some(uf[k])
                  && uf[k].name == front[j].name && (uf[k].isText <==> front[j].mimeType != PdfType);
          assert front[j] == picked[j];
        } else {
          assert u[k] == last.value;
          ReadFileKind(picked[n], readBase64, readText);
        }
      }
    }
  }

  /** When every read succeeds, every picked file is stored, in the order picked. */
  lemma {:induction false} UploadedAll(picked: seq<PickedFile>, readBase64: PickedFile -> Reply<string>,
                                       readText: PickedFile -> Reply<string>)
    requires forall j :: 0 <= j < |picked| ==> ReadFile(picked[j], readBase64, readText).Some?
    ensures var u := Uploaded(picked, readBase64, readText);
      |u| == |picked| && forall k :: 0 <= k < |u| ==> Some(u[k]) == ReadFile(picked[k], readBase64, readText)
  {
    if picked != [] {
      var n := |picked| - 1;
      var front := picked[..n];
      var uf := Uploaded(front, readBase64, readText);
      var last := ReadFile(picked[n], readBase64, readText);
      var u := Uploaded(picked, readBase64, readText);
      assert u == uf + [last.value];
      forall j | 0 <= j < |front| ensures ReadFile(front[j], readBase64, readText).Some? {
        assert front[j] == picked[j];
      }
      UploadedAll(front, readBase64, readText);
      forall k | 0 <= k < |u| ensures Some(u[k]) == ReadFile(picked[k], readBase64, readText) {
        if k < n {
          assert u[k] == uf[k] && front[k] == picked[k];
        }
      }
    }
  }

  /** `prev.filter((_, i) => i !== index)`. */
  function RemoveFile<T>(files: seq<T>, index: int): seq<T> {
    if files == [] then []
    else RemoveFile(files[..|files| - 1], index) + (if |files| - 1 != index then [files[|files| - 1]] else [])
  }

  /** Removing drops exactly the file at `index` and keeps the others in order; no such file, no change. */
  lemma {:induction false} RemoveFileExact<T>(files: seq<T>, index: int)
    ensures 0 <= index < |files| ==> RemoveFile(files, index) == files[..index] + files[index + 1..]
    ensures !(0 <= index < |files|) ==> RemoveFile(files, index) == files
  {
    if files != [] {
      var n := |files| - 1;
      var front := files[..n];
      RemoveFileExact(front, index);
      if index == n {
        assert files[index + 1..] == [];
      } else if 0 <= index < n {
        assert front[..index] == files[..index];
        assert front[index + 1..] + [files[n]] == files[index + 1..];
      } else {
        assert front + [files[n]] == files;
      }
    }
  }

  // ---------------------------------------------------------------------------
  // The services

  /**
   * The service calls the handlers await. `researchPrompt(topic, fileCount)` is the system text
   * of each research dimension; the generators answer the cleaned reply text or the error
   * thrown; the two rewrites answer the raw reply text.
   */
  datatype Services = Services(
    researchPrompt: (string, nat) -> Dimension -> string,
    search: (Dimension, seq<Part>) -> Reply<Response>,
    objectives: string -> Reply<seq<string>>,
    refineObjectives: (string, string) -> Reply<seq<string>>,
    framework: (string, Option<string>, Option<string>, Option<string>) -> Reply<string>,
    caseDraft: (string, Option<string>, Option<string>) -> Reply<string>,
    polishCase: string -> Reply<Option<string>>,
    notesDraft: (string, Option<string>, string) -> Reply<string>,
    polishNotes: string -> Reply<Option<string>>,
    firewall: Checker,
    visuals: Checker)

  /** `polishCaseContent` / `polishTeachingNotes` after the rewrite: its text through the format firewall. */
  function PolishRun(rewritten: Reply<Option<string>>, firewall: Checker, trace: seq<Call>): Run {
    if rewritten.Failure? then Run(Failure(rewritten.error), trace)
    else Loop(firewall, None, FirewallRounds, 0, OrEmpty(rewritten.value), trace)
  }

  method Polish(rewritten: Reply<Option<string>>, firewall: Checker, trace0: seq<Call>) returns (r: Run)
    ensures r == PolishRun(rewritten, firewall, trace0)
  {
    if rewritten.Failure? {
      return Run(Failure(rewritten.error), trace0);
    }
    var polished := OrEmpty(rewritten.value);
    r := RunStrictFirewall(polished, firewall, None, trace0);
  }

  // ---------------------------------------------------------------------------
  // What the handlers show

  function ErrorState(message: string): GenerationState {
    GenerationState(Error, 0, message)
  }

  /** `{...prev, message, progress}`: what the research progress callback shows for a message. */
  function ProgressState(message: string): GenerationState {
    GenerationState(Researching, ResearchProgress(message), message)
  }

  /** The progress callback's states for each message in turn. */
  function ProgressStates(messages: seq<string>): (states: seq<GenerationState>)
    ensures |states| == |messages|
  {
    seq(|messages|, k requires 0 <= k < |messages| => ProgressState(messages[k]))
  }

  /** The research states are the callback's states for the research messages, between the start and the end. */
  lemma ResearchShownOf(ok: bool)
    ensures ResearchShown(ok) ==
      [GenerationState(Researching, 5, StartingResearch)] + ProgressStates(ResearchMessages)
      + [GenerationState(Researching, 45, Distilling),
         if ok then GenerationState(SelectingObjective, 50, AwaitingChoice) else ErrorState(ResearchFailed)]
  {
  }

  /** The states `handleStartResearch` shows, as the objectives arrive (`ok`) or fail. */
  function ResearchShown(ok: bool): seq<GenerationState> {
    [GenerationState(Researching, 5, StartingResearch),
     ProgressState(ProgressMessage(General)),
     ProgressState(ProgressMessage(Quant)),
     ProgressState(ProgressMessage(Human)),
     GenerationState(Researching, 45, Distilling),
     if ok then GenerationState(SelectingObjective, 50, AwaitingChoice) else ErrorState(ResearchFailed)]
  }

  function SelectShown(ok: bool): seq<GenerationState> {
    [GenerationState(ReviewFramework, 55, BuildingFramework)] + (if ok then [] else [ErrorState(FrameworkFailed)])
  }

  /** The five drafting stages of `handleApproveFramework`. */
  const DraftingStates: seq<GenerationState> := [
    GenerationState(Drafting, 60, WritingDraft),
    GenerationState(Drafting, 70, PolishingCase),
    GenerationState(Drafting, 85, WritingNotes),
    GenerationState(Drafting, 90, ReviewingNotes),
    GenerationState(Drafting, 95, BuildingCharts)]

  const Done: GenerationState := GenerationState(Completed, 100, Finished)

  function DraftShown(stages: nat, ok: bool): seq<GenerationState>
    requires stages <= |DraftingStates|
  {
    DraftingStates[..stages] + [if ok then Done else ErrorState(DraftFailed)]
  }

  /** The document drafting produces: the title and the two texts. */
  datatype Draft = Draft(title: string, caseContent: string, teachingNotes: string)

  /** How far drafting gets: the stages shown, and the document when no call threw. */
  datatype Drafted = Drafted(stages: nat, draft: Option<Draft>)

  /**
   * `handleApproveFramework` from `data`: the case draft, its polish, the title taken from the
   * polished case, the notes and their polish, then the chart audit of the case and of the
   * notes. The firewall and the chart audits see one trace, in the order of their calls.
   */
  function Approved(data: CaseStudyData, svc: Services): (d: Drafted)
    ensures 1 <= d.stages <= |DraftingStates|
    ensures d.draft.Some? ==> d.stages == |DraftingStates|
  {
    var raw := svc.caseDraft(data.context, data.selectedObjective, data.framework);
    if raw.Failure? then Drafted(1, None)
    else
      var polishedCase := PolishRun(svc.polishCase(raw.value), svc.firewall, []);
      if polishedCase.result.Failure? then Drafted(2, None)
      else
        var title := ExtractTitle(polishedCase.result.value, data.topic);
        var rawNotes := svc.notesDraft(data.context, data.selectedObjective, polishedCase.result.value);
        if rawNotes.Failure? then Drafted(3, None)
        else
          var polishedNotes := PolishRun(svc.polishNotes(rawNotes.value), svc.firewall, polishedCase.trace);
          if polishedNotes.result.Failure? then Drafted(4, None)
          else
            var finalCase := Loop(svc.visuals, None, VisualRounds, 0, polishedCase.result.value, polishedNotes.trace);
            if finalCase.result.Failure? then Drafted(5, None)
            else
              var finalNotes := Loop(svc.visuals, None, VisualRounds, 0, polishedNotes.result.value, finalCase.trace);
              if finalNotes.result.Failure? then Drafted(5, None)
              else Drafted(5, Some(Draft(title, finalCase.result.value, finalNotes.result.value)))
  }

  // ---------------------------------------------------------------------------
  // The workflow

  class Workflow {
    var topic: string
    var uploadedFiles: seq<UploadedFile>
    var caseData: CaseStudyData
    var genState: GenerationState
    var isRefiningObjectives: bool
    var isRefiningFramework: bool

    constructor ()
      ensures topic == "" && uploadedFiles == [] && caseData == InitialData && genState == InitialState
      ensures !isRefiningObjectives && !isRefiningFramework
    {
      topic := "";
      uploadedFiles := [];
      caseData := InitialData;
      genState := InitialState;
      isRefiningObjectives := false;
      isRefiningFramework := false;
    }

    /** The topic field's `onChange`. */
    method EditTopic(t: string)
      modifies this
      ensures topic == t
      ensures uploadedFiles == old(uploadedFiles) && caseData == old(caseData) && genState == old(genState)
      ensures isRefiningObjectives == old(isRefiningObjectives) && isRefiningFramework == old(isRefiningFramework)
    {
      topic := t;
    }

    /** `handleFileChange`: each picked file read in turn, the ones read appended after the others. */
    method HandleFileChange(picked: seq<PickedFile>, readBase64: PickedFile -> Reply<string>,
                            readText: PickedFile -> Reply<string>)
      modifies this
      ensures uploadedFiles == old(uploadedFiles) + Uploaded(picked, readBase64, readText)
      ensures topic == old(topic) && caseData == old(caseData) && genState == old(genState)
      ensures isRefiningObjectives == old(isRefiningObjectives) && isRefiningFramework == old(isRefiningFramework)
    {
      var newFiles: seq<UploadedFile> := [];
      for i := 0 to |picked|
        invariant newFiles == Uploaded(picked[..i], readBase64, readText)
      {
        assert picked[..i + 1][..i] == picked[..i];
        var file := picked[i];
        if file.mimeType == PdfType {
          var data := readBase64(file);
          if data.Success? {
            newFiles := newFiles + [UploadedFile(file.name, file.mimeType, data.value, false)];
          }
        } else {
          var text := readText(file);
          if text.Success? {
            newFiles := newFiles + [UploadedFile(file.name, PlainText, text.value, true)];
          }
        }
      }
      assert picked[..|picked|] == picked;
      uploadedFiles := uploadedFiles + newFiles;
    }

    /** `removeFile`. */
    method HandleRemoveFile(index: int)
      modifies this
      ensures uploadedFiles == RemoveFile(old(uploadedFiles), index)
      ensures topic == old(topic) && caseData == old(caseData) && genState == old(genState)
      ensures isRefiningObjectives == old(isRefiningObjectives) && isRefiningFramework == old(isRefiningFramework)
    {
      uploadedFiles := RemoveFile(uploadedFiles, index);
    }

    /** The progress callback handed to `gatherInformation`: the message and its percentage, same step. */
    method ReportProgress(message: string)
      modifies this
      ensures genState == old(genState).(message := message, progress := ResearchProgress(message))
      ensures topic == old(topic) && uploadedFiles == old(uploadedFiles) && caseData == old(caseData)
      ensures isRefiningObjectives == old(isRefiningObjectives) && isRefiningFramework == old(isRefiningFramework)
    {
      var p := 10;
      if ContainsSub(message, Label(Quant)) {
        p := 20;
      }
      if ContainsSub(message, Label(Human)) {
        p := 35;
      }
      genState := genState.(message := message, progress := p);
    }

    /** The progress callback for each message in turn: the states it shows. */
    method ReportAll(messages: seq<string>) returns (states: seq<GenerationState>)
      requires genState.step == Researching
      modifies this
      ensures states == ProgressStates(messages)
      ensures messages != [] ==> genState == states[|states| - 1]
      ensures messages == [] ==> genState == old(genState)
      ensures topic == old(topic) && uploadedFiles == old(uploadedFiles) && caseData == old(caseData)
      ensures isRefiningObjectives == old(isRefiningObjectives) && isRefiningFramework == old(isRefiningFramework)
    {
      states := [];
      for i := 0 to |messages|
        invariant states == ProgressStates(messages[..i])
        invariant genState.step == Researching
        invariant i > 0 ==> genState == states[|states| - 1]
        invariant i == 0 ==> genState == old(genState)
        invariant topic == old(topic) && uploadedFiles == old(uploadedFiles) && caseData == old(caseData)
        invariant isRefiningObjectives == old(isRefiningObjectives) && isRefiningFramework == old(isRefiningFramework)
      {
        ReportProgress(messages[i]);
        states := states + [genState];
        assert ProgressStates(messages[..i + 1]) == ProgressStates(messages[..i]) + [genState];
      }
      assert messages[..|messages|] == messages;
    }

    /** The research itself: the progress it reports, then its dossiers and sources put into the document. */
    method Research(svc: Services) returns (reported: seq<GenerationState>)
      requires genState.step == Researching
      modifies this
      ensures reported == ProgressStates(ResearchMessages)
      ensures var prompt := svc.researchPrompt(topic, |uploadedFiles|);
        caseData == old(caseData).(
          topic := topic, context := Context(uploadedFiles, prompt, svc.search),
          sources := Dedup(Collected(uploadedFiles, prompt, svc.search), {}))
      ensures topic == old(topic) && uploadedFiles == old(uploadedFiles)
      ensures isRefiningObjectives == old(isRefiningObjectives) && isRefiningFramework == old(isRefiningFramework)
    {
      var context, sources, progress := GatherInformation(uploadedFiles, svc.researchPrompt(topic, |uploadedFiles|), svc.search);
      reported := ReportAll(progress);
      caseData := caseData.(topic := topic, context := context, sources := sources);
    }

    /**
     * `handleStartResearch`: nothing for a blank topic; otherwise the research, whose dossiers
     * and de-duplicated sources go into the document with the topic, then the objectives.
     */
    method HandleStartResearch(svc: Services) returns (shown: seq<GenerationState>)
      modifies this
      ensures Trim(old(topic)) == [] ==> shown == [] && caseData == old(caseData) && genState == old(genState)
      ensures Trim(old(topic)) != [] ==>
        var prompt := svc.researchPrompt(old(topic), |old(uploadedFiles)|);
        var context := Context(old(uploadedFiles), prompt, svc.search);
        var goals := svc.objectives(context);
        && shown == ResearchShown(goals.Success?)
        && genState == shown[|shown| - 1]
        && caseData == old(caseData).(
             topic := old(topic), context := context,
             sources := Dedup(Collected(old(uploadedFiles), prompt, svc.search), {}),
             objectives := if goals.Success? then goals.value else old(caseData).objectives)
      ensures topic == old(topic) && uploadedFiles == old(uploadedFiles)
      ensures isRefiningObjectives == old(isRefiningObjectives) && isRefiningFramework == old(isRefiningFramework)
    {
      if Trim(topic) == [] {
        return [];
      }
      genState := GenerationState(Researching, 5, StartingResearch);
      var reported := Research(svc);
      var objectives := svc.objectives(caseData.context);
      var last: GenerationState;
      if objectives.Failure? {
        last := ErrorState(ResearchFailed);
      } else {
        caseData := caseData.(objectives := objectives.value);
        last := GenerationState(SelectingObjective, 50, AwaitingChoice);
      }
      genState := last;
      shown := [GenerationState(Researching, 5, StartingResearch)] + reported
               + [GenerationState(Researching, 45, Distilling), last];
      ResearchShownOf(objectives.Success?);
    }

    /** `handleRefineObjectives`: new objectives when the call succeeds; the flag is down again after. */
    method HandleRefineObjectives(direction: string, svc: Services)
      modifies this
      ensures var goals := svc.refineObjectives(old(caseData).context, direction);
        caseData == if goals.Success? then old(caseData).(objectives := goals.value) else old(caseData)
      ensures !isRefiningObjectives
      ensures topic == old(topic) && uploadedFiles == old(uploadedFiles) && genState == old(genState)
      ensures isRefiningFramework == old(isRefiningFramework)
    {
      isRefiningObjectives := true;
      var goals := svc.refineObjectives(caseData.context, direction);
      if goals.Success? {
        caseData := caseData.(objectives := goals.value);
      }
      isRefiningObjectives := false;
    }

    /** `handleObjectiveSelect`: the objective recorded, then the framework generated for it. */
    method HandleObjectiveSelect(objective: string, svc: Services) returns (shown: seq<GenerationState>)
      modifies this
      ensures var fw := svc.framework(old(caseData).context, Some(objective), None, None);
        && shown == SelectShown(fw.Success?)
        && genState == shown[|shown| - 1]
        && caseData == old(caseData).(
             selectedObjective := Some(objective),
             framework := if fw.Success? then Some(fw.value) else old(caseData).framework)
      ensures topic == old(topic) && uploadedFiles == old(uploadedFiles)
      ensures isRefiningObjectives == old(isRefiningObjectives) && isRefiningFramework == old(isRefiningFramework)
    {
      caseData := caseData.(selectedObjective := Some(objective));
      genState := GenerationState(ReviewFramework, 55, BuildingFramework);
      shown := [genState];
      var fw := svc.framework(caseData.context, Some(objective), None, None);
      if fw.Success? {
        caseData := caseData.(framework := Some(fw.value));
      } else {
        genState := ErrorState(FrameworkFailed);
        shown := shown + [genState];
      }
    }

    /** `handleRefineFramework`: the framework regenerated with the feedback when the call succeeds. */
    method HandleRefineFramework(feedback: string, svc: Services)
      modifies this
      ensures var fw := svc.framework(old(caseData).context, old(caseData).selectedObjective,
                                      Some(feedback), old(caseData).framework);
        caseData == if fw.Success? then old(caseData).(framework := Some(fw.value)) else old(caseData)
      ensures !isRefiningFramework
      ensures topic == old(topic) && uploadedFiles == old(uploadedFiles) && genState == old(genState)
      ensures isRefiningObjectives == old(isRefiningObjectives)
    {
      isRefiningFramework := true;
      var fw := svc.framework(caseData.context, caseData.selectedObjective, Some(feedback), caseData.framework);
      if fw.Success? {
        caseData := caseData.(framework := Some(fw.value));
      }
      isRefiningFramework := false;
    }

    /** `handleUpdateFrameworkManual`. */
    method HandleUpdateFrameworkManual(framework: string)
      modifies this
      ensures caseData == old(caseData).(framework := Some(framework))
      ensures topic == old(topic) && uploadedFiles == old(uploadedFiles) && genState == old(genState)
      ensures isRefiningObjectives == old(isRefiningObjectives) && isRefiningFramework == old(isRefiningFramework)
    {
      caseData := caseData.(framework := Some(framework));
    }

    /** `handleApproveFramework`: the drafting stages, and the document only when no call threw. */
    method HandleApproveFramework(svc: Services) returns (shown: seq<GenerationState>)
      modifies this
      ensures var d := Approved(old(caseData), svc);
        && shown == DraftShown(d.stages, d.draft.Some?)
        && genState == shown[|shown| - 1]
        && caseData == if d.draft.None? then old(caseData)
                       else old(caseData).(topic := d.draft.value.title,
                                           caseContent := Some(d.draft.value.caseContent),
                                           teachingNotes := Some(d.draft.value.teachingNotes))
      ensures topic == old(topic) && uploadedFiles == old(uploadedFiles)
      ensures isRefiningObjectives == old(isRefiningObjectives) && isRefiningFramework == old(isRefiningFramework)
    {
      var data := caseData;
      ghost var d := Approved(data, svc);
      var raw := svc.caseDraft(data.context, data.selectedObjective, data.framework);
      if raw.Failure? {
        assert d == Drafted(1, None);
        shown := ShowFailure(1);
        return;
      }
      var polishedCase := Polish(svc.polishCase(raw.value), svc.firewall, []);
      if polishedCase.result.Failure? {
        assert d == Drafted(2, None);
        shown := ShowFailure(2);
        return;
      }
      var title := ExtractTitle(polishedCase.result.value, data.topic);
      var rawNotes := svc.notesDraft(data.context, data.selectedObjective, polishedCase.result.value);
      if rawNotes.Failure? {
        assert d == Drafted(3, None);
        shown := ShowFailure(3);
        return;
      }
      var polishedNotes := Polish(svc.polishNotes(rawNotes.value), svc.firewall, polishedCase.trace);
      if polishedNotes.result.Failure? {
        assert d == Drafted(4, None);
        shown := ShowFailure(4);
        return;
      }
      var finalCase := GenerateAndAuditVisuals(polishedCase.result.value, svc.visuals, None, polishedNotes.trace);
      if finalCase.result.Failure? {
        assert d == Drafted(5, None);
        shown := ShowFailure(5);
        return;
      }
      var finalNotes := GenerateAndAuditVisuals(polishedNotes.result.value, svc.visuals, None, finalCase.trace);
      if finalNotes.result.Failure? {
        assert d == Drafted(5, None);
        shown := ShowFailure(5);
        return;
      }
      assert d == Drafted(5, Some(Draft(title, finalCase.result.value, finalNotes.result.value)));
      caseData := data.(topic := title, caseContent := Some(finalCase.result.value),
                        teachingNotes := Some(finalNotes.result.value));
      genState := Done;
      shown := DraftingStates + [Done];
    }

    /** The stages reached, then the error: what a failed drafting shows. */
    method ShowFailure(stages: nat) returns (shown: seq<GenerationState>)
      requires 1 <= stages <= |DraftingStates|
      modifies this
      ensures shown == DraftShown(stages, false) && genState == ErrorState(DraftFailed)
      ensures topic == old(topic) && uploadedFiles == old(uploadedFiles) && caseData == old(caseData)
      ensures isRefiningObjectives == old(isRefiningObjectives) && isRefiningFramework == old(isRefiningFramework)
    {
      genState := ErrorState(DraftFailed);
      shown := DraftingStates[..stages] + [genState];
    }

    /** `handleReset`: back to exactly the state the page starts in. */
    method HandleReset()
      modifies this
      ensures topic == "" && uploadedFiles == [] && caseData == InitialData && genState == InitialState
      ensures isRefiningObjectives == old(isRefiningObjectives) && isRefiningFramework == old(isRefiningFramework)
    {
      topic := "";
      uploadedFiles := [];
      caseData := CaseStudyData("", [], "", [], Some(""), Some(""), Some(""), Some(""));
      genState := GenerationState(Idle, 0, "");
    }
  }

  // ---------------------------------------------------------------------------
  // Properties of the shown states

  /** The order of the steps along the successful path; an error is outside it. */
  function Rank(step: GenerationStep): nat {
    match step
    case Idle => 0
    case Researching => 1
    case SelectingObjective => 2
    case ReviewFramework => 3
    case Drafting => 4
    case Completed => 5
    case Error => 6
  }

  /** Progress strictly grows along `states`, all of them in `step`. */
  predicate Advancing(states: seq<GenerationState>, step: GenerationStep) {
    forall k :: 0 <= k < |states| ==> states[k].step == step && (k > 0 ==> states[k - 1].progress < states[k].progress)
  }

  predicate Percentages(states: seq<GenerationState>) {
    forall k :: 0 <= k < |states| ==> 0 <= states[k].progress <= 100
  }

  /**
   * A stretch of the successful path: no error, percentages, and from one state to the next
   * the step stays or moves on by one, and progress does not fall.
   */
  predicate OnPath(states: seq<GenerationState>) {
    && Percentages(states)
    && (forall k :: 0 <= k < |states| ==> states[k].step != Error)
    && (forall k :: 0 <= k < |states| - 1 ==>
          && Rank(states[k].step) <= Rank(states[k + 1].step) <= Rank(states[k].step) + 1
          && states[k].progress <= states[k + 1].progress)
  }

  /** Two stretches of the path make one when the second starts where the first may go next. */
  lemma OnPathJoin(a: seq<GenerationState>, b: seq<GenerationState>)
    requires a != [] && b != [] && OnPath(a) && OnPath(b)
    requires Rank(a[|a| - 1].step) <= Rank(b[0].step) <= Rank(a[|a| - 1].step) + 1
    requires a[|a| - 1].progress <= b[0].progress
    ensures OnPath(a + b)
  {
    var ab := a + b;
    forall k | 0 <= k < |ab| - 1
      ensures Rank(ab[k].step) <= Rank(ab[k + 1].step) <= Rank(ab[k].step) + 1
      ensures ab[k].progress <= ab[k + 1].progress
    {
      if k < |a| - 1 {
        assert ab[k] == a[k] && ab[k + 1] == a[k + 1];
      } else if k == |a| - 1 {
        assert ab[k] == a[|a| - 1] && ab[k + 1] == b[0];
      } else {
        assert ab[k] == b[k - |a|] && ab[k + 1] == b[k - |a| + 1];
      }
    }
  }

  /** The six states of `handleStartResearch`, one by one: the research messages show 10, 20 and 35 per cent. */
  lemma ResearchShownAt(ok: bool)
    ensures var r := ResearchShown(ok);
      && |r| == 6
      && r[0].progress == 5 && r[1].progress == 10 && r[2].progress == 20 && r[3].progress == 35
      && r[4].progress == 45
      && r[0].step == Researching && r[1].step == Researching && r[2].step == Researching
      && r[3].step == Researching && r[4].step == Researching
      && r[5] == if ok then GenerationState(SelectingObjective, 50, AwaitingChoice) else ErrorState(ResearchFailed)
  {
    ResearchMilestone(General);
    ResearchMilestone(Quant);
    ResearchMilestone(Human);
  }

  /** The shape of research's states, from the states one by one. */
  lemma ResearchShape(r: seq<GenerationState>)
    requires |r| == 6
    requires r[0].progress == 5 && r[1].progress == 10 && r[2].progress == 20 && r[3].progress == 35
    requires r[4].progress == 45 && 0 <= r[5].progress <= 100
    requires r[0].step == Researching && r[1].step == Researching && r[2].step == Researching
    requires r[3].step == Researching && r[4].step == Researching
    ensures Percentages(r) && Advancing(r[..5], Researching)
    ensures r[5].step == SelectingObjective && r[5].progress == 50 ==> OnPath(r)
  {
  }

  /**
   * Research shows percentages that grow while it is researching, and ends in the objective
   * choice at 50 per cent or, when the objectives call throws, in the error step at 0.
   */
  lemma ResearchShownProgress(ok: bool)
    ensures var r := ResearchShown(ok);
      && |r| == 6 && Percentages(r) && Advancing(r[..5], Researching)
      && r[4].progress == 45
      && r[5] == (if ok then GenerationState(SelectingObjective, 50, AwaitingChoice) else ErrorState(ResearchFailed))
      && (ok ==> OnPath(r))
  {
    ResearchShownAt(ok);
    ResearchShape(ResearchShown(ok));
  }

  /**
   * Drafting shows growing percentages from 60 to 95 while drafting, and ends completed at 100
   * per cent or, when a call throws, in the error step at 0.
   */
  lemma DraftShownProgress(stages: nat, ok: bool)
    requires stages <= |DraftingStates|
    ensures var d := DraftShown(stages, ok);
      && |d| == stages + 1 && Percentages(d) && Advancing(d[..stages], Drafting)
      && d[stages] == (if ok then Done else ErrorState(DraftFailed))
      && (ok ==> OnPath(d))
  {
    var d := DraftShown(stages, ok);
    assert d[..stages] == DraftingStates[..stages];
    assert Advancing(DraftingStates, Drafting);
  }

  /** Choosing an objective shows 55 per cent, then the error step at 0 when the framework call throws. */
  lemma SelectShownProgress(ok: bool)
    ensures var c := SelectShown(ok);
      && Percentages(c) && c[0] == GenerationState(ReviewFramework, 55, BuildingFramework)
      && (ok ==> |c| == 1 && OnPath(c)) && (!ok ==> |c| == 2 && c[1] == ErrorState(FrameworkFailed))
  {
  }

  /**
   * When no call throws, a session from the initial state goes Idle, Researching,
   * SelectingObjective, ReviewFramework, Drafting, Completed: the step never goes back, never
   * skips one, and progress never falls, from 0 to 100.
   */
  lemma SuccessfulPath()
    ensures var path := [InitialState] + ResearchShown(true) + SelectShown(true) + DraftShown(|DraftingStates|, true);
      && path[0] == InitialState && path[|path| - 1] == Done && OnPath(path)
  {
    var r, c, d := ResearchShown(true), SelectShown(true), DraftShown(|DraftingStates|, true);
    ResearchShownProgress(true);
    SelectShownProgress(true);
    DraftShownProgress(|DraftingStates|, true);
    var a1 := [InitialState] + r;
    OnPathJoin([InitialState], r);
    assert a1[|a1| - 1] == r[5];
    var a2 := a1 + c;
    OnPathJoin(a1, c);
    assert a2[|a2| - 1] == c[0];
    assert d[0] == DraftingStates[0];
    OnPathJoin(a2, d);
    assert a2 + d == [InitialState] + r + c + d;
  }
}
