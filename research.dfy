/**
 * `gatherInformation` of services/geminiService.ts: three research calls (general,
 * quantitative, human), each sent the system text followed by one part per uploaded file;
 * the dossiers are concatenated in that order and the web sources the calls cite are
 * de-duplicated by URI.
 *
 * The search call (`callWithRetry` around the hosted model) is an oracle from a dimension
 * and the parts sent to the reply or the thrown error; the system text of each dimension,
 * built from prompt texts and the topic, is an input.
 */
module Research {
  import opened Wrappers
  import opened Text
  import opened Types

  datatype Dimension = General | Quant | Human

  function Label(d: Dimension): string {
    match d
    case General => "\U{7EFC}\U{5408}"
    case Quant => "\U{91CF}\U{5316}"
    case Human => "\U{4EBA}\U{6587}"
  }

  /** The progress message reported before each call. */
  function ProgressMessage(d: Dimension): string {
    "\U{6B63}\U{5728}\U{8FDB}\U{884C} " + Label(d) + " \U{7EF4}\U{5EA6}\U{7684}\U{6DF1}\U{5EA6}\U{7814}\U{7A76}..."
  }

  /** One part of the request: a text, or a file sent as inline data. */
  datatype Part = TextPart(text: string) | InlineData(mimeType: string, data: string)

  datatype WebRef = WebRef(title: string, uri: string)

  /** A grounding chunk; only those with a `web` field cite a source. */
  datatype Chunk = Chunk(web: Option<WebRef>)

  /** The reply's `text` and the first candidate's grounding chunks; either may be missing. */
  datatype Response = Response(text: Option<string>, chunks: Option<seq<Chunk>>)

  /** A text file is wrapped in begin and end markers. */
  function DocumentText(f: UploadedFile): string {
    "\n\n--- BEGIN UPLOADED DOCUMENT: " + f.name + " ---\n" + f.data + "\n--- END UPLOADED DOCUMENT ---\n"
  }

  function FilePart(f: UploadedFile): Part {
    if f.isText then TextPart(DocumentText(f)) else InlineData(f.mimeType, f.data)
  }

  /** The parts of one request: the system text, then each file in upload order. */
  function PartsOf(systemText: string, files: seq<UploadedFile>): (parts: seq<Part>)
    ensures |parts| == |files| + 1 && parts[0] == TextPart(systemText)
  {
    [TextPart(systemText)] + seq(|files|, k requires 0 <= k < |files| => FilePart(files[k]))
  }

  /** `parts.push(...)` for the system text and then for each file. */
  method BuildParts(systemText: string, files: seq<UploadedFile>) returns (parts: seq<Part>)
    ensures parts == PartsOf(systemText, files)
  {
    parts := [TextPart(systemText)];
    for k := 0 to |files|
      invariant |parts| == k + 1 && parts[0] == TextPart(systemText)
      invariant forall j :: 0 <= j < k ==> parts[j + 1] == FilePart(files[j])
    {
      var f := files[k];
      if f.isText {
        parts := parts + [TextPart(DocumentText(f))];
      } else {
        parts := parts + [InlineData(f.mimeType, f.data)];
      }
    }
  }

  /** Every file reaches the request whole: a PDF as its payload, a text file inside its part. */
  lemma FilePartsCarryData(systemText: string, files: seq<UploadedFile>)
    ensures var parts := PartsOf(systemText, files);
      forall k :: 0 <= k < |files| ==>
        if files[k].isText then parts[k + 1].TextPart? && ContainsSub(parts[k + 1].text, files[k].data)
        else parts[k + 1] == InlineData(files[k].mimeType, files[k].data)
  {
    var parts := PartsOf(systemText, files);
    forall k | 0 <= k < |files| && files[k].isText
      ensures ContainsSub(parts[k + 1].text, files[k].data)
    {
      var f := files[k];
      var head := "\n\n--- BEGIN UPLOADED DOCUMENT: " + f.name + " ---\n";
      var t := DocumentText(f);
      assert t == head + f.data + "\n--- END UPLOADED DOCUMENT ---\n";
      assert t[|head|..|head| + |f.data|] == f.data;
      ContainsSubAt(t, f.data, |head|);
    }
  }

  // ---------------------------------------------------------------------------
  // One research call

  function SourceOf(w: WebRef): SearchSource {
    SearchSource(w.title, w.uri, Some(""))
  }

  /** The sources cited by the chunks, in order. */
  function ChunkSources(chunks: seq<Chunk>): seq<SearchSource> {
    if chunks == [] then []
    else
      ChunkSources(chunks[..|chunks| - 1])
      + (if chunks[|chunks| - 1].web.Some? then [SourceOf(chunks[|chunks| - 1].web.value)] else [])
  }

  /** Exactly the chunks with a `web` field become sources, each with an empty snippet. */
  lemma {:induction false} ChunkSourcesExact(chunks: seq<Chunk>)
    ensures var found := ChunkSources(chunks);
      && (forall k :: 0 <= k < |found| ==>
            found[k].snippet == Some("") && Chunk(Some(WebRef(found[k].title, found[k].uri))) in chunks)
      && (forall c :: c in chunks && c.web.Some? ==> SourceOf(c.web.value) in found)
  {
    if chunks != [] {
      var front := chunks[..|chunks| - 1];
      ChunkSourcesExact(front);
      assert forall c :: c in front ==> c in chunks;
      assert forall c :: c in chunks ==> c in front || c == chunks[|chunks| - 1];
    }
  }

  /** `chunks.forEach(...)`: push a source for each chunk with a `web` field. */
  method WebSources(chunks: seq<Chunk>) returns (found: seq<SearchSource>)
    ensures found == ChunkSources(chunks)
  {
    found := [];
    for i := 0 to |chunks|
      invariant found == ChunkSources(chunks[..i])
    {
      assert chunks[..i + 1][..i] == chunks[..i];
      if chunks[i].web.Some? {
        found := found + [SearchSource(chunks[i].web.value.title, chunks[i].web.value.uri, Some(""))];
      }
    }
    assert chunks[..|chunks|] == chunks;
  }

  /** `${response.text}` prints a missing text as `undefined`. */
  function Interpolated(text: Option<string>): string {
    if text.Some? then text.value else "undefined"
  }

  function Section(d: Dimension, text: Option<string>): string {
    "\n\n### \U{3010}" + Label(d) + " \U{539F}\U{59CB}\U{60C5}\U{62A5}\U{6863}\U{6848}\U{3011} ###\n" + Interpolated(text) + "\n\n"
  }

  /** What the call for `d` answers. */
  function Answer(d: Dimension, files: seq<UploadedFile>, systemText: Dimension -> string,
                  search: (Dimension, seq<Part>) -> Reply<Response>): Reply<Response>
  {
    search(d, PartsOf(systemText(d), files))
  }

  /** The dossier of a dimension: its section, or `""` when the call throws. */
  function Dossier(answer: Reply<Response>, d: Dimension): string {
    if answer.Failure? then "" else Section(d, answer.value.text)
  }

  /** The sources of a dimension: none when the call throws or the reply has no chunks. */
  function Found(answer: Reply<Response>): seq<SearchSource> {
    if answer.Failure? || answer.value.chunks.None? then [] else ChunkSources(answer.value.chunks.value)
  }

  /** `searchAndCollect`: the progress message, the dossier and the sources found. */
  method SearchAndCollect(d: Dimension, files: seq<UploadedFile>, systemText: Dimension -> string,
                          search: (Dimension, seq<Part>) -> Reply<Response>)
    returns (message: string, dossier: string, found: seq<SearchSource>)
    ensures message == ProgressMessage(d)
    ensures dossier == Dossier(Answer(d, files, systemText, search), d)
    ensures found == Found(Answer(d, files, systemText, search))
  {
    message := ProgressMessage(d);
    var parts := BuildParts(systemText(d), files);
    var response := search(d, parts);
    if response.Failure? {
      return message, "", [];
    }
    found := [];
    if response.value.chunks.Some? {
      found := WebSources(response.value.chunks.value);
    }
    dossier := Section(d, response.value.text);
  }

  // ---------------------------------------------------------------------------
  // De-duplication

  /** The sources kept: those with a non-empty URI not seen before, in order. */
  function Dedup(sources: seq<SearchSource>, seen: set<string>): seq<SearchSource> {
    if sources == [] then []
    else if sources[0].uri != "" && sources[0].uri !in seen then
      [sources[0]] + Dedup(sources[1..], seen + {sources[0].uri})
    else Dedup(sources[1..], seen)
  }

  /** The de-duplication loop, keeping the URIs seen in a set. */
  method DedupSources(sources: seq<SearchSource>) returns (unique: seq<SearchSource>)
    ensures unique == Dedup(sources, {})
  {
    unique := [];
    var seenUris: set<string> := {};
    for i := 0 to |sources|
      invariant unique + Dedup(sources[i..], seenUris) == Dedup(sources, {})
    {
      assert sources[i..][1..] == sources[i + 1..];
      var s := sources[i];
      if s.uri != "" && s.uri !in seenUris {
        seenUris := seenUris + {s.uri};
        unique := unique + [s];
      }
    }
  }

  function UriSet(sources: seq<SearchSource>): set<string> {
    if sources == [] then {} else {sources[0].uri} + UriSet(sources[1..])
  }

  /** The non-empty URIs of the sources. */
  function TruthyUris(sources: seq<SearchSource>): set<string> {
    if sources == [] then {}
    else (if sources[0].uri != "" then {sources[0].uri} else {}) + TruthyUris(sources[1..])
  }

  lemma {:induction false} UriSetIndex(sources: seq<SearchSource>, u: string)
    ensures u in UriSet(sources) <==> exists k :: 0 <= k < |sources| && sources[k].uri == u
  {
    if sources != [] {
      UriSetIndex(sources[1..], u);
      if u in UriSet(sources[1..]) {
        var k :| 0 <= k < |sources| - 1 && sources[1..][k].uri == u;
        assert sources[k + 1].uri == u;
      }
      if exists k :: 0 <= k < |sources| && sources[k].uri == u {
        var k :| 0 <= k < |sources| && sources[k].uri == u;
        if k > 0 {
          assert sources[1..][k - 1].uri == u;
        }
      }
    }
  }

  /** The index of the first source with URI `u`, `|sources|` if there is none. */
  function FirstIndex(sources: seq<SearchSource>, u: string): (i: nat)
    ensures i <= |sources|
    ensures i < |sources| ==> sources[i].uri == u
    ensures forall j :: 0 <= j < i ==> sources[j].uri != u
  {
    if sources == [] then 0
    else if sources[0].uri == u then 0
    else 1 + FirstIndex(sources[1..], u)
  }

  /** The kept URIs are non-empty, new, and exactly the non-empty URIs not seen before. */
  lemma {:induction false} DedupUris(sources: seq<SearchSource>, seen: set<string>)
    ensures var r := Dedup(sources, seen);
      && (forall k :: 0 <= k < |r| ==> r[k].uri != "" && r[k].uri !in seen)
      && UriSet(r) == TruthyUris(sources) - seen
  {
    if sources != [] {
      var u := sources[0].uri;
      if u != "" && u !in seen {
        DedupUris(sources[1..], seen + {u});
      } else {
        DedupUris(sources[1..], seen);
      }
    }
  }

  /** No two sources share a URI. */
  predicate DistinctUris(sources: seq<SearchSource>) {
    forall i, j :: 0 <= i < j < |sources| ==> sources[i].uri != sources[j].uri
  }

  /** No two kept sources share a URI. */
  lemma {:induction false} DedupDistinct(sources: seq<SearchSource>, seen: set<string>)
    ensures DistinctUris(Dedup(sources, seen))
  {
    if sources != [] {
      var u := sources[0].uri;
      if u != "" && u !in seen {
        var rest := Dedup(sources[1..], seen + {u});
        DedupDistinct(sources[1..], seen + {u});
        DedupUris(sources[1..], seen + {u});
        var r := [sources[0]] + rest;
        forall i, j | 0 <= i < j < |r| ensures r[i].uri != r[j].uri {
          if i == 0 {
            assert r[j] == rest[j - 1];
          } else {
            assert r[i] == rest[i - 1] && r[j] == rest[j - 1];
          }
        }
      } else {
        DedupDistinct(sources[1..], seen);
      }
    }
  }

  /** Each kept source is the first source with its URI. */
  lemma {:induction false} DedupFirst(sources: seq<SearchSource>, seen: set<string>)
    ensures var r := Dedup(sources, seen);
      forall k :: 0 <= k < |r| ==>
        FirstIndex(sources, r[k].uri) < |sources| && sources[FirstIndex(sources, r[k].uri)] == r[k]
  {
    if sources != [] {
      var u := sources[0].uri;
      var tail := sources[1..];
      var seen' := if u != "" && u !in seen then seen + {u} else seen;
      var rest := Dedup(tail, seen');
      DedupFirst(tail, seen');
      DedupUris(tail, seen');
      forall k | 0 <= k < |rest|
        ensures FirstIndex(sources, rest[k].uri) == 1 + FirstIndex(tail, rest[k].uri)
      {
        assert rest[k].uri != u;
      }
      if u != "" && u !in seen {
        var r := [sources[0]] + rest;
        forall k | 0 < k < |r|
          ensures FirstIndex(sources, r[k].uri) < |sources| && sources[FirstIndex(sources, r[k].uri)] == r[k]
        {
          assert r[k] == rest[k - 1];
        }
      }
    }
  }

  /** The kept sources are in their original order. */
  lemma {:induction false} DedupOrdered(sources: seq<SearchSource>, seen: set<string>)
    ensures IsSubsequence(Dedup(sources, seen), sources)
  {
    if sources != [] {
      var u := sources[0].uri;
      if u != "" && u !in seen {
        DedupOrdered(sources[1..], seen + {u});
        assert ([sources[0]] + Dedup(sources[1..], seen + {u}))[1..] == Dedup(sources[1..], seen + {u});
      } else {
        DedupOrdered(sources[1..], seen);
      }
    }
  }

  /**
   * The de-duplicated sources keep the original order, have non-empty and pairwise different
   * URIs, cover every non-empty URI of the input, and each is the first source with its URI.
   */
  lemma DedupProperties(sources: seq<SearchSource>)
    ensures var r := Dedup(sources, {});
      && IsSubsequence(r, sources)
      && (forall k :: 0 <= k < |r| ==> r[k].uri != "")
      && DistinctUris(r)
      && UriSet(r) == TruthyUris(sources)
      && (forall k :: 0 <= k < |r| ==>
            FirstIndex(sources, r[k].uri) < |sources| && sources[FirstIndex(sources, r[k].uri)] == r[k])
  {
    DedupOrdered(sources, {});
    DedupUris(sources, {});
    DedupDistinct(sources, {});
    DedupFirst(sources, {});
  }

  // ---------------------------------------------------------------------------
  // gatherInformation

  /** The sources of the three calls, in call order, before de-duplication. */
  function Collected(files: seq<UploadedFile>, systemText: Dimension -> string,
                     search: (Dimension, seq<Part>) -> Reply<Response>): seq<SearchSource>
  {
    Found(Answer(General, files, systemText, search))
    + Found(Answer(Quant, files, systemText, search))
    + Found(Answer(Human, files, systemText, search))
  }

  /** The general, quantitative and human dossiers, concatenated in that order. */
  function Context(files: seq<UploadedFile>, systemText: Dimension -> string,
                   search: (Dimension, seq<Part>) -> Reply<Response>): string
  {
    Dossier(Answer(General, files, systemText, search), General)
    + Dossier(Answer(Quant, files, systemText, search), Quant)
    + Dossier(Answer(Human, files, systemText, search), Human)
  }

  /** The progress messages `gatherInformation` reports, one before each search, in call order. */
  const ResearchMessages: seq<string> := [ProgressMessage(General), ProgressMessage(Quant), ProgressMessage(Human)]

  /**
   * `gatherInformation`: the progress messages reported, the general, quantitative and human
   * dossiers concatenated in that order, and the collected sources de-duplicated.
   */
  method GatherInformation(files: seq<UploadedFile>, systemText: Dimension -> string,
                           search: (Dimension, seq<Part>) -> Reply<Response>)
    returns (context: string, sources: seq<SearchSource>, progress: seq<string>)
    ensures progress == ResearchMessages
    ensures context == Context(files, systemText, search)
    ensures sources == Dedup(Collected(files, systemText, search), {})
    ensures DistinctUris(sources)
    ensures UriSet(sources) == TruthyUris(Collected(files, systemText, search))
  {
    var collected: seq<SearchSource> := [];
    var m1, general, found1 := SearchAndCollect(General, files, systemText, search);
    collected := collected + found1;
    var m2, quant, found2 := SearchAndCollect(Quant, files, systemText, search);
    collected := collected + found2;
    var m3, human, found3 := SearchAndCollect(Human, files, systemText, search);
    collected := collected + found3;
    progress := [m1, m2, m3];
    assert collected == Collected(files, systemText, search);
    sources := DedupSources(collected);
    DedupProperties(collected);
    context := general + quant + human;
  }
}
