/**
 * `parseInline` of components/CaseViewer.tsx: the text is HTML-escaped (`&` first, then `<`
 * and `>`), then three global regular-expression replacements add `<strong>`, `<em>` and
 * `<code>` tags, in that order.
 */
module Inline {
  import opened Wrappers
  import opened Text

  // The tags are written as concatenations of short pieces, which keeps the facts proved
  // about their characters cheap.
  const StrongOpen: string := "<strong " + "class=\"font-bold " + "text-slate-900\">"
  const StrongClose: string := "</strong>"
  const EmOpen: string := "<em class=" + "\"text-slate-700\">"
  const EmClose: string := "</em>"
  const CodeOpen: string :=
    "<code class=" + "\"bg-gray-100 " + "px-1 py-0.5 " + "rounded text-sm " + "font-mono " + "text-report-accent\">"
  const CodeClose: string := "</code>"

  /** The only markup the renderer ever adds. */
  const Tags: seq<string> := [StrongOpen, StrongClose, EmOpen, EmClose, CodeOpen, CodeClose]

  // ---------------------------------------------------------------------------
  // Escaping

  /** The three chained `replace` calls: `&` first, then `<`, then `>`. */
  function Escape(s: string): string {
    ReplaceChar(ReplaceChar(ReplaceChar(s, '&', "&amp;"), '<', "&lt;"), '>', "&gt;")
  }

  /** What one input character turns into. */
  function Entity(c: char): string {
    if c == '&' then "&amp;" else if c == '<' then "&lt;" else if c == '>' then "&gt;" else [c]
  }

  /** Escaping character by character, as an independent reference for `Escape`. */
  function EscapeChars(s: string): string {
    if s == [] then [] else Entity(s[0]) + EscapeChars(s[1..])
  }

  /** Decoding of the three entities, as a browser reads them back. */
  function Unescape(s: string): string
    decreases |s|
  {
    if s == [] then []
    else if StartsWith(s, "&amp;") then "&" + Unescape(s[5..])
    else if StartsWith(s, "&lt;") then "<" + Unescape(s[4..])
    else if StartsWith(s, "&gt;") then ">" + Unescape(s[4..])
    else [s[0]] + Unescape(s[1..])
  }

  lemma EscapeAppend(a: string, b: string)
    ensures Escape(a + b) == Escape(a) + Escape(b)
  {
    ReplaceCharAppend(a, b, '&', "&amp;");
    var a1, b1 := ReplaceChar(a, '&', "&amp;"), ReplaceChar(b, '&', "&amp;");
    ReplaceCharAppend(a1, b1, '<', "&lt;");
    var a2, b2 := ReplaceChar(a1, '<', "&lt;"), ReplaceChar(b1, '<', "&lt;");
    ReplaceCharAppend(a2, b2, '>', "&gt;");
  }

  lemma ReplaceCharOne(c: char, d: char, r: string)
    ensures ReplaceChar([c], d, r) == if c == d then r else [c]
  {
    assert [c][1..] == [];
  }

  lemma EscapeOne(c: char)
    ensures Escape([c]) == Entity(c)
  {
    ReplaceCharOne(c, '&', "&amp;");
    if c == '&' {
      ReplaceCharAbsent("&amp;", '<', "&lt;");
      ReplaceCharAbsent("&amp;", '>', "&gt;");
    } else {
      ReplaceCharOne(c, '<', "&lt;");
      if c == '<' {
        ReplaceCharAbsent("&lt;", '>', "&gt;");
      } else {
        ReplaceCharOne(c, '>', "&gt;");
      }
    }
  }

  /** Because `&` is escaped first, no entity is escaped twice: escaping is per character. */
  lemma {:induction false} EscapeIsPerCharacter(s: string)
    ensures Escape(s) == EscapeChars(s)
  {
    if s != [] {
      assert s == [s[0]] + s[1..];
      EscapeAppend([s[0]], s[1..]);
      EscapeOne(s[0]);
      EscapeIsPerCharacter(s[1..]);
    }
  }

  /** The escaped text holds no raw `<` or `>`. */
  lemma {:induction false} EscapeHasNoAngles(s: string)
    ensures '<' !in Escape(s) && '>' !in Escape(s)
  {
    EscapeIsPerCharacter(s);
    EscapeCharsHasNoAngles(s);
  }

  lemma {:induction false} EscapeCharsHasNoAngles(s: string)
    ensures '<' !in EscapeChars(s) && '>' !in EscapeChars(s)
  {
    if s != [] {
      EscapeCharsHasNoAngles(s[1..]);
    }
  }

  /** Reading the entities back recovers the input exactly. */
  lemma {:induction false} EscapeRoundTrip(s: string)
    ensures Unescape(Escape(s)) == s
  {
    EscapeIsPerCharacter(s);
    UnescapeEscapeChars(s);
  }

  lemma {:induction false} UnescapeEscapeChars(s: string)
    ensures Unescape(EscapeChars(s)) == s
  {
    if s != [] {
      var c, rest := s[0], EscapeChars(s[1..]);
      var e := Entity(c) + rest;
      UnescapeEscapeChars(s[1..]);
      PrefixOf(Entity(c), rest);
      var j := if c == '<' || c == '>' then 1 else 0;
      assert e[j] == Entity(c)[j];
      if c != '&' {
        NotPrefix("&amp;", e, j);
        if c != '<' {
          NotPrefix("&lt;", e, j);
          if c != '>' {
            NotPrefix("&gt;", e, j);
          }
        }
      }
      assert [c] + s[1..] == s;
    }
  }

  lemma PrefixOf(a: string, rest: string)
    ensures StartsWith(a + rest, a) && (a + rest)[|a|..] == rest
  {
    assert (a + rest)[..|a|] == a;
  }

  lemma NotPrefix(a: string, s: string, j: nat)
    requires j < |a| && j < |s| && a[j] != s[j]
    ensures !StartsWith(s, a)
  {
  }

  /** Characters other than `&`, `<`, `>` pass through escaping: they occur after it iff before. */
  lemma {:induction false} EscapeKeepsOtherCharacters(s: string, c: char)
    requires c != '&' && c != '<' && c != '>' && c != 'a' && c != 'm' && c != 'p' && c != 'l' && c != 'g' && c != 't' && c != ';'
    ensures c in Escape(s) <==> c in s
  {
    EscapeIsPerCharacter(s);
    EscapeCharsKeeps(s, c);
  }

  lemma {:induction false} EscapeCharsKeeps(s: string, c: char)
    requires c != '&' && c != '<' && c != '>' && c != 'a' && c != 'm' && c != 'p' && c != 'l' && c != 'g' && c != 't' && c != ';'
    ensures c in EscapeChars(s) <==> c in s
  {
    if s != [] {
      EscapeCharsKeeps(s[1..], c);
      assert s == [s[0]] + s[1..];
    }
  }

  // ---------------------------------------------------------------------------
  // The three tag passes

  /**
   * One global replacement of D, content, D: `delim` is D, `open`/`close` replace the two
   * delimiters; `minLen` is the least content length (1 for `[^`]+`, 0 for `.*?`);
   * `singleLine` says the content may not hold a line terminator (`.` in the pattern).
   */
  datatype Pass = Pass(delim: string, open: string, close: string, minLen: nat, singleLine: bool)

  /** Bold: two asterisks, lazy single-line content, two asterisks. */
  const Strong: Pass := Pass("**", StrongOpen, StrongClose, 0, true)
  /** Italic: one asterisk, lazy single-line content, one asterisk. */
  const Emphasis: Pass := Pass("*", EmOpen, EmClose, 0, true)
  /** Code: a backtick, one or more non-backtick characters, a backtick. */
  const Code: Pass := Pass("`", CodeOpen, CodeClose, 1, false)

  /**
   * The first position at or after `from` where the closing delimiter starts, with no line
   * terminator before it when the pass is single-line: the lazy `.*?` stops at the first
   * closing delimiter, and `[^`]+` cannot run past one.
   */
  function FindClose(s: string, from: nat, p: Pass): (r: Option<nat>)
    requires |p.delim| > 0
    ensures r.Some? ==> from <= r.value && r.value + |p.delim| <= |s|
    decreases |s| - from
  {
    if from + |p.delim| > |s| then None
    else if s[from..from + |p.delim|] == p.delim then Some(from)
    else if p.singleLine && IsLineTerminator(s[from]) then None
    else FindClose(s, from + 1, p)
  }

  /** The closing delimiter found does sit at the position returned. */
  lemma {:induction false} FindCloseFound(s: string, from: nat, p: Pass)
    requires |p.delim| > 0 && FindClose(s, from, p).Some?
    ensures s[FindClose(s, from, p).value..FindClose(s, from, p).value + |p.delim|] == p.delim
    decreases |s| - from
  {
    if s[from..from + |p.delim|] != p.delim {
      FindCloseFound(s, from + 1, p);
    }
  }

  /** No position skipped holds the closing delimiter or, in a single-line pass, a line terminator. */
  lemma {:induction false} FindCloseFirst(s: string, from: nat, p: Pass, j: nat)
    requires |p.delim| > 0 && FindClose(s, from, p).Some?
    requires from <= j < FindClose(s, from, p).value
    ensures s[j..j + |p.delim|] != p.delim
    ensures p.singleLine ==> !IsLineTerminator(s[j])
    decreases |s| - from
  {
    if from < j {
      FindCloseFirst(s, from + 1, p, j);
    }
  }

  /** Length of the content of a match starting at the first character of `s`, if one does. */
  function MatchAt(s: string, p: Pass): (r: Option<nat>)
    requires |p.delim| > 0
    ensures r.Some? ==> |p.delim| <= |s| && r.value >= p.minLen
    ensures r.Some? ==> r.value + |p.delim| <= |s[|p.delim|..]|
  {
    if StartsWith(s, p.delim) && FindClose(s[|p.delim|..], 0, p).Some?
       && FindClose(s[|p.delim|..], 0, p).value >= p.minLen
    then FindClose(s[|p.delim|..], 0, p)
    else None
  }

  /** A match starts with the delimiter and its content is followed by the delimiter. */
  lemma MatchAtFound(s: string, p: Pass)
    requires |p.delim| > 0 && MatchAt(s, p).Some?
    ensures StartsWith(s, p.delim)
    ensures s[|p.delim|..][MatchAt(s, p).value..MatchAt(s, p).value + |p.delim|] == p.delim
  {
    FindCloseFound(s[|p.delim|..], 0, p);
  }

  /** A global `replace`: the leftmost match is replaced and the scan resumes after it. */
  function ApplyPass(s: string, p: Pass): string
    requires |p.delim| > 0
    decreases |s|
  {
    if s == [] then []
    else if MatchAt(s, p).Some? then
      p.open + s[|p.delim|..][..MatchAt(s, p).value] + p.close
      + ApplyPass(s[|p.delim|..][MatchAt(s, p).value + |p.delim|..], p)
    else [s[0]] + ApplyPass(s[1..], p)
  }

  /** `parseInline`. */
  function ParseInline(text: string): string {
    ApplyPass(ApplyPass(ApplyPass(Escape(text), Strong), Emphasis), Code)
  }

  // ---------------------------------------------------------------------------
  // The output is tokenized: plain characters and the renderer's own tags

  /** `s` reads as a sequence of members of `tags` and characters other than `<` and `>`. */
  predicate Tokenizes(s: string, tags: seq<string>)
    decreases |s|, |tags| + 1
  {
    || s == []
    || (s[0] != '<' && s[0] != '>' && Tokenizes(s[1..], tags))
    || TagFrom(s, tags, 0)
  }

  /** `s` starts with one of `tags[i..]` and what follows that tag tokenizes. */
  predicate TagFrom(s: string, tags: seq<string>, i: nat)
    decreases |s|, |tags| - i
  {
    && i < |tags|
    && ((|tags[i]| > 0 && StartsWith(s, tags[i]) && Tokenizes(s[|tags[i]|..], tags)) || TagFrom(s, tags, i + 1))
  }

  lemma {:induction false} TagWitness(s: string, tags: seq<string>, i: nat) returns (j: nat)
    requires TagFrom(s, tags, i)
    ensures i <= j < |tags| && |tags[j]| > 0 && StartsWith(s, tags[j]) && Tokenizes(s[|tags[j]|..], tags)
    decreases |tags| - i
  {
    if |tags[i]| > 0 && StartsWith(s, tags[i]) && Tokenizes(s[|tags[i]|..], tags) {
      j := i;
    } else {
      j := TagWitness(s, tags, i + 1);
    }
  }

  lemma {:induction false} TagIntro(s: string, tags: seq<string>, i: nat, j: nat)
    requires i <= j < |tags| && |tags[j]| > 0 && StartsWith(s, tags[j]) && Tokenizes(s[|tags[j]|..], tags)
    ensures TagFrom(s, tags, i)
    decreases j - i
  {
    if i < j {
      TagIntro(s, tags, i + 1, j);
    }
  }

  /** Every tag opens with `<`. */
  predicate AngleTags(tags: seq<string>) {
    forall i :: 0 <= i < |tags| ==> |tags[i]| > 0 && tags[i][0] == '<'
  }

  /** A character that is neither an angle bracket nor part of any tag. */
  predicate Foreign(c: char, tags: seq<string>) {
    c != '<' && c != '>' && forall i :: 0 <= i < |tags| ==> c !in tags[i]
  }

  /** A pass whose delimiters are foreign characters and whose replacements are tags. */
  predicate TagPass(p: Pass, tags: seq<string>) {
    && |p.delim| > 0
    && (forall j :: 0 <= j < |p.delim| ==> Foreign(p.delim[j], tags))
    && p.open in tags && p.close in tags
  }

  /** What the proofs use of a tag: it opens with `<` and holds neither delimiter. */
  predicate TagShape(t: string) {
    |t| > 0 && t[0] == '<' && '*' !in t && '`' !in t
  }

  lemma StrongTagsShape() ensures TagShape(StrongOpen) && TagShape(StrongClose) {}
  lemma EmTagsShape() ensures TagShape(EmOpen) && TagShape(EmClose) {}
  lemma CodeOpenShape() ensures TagShape(CodeOpen) {}
  lemma CodeCloseShape() ensures TagShape(CodeClose) {}

  lemma RendererPassesAreTagPasses()
    ensures AngleTags(Tags) && TagPass(Strong, Tags) && TagPass(Emphasis, Tags) && TagPass(Code, Tags)
  {
    StrongTagsShape();
    EmTagsShape();
    CodeOpenShape();
    CodeCloseShape();
    assert forall i :: 0 <= i < |Tags| ==> TagShape(Tags[i]);
    assert Foreign('*', Tags) && Foreign('`', Tags);
    assert Strong.open == Tags[0] && Strong.close == Tags[1];
    assert Emphasis.open == Tags[2] && Emphasis.close == Tags[3];
    assert Code.open == Tags[4] && Code.close == Tags[5];
  }

  lemma {:induction false} NoAnglesTokenizes(s: string, tags: seq<string>)
    requires '<' !in s && '>' !in s
    ensures Tokenizes(s, tags)
  {
    if s != [] {
      NoAnglesTokenizes(s[1..], tags);
    }
  }

  lemma TagThenMember(t: string, s: string, tags: seq<string>)
    requires t in tags && |t| > 0 && Tokenizes(s, tags)
    ensures Tokenizes(t + s, tags)
  {
    var i :| 0 <= i < |tags| && tags[i] == t;
    TagThen(i, s, tags);
  }

  lemma TagThen(i: nat, s: string, tags: seq<string>)
    requires i < |tags| && |tags[i]| > 0 && Tokenizes(s, tags)
    ensures Tokenizes(tags[i] + s, tags)
  {
    var t := tags[i] + s;
    assert StartsWith(t, tags[i]) && t[|tags[i]|..] == s;
    TagIntro(t, tags, 0, i);
  }

  lemma {:induction false} TokenizesAppend(a: string, b: string, tags: seq<string>)
    requires Tokenizes(a, tags) && Tokenizes(b, tags)
    ensures Tokenizes(a + b, tags)
    decreases |a|
  {
    if a == [] {
      assert a + b == b;
    } else if a[0] != '<' && a[0] != '>' && Tokenizes(a[1..], tags) {
      TokenizesAppend(a[1..], b, tags);
      assert (a + b)[1..] == a[1..] + b;
    } else {
      var i := TagWitness(a, tags, 0);
      TokenizesAppend(a[|tags[i]|..], b, tags);
      assert a + b == tags[i] + (a[|tags[i]|..] + b);
      TagThen(i, a[|tags[i]|..] + b, tags);
    }
  }

  /** A string that starts with a foreign character tokenizes only as a plain character. */
  lemma DropForeign(s: string, tags: seq<string>)
    requires AngleTags(tags)
    requires s != [] && Foreign(s[0], tags) && Tokenizes(s, tags)
    ensures Tokenizes(s[1..], tags)
  {
    if !(s[0] != '<' && s[0] != '>' && Tokenizes(s[1..], tags)) {
      var j := TagWitness(s, tags, 0);
      assert false;
    }
  }

  lemma {:induction false} DropForeignPrefix(s: string, n: nat, tags: seq<string>)
    requires AngleTags(tags)
    requires n <= |s| && Tokenizes(s, tags)
    requires forall j :: 0 <= j < n ==> Foreign(s[j], tags)
    ensures Tokenizes(s[n..], tags)
  {
    if n > 0 {
      assert Foreign(s[0], tags);
      DropForeign(s, tags);
      var r := s[1..];
      forall j | 0 <= j < n - 1 ensures Foreign(r[j], tags) {
        assert r[j] == s[j + 1];
      }
      DropForeignPrefix(r, n - 1, tags);
      assert r[n - 1..] == s[n..];
    }
  }

  /** A foreign character inside a tokenizable string sits on a token boundary. */
  lemma {:induction false} SplitAtForeign(x: string, k: nat, tags: seq<string>)
    requires k < |x| && Foreign(x[k], tags) && Tokenizes(x, tags)
    ensures Tokenizes(x[..k], tags) && Tokenizes(x[k..], tags)
    decreases |x|
  {
    if x[0] != '<' && x[0] != '>' && Tokenizes(x[1..], tags) {
      if k == 0 {
        assert x[..0] == [] && x[0..] == x;
      } else {
        SplitAtForeign(x[1..], k - 1, tags);
        assert x[..k] == [x[0]] + x[1..][..k - 1];
        assert x[k..] == x[1..][k - 1..];
      }
    } else {
      var i := TagWitness(x, tags, 0);
      var t := tags[i];
      assert k >= |t|;
      var y := x[|t|..];
      SplitAtForeign(y, k - |t|, tags);
      assert x[..k] == t + y[..k - |t|];
      TagThen(i, y[..k - |t|], tags);
      assert x[k..] == y[k - |t|..];
    }
  }

  /** A pass leaves a prefix without its delimiter's first character untouched. */
  lemma {:induction false} PassSkips(x: string, rest: string, p: Pass)
    requires |p.delim| > 0 && p.delim[0] !in x
    ensures ApplyPass(x + rest, p) == x + ApplyPass(rest, p)
  {
    if x == [] {
      assert x + rest == rest;
    } else {
      var s := x + rest;
      assert s[0] == x[0];
      assert !(StartsWith(s, p.delim));
      assert s[1..] == x[1..] + rest;
      PassSkips(x[1..], rest, p);
    }
  }

  /** Dropping a delimiter from the front keeps a string tokenizable. */
  lemma DropDelimiter(s: string, p: Pass, tags: seq<string>)
    requires AngleTags(tags) && TagPass(p, tags) && Tokenizes(s, tags) && StartsWith(s, p.delim)
    ensures Tokenizes(s[|p.delim|..], tags)
  {
    forall j | 0 <= j < |p.delim| ensures Foreign(s[j], tags) {
      assert s[j] == p.delim[j];
    }
    DropForeignPrefix(s, |p.delim|, tags);
  }

  /** Content before a closing delimiter, and what follows that delimiter, both tokenize. */
  lemma SplitAtDelimiter(y: string, p: Pass, k: nat, tags: seq<string>)
    requires AngleTags(tags) && TagPass(p, tags) && Tokenizes(y, tags)
    requires k + |p.delim| <= |y| && y[k..k + |p.delim|] == p.delim
    ensures Tokenizes(y[..k], tags) && Tokenizes(y[k + |p.delim|..], tags)
  {
    assert y[k] == p.delim[0];
    SplitAtForeign(y, k, tags);
    Slices(y, k, |p.delim|);
    DropDelimiter(y[k..], p, tags);
  }

  /** One step of a pass at a match. */
  lemma ApplyPassAtMatch(s: string, p: Pass, k: nat)
    requires |p.delim| > 0 && s != [] && MatchAt(s, p) == Some(k)
    ensures ApplyPass(s, p)
         == p.open + (s[|p.delim|..][..k] + (p.close + ApplyPass(s[|p.delim|..][k + |p.delim|..], p)))
  {
    var y := s[|p.delim|..];
    var r := ApplyPass(y[k + |p.delim|..], p);
    assert ApplyPass(s, p) == p.open + y[..k] + p.close + r;
    ConcatAssoc(p.open, y[..k], p.close, r);
  }

  /** Reassembling one replaced match keeps the output tokenized. */
  lemma MatchCase(open: string, content: string, close: string, r: string, tags: seq<string>)
    requires open in tags && close in tags && |open| > 0 && |close| > 0
    requires Tokenizes(content, tags) && Tokenizes(r, tags)
    ensures Tokenizes(open + (content + (close + r)), tags)
  {
    TagThenMember(close, r, tags);
    TokenizesAppend(content, close + r, tags);
    TagThenMember(open, content + (close + r), tags);
  }

  /** A tag the pass finds in its input is copied to the output unchanged. */
  lemma TagCase(s: string, p: Pass, i: nat, tags: seq<string>)
    requires TagPass(p, tags) && i < |tags| && |tags[i]| > 0 && StartsWith(s, tags[i])
    requires Tokenizes(ApplyPass(s[|tags[i]|..], p), tags)
    ensures Tokenizes(ApplyPass(s, p), tags)
  {
    var t := tags[i];
    assert Foreign(p.delim[0], tags);
    assert s == t + s[|t|..];
    PassSkips(t, s[|t|..], p);
    TagThen(i, ApplyPass(s[|t|..], p), tags);
  }

  /** A pass whose replacements are tags keeps the output tokenized. */
  lemma {:induction false} PassPreservesTokens(s: string, p: Pass, tags: seq<string>)
    requires AngleTags(tags) && TagPass(p, tags) && Tokenizes(s, tags)
    ensures Tokenizes(ApplyPass(s, p), tags)
    decreases |s|
  {
    if s == [] {
      return;
    }
    var d := |p.delim|;
    match MatchAt(s, p)
    case Some(k) =>
      var y := s[d..];
      MatchAtFound(s, p);
      DropDelimiter(s, p, tags);
      SplitAtDelimiter(y, p, k, tags);
      PassPreservesTokens(y[k + d..], p, tags);
      ApplyPassAtMatch(s, p, k);
      MatchCase(p.open, y[..k], p.close, ApplyPass(y[k + d..], p), tags);
    case None =>
      if s[0] != '<' && s[0] != '>' && Tokenizes(s[1..], tags) {
        PassPreservesTokens(s[1..], p, tags);
        assert ApplyPass(s, p) == [s[0]] + ApplyPass(s[1..], p);
      } else {
        var i := TagWitness(s, tags, 0);
        PassPreservesTokens(s[|tags[i]|..], p, tags);
        TagCase(s, p, i, tags);
      }
  }

  /**
   * The HTML produced by `parseInline` consists of the renderer's own tags and characters
   * other than `<` and `>`: nothing of the input can open or close an element. The tags need
   * not nest (`**a*b**c*` crosses a `strong` and an `em`).
   */
  lemma InlineHtmlTokenized(text: string)
    ensures Tokenizes(ParseInline(text), Tags)
  {
    RendererPassesAreTagPasses();
    var e := Escape(text);
    EscapeHasNoAngles(text);
    NoAnglesTokenizes(e, Tags);
    PassPreservesTokens(e, Strong, Tags);
    var s1 := ApplyPass(e, Strong);
    PassPreservesTokens(s1, Emphasis, Tags);
    PassPreservesTokens(ApplyPass(s1, Emphasis), Code, Tags);
  }

  /** Text without `*` and backticks is only escaped: no tag is added. */
  lemma PlainTextOnlyEscaped(text: string)
    requires '*' !in text && '`' !in text
    ensures ParseInline(text) == Escape(text)
  {
    var e := Escape(text);
    EscapeKeepsOtherCharacters(text, '*');
    EscapeKeepsOtherCharacters(text, '`');
    PassSkips(e, [], Strong);
    assert e + [] == e;
    PassSkips(e, [], Emphasis);
    PassSkips(e, [], Code);
  }
}
