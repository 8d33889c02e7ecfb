/**
 * The JavaScript string built-ins that the modelled code relies on:
 * `trim`, `split` on one character, `includes`, `startsWith`, `endsWith`,
 * and global replacement of a character or a fixed string.
 */
module Text {

  /** ECMAScript LineTerminator: the characters `.` in a regular expression does not match. */
  predicate IsLineTerminator(c: char) {
    c == '\n' || c == '\r' || c == '\U{2028}' || c == '\U{2029}'
  }

  /** ECMAScript WhiteSpace and LineTerminator: what `trim` removes and `\s` matches. */
  predicate IsWhitespace(c: char) {
    || IsLineTerminator(c)
    || c == '\t' || c == '\U{000B}' || c == '\U{000C}' || c == ' '
    || c == '\U{00A0}' || c == '\U{FEFF}' || c == '\U{1680}'
    || ('\U{2000}' <= c <= '\U{200A}')
    || c == '\U{202F}' || c == '\U{205F}' || c == '\U{3000}'
  }

  predicate IsDigit(c: char) { '0' <= c <= '9' }

  predicate AllWhitespace(s: string) {
    forall i :: 0 <= i < |s| ==> IsWhitespace(s[i])
  }

  /** Neither end of `s` is whitespace. */
  predicate IsTrimmed(s: string) {
    s == [] || (!IsWhitespace(s[0]) && !IsWhitespace(s[|s| - 1]))
  }

  /** Length of the leading whitespace run; this is also `s.search(/\S|$/)`. */
  function LeadingWhitespace(s: string): (n: nat)
    ensures n <= |s| && AllWhitespace(s[..n])
    ensures n < |s| ==> !IsWhitespace(s[n])
  {
    if s == [] || !IsWhitespace(s[0]) then 0
    else
      1 + LeadingWhitespace(s[1..])
  }

  /** Index at which the trailing whitespace run starts. */
  function TrailingStart(s: string): (n: nat)
    ensures n <= |s| && AllWhitespace(s[n..])
    ensures n > 0 ==> !IsWhitespace(s[n - 1])
  {
    if s == [] || !IsWhitespace(s[|s| - 1]) then |s|
    else
      TrailingStart(s[..|s| - 1])
  }

  /** `String.prototype.trim`. */
  function Trim(s: string): (t: string)
    ensures IsTrimmed(t) && |t| <= |s|
    ensures t == [] <==> AllWhitespace(s)
    ensures t != [] ==> LeadingWhitespace(s) < TrailingStart(s) && t == s[LeadingWhitespace(s)..TrailingStart(s)]
  {
    var a := LeadingWhitespace(s);
    var b := TrailingStart(s);
    if a == |s| then
      assert s[..a] == s;
      []
    else
      s[a..b]
  }

  lemma {:induction false} LeadingWhitespaceUnique(s: string, k: nat)
    requires k <= |s| && AllWhitespace(s[..k]) && (k < |s| ==> !IsWhitespace(s[k]))
    ensures LeadingWhitespace(s) == k
  {
    if k > 0 {
      assert IsWhitespace(s[..k][0]);
      var r := s[1..];
      assert r[..k - 1] == s[..k][1..];
      LeadingWhitespaceUnique(r, k - 1);
    }
  }

  lemma TrailingStartUnique(s: string, k: nat)
    requires k <= |s| && AllWhitespace(s[k..]) && (k > 0 ==> !IsWhitespace(s[k - 1]))
    ensures TrailingStart(s) == k
  {
    var n := TrailingStart(s);
  }

  /** Whatever surrounds a trimmed middle, as long as it is whitespace, is what `trim` removes. */
  lemma {:induction false} TrimUnique(p: string, m: string, q: string)
    requires AllWhitespace(p) && AllWhitespace(q) && IsTrimmed(m)
    ensures Trim(p + m + q) == m
  {
    var s := p + m + q;
    if m == [] {
      assert s == p + q;
      AllWhitespaceAppend(p, q);
    } else {
      assert s[..|p|] == p;
      assert s[|p|] == m[0];
      LeadingWhitespaceUnique(s, |p|);
      assert s[|p| + |m|..] == q;
      assert s[|p| + |m| - 1] == m[|m| - 1];
      TrailingStartUnique(s, |p| + |m|);
      assert s[|p|..|p| + |m|] == m;
    }
  }

  /** `trim` of a string already trimmed changes nothing; in particular `trim` is idempotent. */
  lemma TrimTrimmed(s: string)
    requires IsTrimmed(s)
    ensures Trim(s) == s
  {
    TrimUnique([], s, []);
    assert [] + s + [] == s;
  }

  lemma AllWhitespaceAppend(a: string, b: string)
    requires AllWhitespace(a) && AllWhitespace(b)
    ensures AllWhitespace(a + b)
  {
    forall i | 0 <= i < |a + b| ensures IsWhitespace((a + b)[i]) {
      if i < |a| { assert (a + b)[i] == a[i]; } else { assert (a + b)[i] == b[i - |a|]; }
    }
  }

  lemma ConcatAssoc(a: string, b: string, c: string, d: string)
    ensures a + b + c + d == a + (b + c + d)
  {
  }

  /** Leading whitespace does not change the result of `trim`. */
  lemma TrimAfterWhitespace(w: string, x: string)
    requires AllWhitespace(w)
    ensures Trim(w + x) == Trim(x)
  {
    var t := Trim(x);
    if t == [] {
      AllWhitespaceAppend(w, x);
      TrimUnique(w + x, [], []);
      assert w + x + [] + [] == w + x;
    } else {
      var a := LeadingWhitespace(x);
      var b := TrailingStart(x);
      var p, q := x[..a], x[b..];
      assert x == p + t + q by { assert x == x[..a] + x[a..b] + x[b..]; }
      AllWhitespaceAppend(w, p);
      TrimUnique(w + p, t, q);
      ConcatAssoc(w, p, t, q);
    }
  }

  /** Every character of `trim(s)` is a character of `s`. */
  lemma TrimKeepsCharacters(s: string, c: char)
    requires c in Trim(s)
    ensures c in s
  {
    var t := Trim(s);
    var k :| 0 <= k < |t| && t[k] == c;
    assert s[LeadingWhitespace(s) + k] == c;
  }

  /** Number of occurrences of `c` in `s`. */
  function Occurrences(s: string, c: char): nat {
    if s == [] then 0 else (if s[0] == c then 1 else 0) + Occurrences(s[1..], c)
  }

  function Join(parts: seq<string>, sep: char): string
    requires |parts| >= 1
  {
    if |parts| == 1 then parts[0] else parts[0] + [sep] + Join(parts[1..], sep)
  }

  /** `s.split(sep)` for a one-character separator: every occurrence separates two parts. */
  function Split(s: string, sep: char): (parts: seq<string>)
    ensures |parts| == Occurrences(s, sep) + 1
    ensures forall k :: 0 <= k < |parts| ==> sep !in parts[k]
  {
    if s == [] then [[]]
    else
      var rest := Split(s[1..], sep);
      if s[0] == sep then [[]] + rest
      else
        assert sep !in [s[0]] + rest[0];
        [[s[0]] + rest[0]] + rest[1..]
  }

  /** Joining the parts of a split with the separator gives back the string. */
  lemma {:induction false} JoinSplit(s: string, sep: char)
    ensures Join(Split(s, sep), sep) == s
  {
    if s != [] {
      var rest := Split(s[1..], sep);
      JoinSplit(s[1..], sep);
      if s[0] == sep {
        assert ([[]] + rest)[1..] == rest;
      } else {
        var parts := [[s[0]] + rest[0]] + rest[1..];
        if |rest| == 1 {
          assert parts == [[s[0]] + rest[0]];
        } else {
          assert parts[1..] == rest[1..];
          assert Join(rest, sep) == rest[0] + [sep] + Join(rest[1..], sep);
        }
      }
    }
  }

  /** Splitting a join of separator-free parts gives back the parts. */
  lemma {:induction false} SplitJoin(parts: seq<string>, sep: char)
    requires |parts| >= 1
    requires forall k :: 0 <= k < |parts| ==> sep !in parts[k]
    ensures Split(Join(parts, sep), sep) == parts
  {
    if |parts| == 1 {
      SplitFree(parts[0], sep);
    } else {
      SplitJoin(parts[1..], sep);
      SplitPrefix(parts[0], Join(parts[1..], sep), sep);
      assert [parts[0]] + parts[1..] == parts;
    }
  }

  lemma {:induction false} SplitFree(s: string, sep: char)
    requires sep !in s
    ensures Split(s, sep) == [s]
  {
    if s != [] {
      SplitFree(s[1..], sep);
      assert [s[0]] + s[1..] == s;
    }
  }

  lemma {:induction false} SplitPrefix(a: string, b: string, sep: char)
    requires sep !in a
    ensures Split(a + [sep] + b, sep) == [a] + Split(b, sep)
  {
    if a == [] {
      assert a + [sep] + b == [sep] + b;
      assert ([sep] + b)[1..] == b;
    } else {
      var s := a + [sep] + b;
      assert s[1..] == a[1..] + [sep] + b;
      SplitPrefix(a[1..], b, sep);
      assert [a[0]] + a[1..] == a;
    }
  }

  /** `a` is `b` with some elements left out, the rest in their order. */
  predicate IsSubsequence<T(==)>(a: seq<T>, b: seq<T>) {
    a == [] || (b != [] && ((a[0] == b[0] && IsSubsequence(a[1..], b[1..])) || IsSubsequence(a, b[1..])))
  }

  /** Slicing a suffix again. */
  lemma Slices<T>(s: seq<T>, i: nat, j: nat)
    requires i + j <= |s|
    ensures s[i..][j..] == s[i + j..] && s[i..][..j] == s[i..i + j]
  {
  }

  /** `s.startsWith(p)`. */
  predicate StartsWith(s: string, p: string) {
    |p| <= |s| && s[..|p|] == p
  }

  /** `s.endsWith(p)`. */
  predicate EndsWith(s: string, p: string) {
    |p| <= |s| && s[|s| - |p|..] == p
  }

  /** `s.includes(sub)`. */
  predicate ContainsSub(s: string, sub: string) {
    exists i :: 0 <= i <= |s| && OccursAt(s, sub, i)
  }

  /** `sub` occurs in `s` starting at index `i`. */
  predicate OccursAt(s: string, sub: string, i: nat) {
    i + |sub| <= |s| && s[i..i + |sub|] == sub
  }

  lemma ContainsSubFirstChar(s: string, sub: string)
    requires sub != [] && ContainsSub(s, sub)
    ensures sub[0] in s
  {
    var i :| 0 <= i <= |s| && OccursAt(s, sub, i);
    assert s[i] == s[i..i + |sub|][0];
  }

  /** A string without the first character of `sub` does not contain `sub`. */
  lemma AbsentFirstChar(s: string, sub: string)
    requires sub != [] && sub[0] !in s
    ensures !ContainsSub(s, sub)
  {
    if ContainsSub(s, sub) {
      ContainsSubFirstChar(s, sub);
    }
  }

  lemma ContainsSubAt(s: string, sub: string, i: nat)
    requires OccursAt(s, sub, i)
    ensures ContainsSub(s, sub)
  {
  }

  /** `s.replace(/c/g, r)`: every occurrence of the character `c` becomes `r`. */
  function ReplaceChar(s: string, c: char, r: string): string {
    if s == [] then [] else (if s[0] == c then r else [s[0]]) + ReplaceChar(s[1..], c, r)
  }

  lemma {:induction false} ReplaceCharAbsent(s: string, c: char, r: string)
    requires c !in s
    ensures ReplaceChar(s, c, r) == s
  {
    if s != [] {
      ReplaceCharAbsent(s[1..], c, r);
      assert [s[0]] + s[1..] == s;
    }
  }

  lemma {:induction false} ReplaceCharAppend(a: string, b: string, c: char, r: string)
    ensures ReplaceChar(a + b, c, r) == ReplaceChar(a, c, r) + ReplaceChar(b, c, r)
  {
    if a != [] {
      assert (a + b)[1..] == a[1..] + b;
      ReplaceCharAppend(a[1..], b, c, r);
    } else {
      assert a + b == b;
    }
  }

  /** `s.replace(/p/g, '')` for a fixed non-empty string `p`: occurrences are removed left to right. */
  function DeleteAll(s: string, p: string): string
    requires p != []
    decreases |s|
  {
    if s == [] then []
    else if StartsWith(s, p) then DeleteAll(s[|p|..], p)
    else [s[0]] + DeleteAll(s[1..], p)
  }
}
