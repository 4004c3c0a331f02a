/** The JavaScript string operations the content pipeline relies on.
    A string is a sequence of Unicode scalar values, so lengths are counted
    in code points (JavaScript counts UTF-16 units). */
module JsString {
  import opened Wrappers

  /** `\s` in a JavaScript regular expression; also what `trim()` removes. */
  predicate IsSpace(c: char) {
    c == ' ' || c == '\t' || c == '\n' || c == '\U{B}' || c == '\U{C}' || c == '\r'
    || c == '\U{A0}' || c == '\U{1680}' || ('\U{2000}' <= c <= '\U{200A}')
    || c == '\U{2028}' || c == '\U{2029}' || c == '\U{202F}' || c == '\U{205F}'
    || c == '\U{3000}' || c == '\U{FEFF}'
  }

  /** The characters `.` does not match and before which a multiline `$` matches. */
  predicate IsLineTerminator(c: char) {
    c == '\n' || c == '\r' || c == '\U{2028}' || c == '\U{2029}'
  }

  predicate AllSpace(s: string) {
    forall i :: 0 <= i < |s| ==> IsSpace(s[i])
  }

  // ---------------------------------------------------------------------
  // Case

  /** `toLowerCase()` on the ASCII letters. */
  predicate IsUpper(c: char) {
    'A' <= c <= 'Z'
  }

  function LowerChar(c: char): char {
    if IsUpper(c) then (c as int + 32) as char else c
  }

  function ToLower(s: string): (r: string)
    ensures |r| == |s|
    ensures forall i :: 0 <= i < |s| ==> r[i] == LowerChar(s[i])
  {
    seq(|s|, i requires 0 <= i < |s| => LowerChar(s[i]))
  }

  /** No ASCII capital letter occurs in `s`. */
  predicate IsLower(s: string) {
    forall i :: 0 <= i < |s| ==> !IsUpper(s[i])
  }

  lemma LowerOfLower(s: string)
    requires IsLower(s)
    ensures ToLower(s) == s
  {
  }

  lemma ToLowerIdempotent(s: string)
    ensures IsLower(ToLower(s))
    ensures ToLower(ToLower(s)) == ToLower(s)
  {
    LowerOfLower(ToLower(s));
  }

  lemma ToLowerAppend(a: string, b: string)
    ensures ToLower(a + b) == ToLower(a) + ToLower(b)
  {
  }

  lemma IsLowerAppend(a: string, b: string)
    requires IsLower(a) && IsLower(b)
    ensures IsLower(a + b)
  {
    assert forall i :: 0 <= i < |a + b| ==> (a + b)[i] == if i < |a| then a[i] else b[i - |a|];
  }

  /** Lower-casing text around a lower-case middle leaves the middle. */
  lemma ToLowerAround(pre: string, mid: string, post: string)
    requires IsLower(mid)
    ensures ToLower(pre + mid + post) == ToLower(pre) + mid + ToLower(post)
  {
    ToLowerAppend(pre, mid + post);
    ToLowerAppend(mid, post);
    LowerOfLower(mid);
    assert pre + (mid + post) == pre + mid + post;
  }

  /** Lower-casing creates no colon, quote or white space. */
  lemma LowerKeepsPunctuation(c: char)
    ensures LowerChar(c) == ':' ==> c == ':'
    ensures LowerChar(c) == '"' ==> c == '"'
    ensures LowerChar(c) == '\'' ==> c == '\''
    ensures IsSpace(LowerChar(c)) ==> IsSpace(c)
  {
  }

  // ---------------------------------------------------------------------
  // Search

  /** `p` occurs in `s` at index `i`. */
  predicate OccursAt(s: string, p: string, i: int) {
    0 <= i && i + |p| <= |s| && s[i..i + |p|] == p
  }

  /** An occurrence, read character by character. */
  lemma OccursAtChars(s: string, p: string, i: nat)
    requires i + |p| <= |s| && forall j :: 0 <= j < |p| ==> s[i + j] == p[j]
    ensures OccursAt(s, p, i)
  {
    assert s[i..i + |p|] == p;
  }

  /** An occurrence fixes each character it covers. */
  lemma OccursAtChar(s: string, p: string, i: nat, k: nat)
    requires OccursAt(s, p, i) && k < |p|
    ensures s[i + k] == p[k]
  {
    assert s[i..i + |p|][k] == s[i + k];
  }

  /** One differing character rules an occurrence out. */
  lemma NotOccursAt(s: string, p: string, i: nat, k: nat)
    requires k < |p| && i + k < |s| && s[i + k] != p[k]
    ensures !OccursAt(s, p, i)
  {
    if i + |p| <= |s| {
      assert s[i..i + |p|][k] == s[i + k];
    }
  }

  /** `s.includes(p)`. */
  predicate Contains(s: string, p: string) {
    exists i :: 0 <= i <= |s| - |p| && OccursAt(s, p, i)
  }

  /** `s.indexOf(p, from)` for a non-empty `p`: the first occurrence at or
      after `from`, or -1. */
  function IndexOfFrom(s: string, p: string, from: nat): (r: int)
    requires p != []
    ensures r == -1 || (from <= r && OccursAt(s, p, r))
    ensures r == -1 ==> forall i :: from <= i ==> !OccursAt(s, p, i)
    ensures r != -1 ==> forall i :: from <= i < r ==> !OccursAt(s, p, i)
    decreases |s| - from
  {
    if from + |p| > |s| then -1
    else if OccursAt(s, p, from) then from
    else IndexOfFrom(s, p, from + 1)
  }

  lemma IndexOfContains(s: string, p: string)
    requires p != []
    ensures IndexOfFrom(s, p, 0) != -1 <==> Contains(s, p)
  {
    var r := IndexOfFrom(s, p, 0);
    if r != -1 {
      assert OccursAt(s, p, r);
    }
  }

  /** A one-character pattern occurs exactly when the character does. */
  lemma ContainsChar(s: string, c: char)
    ensures Contains(s, [c]) <==> c in s
  {
    if c in s {
      var j :| 0 <= j < |s| && s[j] == c;
      assert s[j..j + 1] == [c];
      assert OccursAt(s, [c], j);
    }
    if Contains(s, [c]) {
      var j :| 0 <= j <= |s| - 1 && OccursAt(s, [c], j);
      assert s[j..j + 1][0] == s[j];
    }
  }

  lemma ContainsAppendLeft(a: string, b: string, p: string)
    requires Contains(b, p)
    ensures Contains(a + b, p)
  {
    var i :| 0 <= i <= |b| - |p| && OccursAt(b, p, i);
    assert (a + b)[|a| + i..|a| + i + |p|] == b[i..i + |p|];
    assert OccursAt(a + b, p, |a| + i);
  }

  lemma ContainsAppendRight(a: string, b: string, p: string)
    requires Contains(a, p)
    ensures Contains(a + b, p)
  {
    var i :| 0 <= i <= |a| - |p| && OccursAt(a, p, i);
    assert (a + b)[i..i + |p|] == a[i..i + |p|];
    assert OccursAt(a + b, p, i);
  }

  // ---------------------------------------------------------------------
  // Replacement (the replacement text is inserted literally)

  /** `s.replace(p, r)` with a string pattern: the first occurrence only. */
  function ReplaceFirst(s: string, p: string, r: string): (t: string)
    requires p != []
    ensures !Contains(s, p) ==> t == s
  {
    var i := IndexOfFrom(s, p, 0);
    if i == -1 then s else s[..i] + r + s[i + |p|..]
  }

  /** Only the first occurrence is replaced: nothing before it matches, and
      the text after it, later occurrences included, is kept as it was. */
  lemma ReplaceFirstSplits(s: string, p: string, r: string)
    requires p != [] && Contains(s, p)
    ensures exists i ::
              OccursAt(s, p, i) && (forall j :: 0 <= j < i ==> !OccursAt(s, p, j))
              && ReplaceFirst(s, p, r) == s[..i] + r + s[i + |p|..]
  {
    IndexOfContains(s, p);
    var i := IndexOfFrom(s, p, 0);
    assert OccursAt(s, p, i);
  }

  /** `s.replace(/p/g, r)` with a literal pattern: every occurrence, left to
      right, without overlaps. */
  function ReplaceAll(s: string, p: string, r: string): string
    requires p != []
    decreases |s|
  {
    if |s| < |p| then s
    else if p <= s then r + ReplaceAll(s[|p|..], p, r)
    else [s[0]] + ReplaceAll(s[1..], p, r)
  }

  /** A later occurrence that does not overlap the first one survives
      `ReplaceFirst`. */
  lemma ReplaceFirstKeepsLater(s: string, p: string, r: string, i: nat, j: nat)
    requires p != [] && OccursAt(s, p, i) && OccursAt(s, p, j) && i + |p| <= j
    ensures Contains(ReplaceFirst(s, p, r), p)
  {
    IndexOfContains(s, p);
    var f := IndexOfFrom(s, p, 0);
    var t := ReplaceFirst(s, p, r);
    assert f <= i;
    var at := f + |r| + (j - f - |p|);
    assert t == s[..f] + r + s[f + |p|..];
    assert t[at..at + |p|] == s[j..j + |p|];
    assert OccursAt(t, p, at);
  }

  /** `s.split(p)` for a non-empty string separator: the pieces between
      the occurrences found left to right. */
  function SplitOn(s: string, p: string): (parts: seq<string>)
    requires p != []
    ensures |parts| >= 1 && parts[0] <= s
    decreases |s|
  {
    if |s| < |p| then [s]
    else if p <= s then [[]] + SplitOn(s[|p|..], p)
    else
      var rest := SplitOn(s[1..], p);
      [[s[0]] + rest[0]] + rest[1..]
  }

  lemma JoinPrepend(parts: seq<string>, x: string, sep: string)
    requires |parts| >= 1
    ensures Join([x + parts[0]] + parts[1..], sep) == x + Join(parts, sep)
  {
    if |parts| > 1 {
      assert ([x + parts[0]] + parts[1..])[1..] == parts[1..];
    }
  }

  /** Replacing every occurrence is splitting on the pattern and joining
      with the replacement. */
  lemma {:induction false} ReplaceAllIsJoin(s: string, p: string, r: string)
    requires p != []
    ensures ReplaceAll(s, p, r) == Join(SplitOn(s, p), r)
    decreases |s|
  {
    if |s| >= |p| {
      if p <= s {
        ReplaceAllIsJoin(s[|p|..], p, r);
        JoinEmptyFront(SplitOn(s[|p|..], p), r);
      } else {
        ReplaceAllIsJoin(s[1..], p, r);
        JoinPrepend(SplitOn(s[1..], p), [s[0]], r);
      }
    }
  }

  lemma JoinEmptyFront(parts: seq<string>, sep: string)
    requires |parts| >= 1
    ensures Join([[]] + parts, sep) == sep + Join(parts, sep)
  {
    assert ([[]] + parts)[1..] == parts;
  }

  /** No piece between the replaced occurrences holds the pattern: every
      occurrence met in the left-to-right scan is replaced. */
  lemma {:induction false} SplitOnPiecesFree(s: string, p: string)
    requires p != []
    ensures forall k, i :: 0 <= k < |SplitOn(s, p)| ==> !OccursAt(SplitOn(s, p)[k], p, i)
    decreases |s|
  {
    var parts := SplitOn(s, p);
    if |s| >= |p| {
      if p <= s {
        SplitOnPiecesFree(s[|p|..], p);
      } else {
        SplitOnPiecesFree(s[1..], p);
        var rest := SplitOn(s[1..], p);
        var first := [s[0]] + rest[0];
        forall i ensures !OccursAt(first, p, i) {
          if i == 0 && |p| <= |first| {
            assert first[..|p|] == s[..|p|];
          } else if 0 < i && i + |p| <= |first| {
            assert first[i..i + |p|] == rest[0][i - 1..i - 1 + |p|];
            assert !OccursAt(rest[0], p, i - 1);
          }
        }
        assert forall k :: 1 <= k < |parts| ==> parts[k] == rest[k];
      }
    }
  }

  lemma {:induction false} ReplaceAllSame(s: string, p: string)
    requires p != []
    ensures ReplaceAll(s, p, p) == s
    decreases |s|
  {
    if |s| >= |p| {
      if p <= s {
        ReplaceAllSame(s[|p|..], p);
        assert s == p + s[|p|..];
      } else {
        ReplaceAllSame(s[1..], p);
      }
    }
  }

  /** Splitting on a pattern and joining with it gives the text back. */
  lemma SplitOnJoin(s: string, p: string)
    requires p != []
    ensures Join(SplitOn(s, p), p) == s
  {
    ReplaceAllIsJoin(s, p, p);
    ReplaceAllSame(s, p);
  }

  /** No occurrence of `p` can start inside `x`: wherever `x` holds the
      first character of `p`, the next character of `x` differs from the
      second of `p`. */
  predicate Inert(x: string, p: string)
    requires p != []
  {
    forall i :: 0 <= i < |x| && x[i] == p[0] ==> i + 1 < |x| && 1 < |p| && x[i + 1] != p[1]
  }

  /** Text after an inert prefix is scanned as if the prefix were not
      there. */
  lemma {:induction false} ReplaceAllSkip(x: string, s: string, p: string, r: string)
    requires p != [] && Inert(x, p)
    ensures ReplaceAll(x + s, p, r) == x + ReplaceAll(s, p, r)
    decreases |x|
  {
    if x == [] {
      assert x + s == s;
    } else {
      var t := x + s;
      InertTail(x, p);
      ReplaceAllSkip(x[1..], s, p, r);
      TailOfAppend(x, s);
      if |t| >= |p| {
        assert !(p <= t) by {
          if x[0] == p[0] {
            assert t[1] == x[1];
          } else {
            assert t[0] == x[0];
          }
        }
        assert t[0] == x[0];
        ConsBack(x, ReplaceAll(s, p, r));
      }
    }
  }

  lemma InertTail(x: string, p: string)
    requires p != [] && x != [] && Inert(x, p)
    ensures Inert(x[1..], p)
  {
    forall i | 0 <= i < |x| - 1 && x[1..][i] == p[0]
      ensures i + 1 < |x| - 1 && 1 < |p| && x[1..][i + 1] != p[1]
    {
      assert x[1..][i] == x[i + 1];
    }
  }

  lemma TailOfAppend(x: string, s: string)
    requires x != []
    ensures (x + s)[1..] == x[1..] + s
  {
  }

  lemma ConsBack(x: string, w: string)
    requires x != []
    ensures [x[0]] + (x[1..] + w) == x + w
  {
    assert [x[0]] + x[1..] == x;
  }


  /** An occurrence at the front is replaced and the scan resumes after it. */
  lemma ReplaceAllFront(s: string, p: string, r: string)
    requires p != []
    ensures ReplaceAll(p + s, p, r) == r + ReplaceAll(s, p, r)
  {
    assert (p + s)[|p|..] == s;
  }

  /** Text in which `p` does not occur is left alone by a global replace. */
  lemma ReplaceAllInert(x: string, p: string, r: string)
    requires p != [] && Inert(x, p)
    ensures ReplaceAll(x, p, r) == x
  {
    ReplaceAllSkip(x, [], p, r);
    assert x + [] == x;
  }

  /** Text in which `p` does not occur is left alone by a first-only replace. */
  lemma ReplaceFirstInert(x: string, p: string, r: string)
    requires p != [] && Inert(x, p)
    ensures ReplaceFirst(x, p, r) == x
  {
    ReplaceFirstSkip(x, [], p, r);
    assert x + [] == x;
    assert IndexOfFrom([], p, 0) == -1;
  }

  /** Two inert texts make an inert text. */
  lemma InertConcat(x: string, y: string, p: string)
    requires p != [] && Inert(x, p) && Inert(y, p)
    ensures Inert(x + y, p)
  {
    var t := x + y;
    forall i | 0 <= i < |t| && t[i] == p[0] ensures i + 1 < |t| && 1 < |p| && t[i + 1] != p[1] {
      if i < |x| {
        assert t[i] == x[i] && t[i + 1] == x[i + 1];
      } else {
        assert t[i] == y[i - |x|];
        assert t[i + 1] == y[i + 1 - |x|];
      }
    }
  }

  /** No occurrence of `p` starts inside an inert text, whatever follows it. */
  lemma InertNoOccurrence(x: string, s: string, p: string, i: nat)
    requires p != [] && Inert(x, p) && i < |x|
    ensures !OccursAt(x + s, p, i)
  {
    var t := x + s;
    assert t[i] == x[i];
    if x[i] == p[0] {
      assert t[i + 1] == x[i + 1] && x[i + 1] != p[1];
      assert i + |p| <= |t| ==> t[i..i + |p|][1] != p[1];
    } else {
      assert i + |p| <= |t| ==> t[i..i + |p|][0] != p[0];
    }
  }

  /** The first occurrence after an inert prefix is the first one in the
      text that follows it. */
  lemma ReplaceFirstSkip(x: string, s: string, p: string, r: string)
    requires p != [] && Inert(x, p)
    ensures ReplaceFirst(x + s, p, r) == x + ReplaceFirst(s, p, r)
  {
    var k := IndexOfFrom(s, p, 0);
    IndexAfterInert(x, s, p);
    if k != -1 {
      ReplaceFirstFound(s, p, r, k);
      ReplaceFirstFound(x + s, p, r, |x| + k);
      PrefixPastPrefix(x, s, k);
      SuffixPastPrefix(x, s, k + |p|);
      ConcatFour(x, s[..k], r, s[k + |p|..]);
    }
  }

  lemma ReplaceFirstFound(s: string, p: string, r: string, k: int)
    requires p != [] && k != -1 && IndexOfFrom(s, p, 0) == k
    ensures 0 <= k && k + |p| <= |s| && ReplaceFirst(s, p, r) == s[..k] + r + s[k + |p|..]
  {
  }

  lemma PrefixPastPrefix(x: string, s: string, k: nat)
    requires k <= |s|
    ensures (x + s)[..|x| + k] == x + s[..k]
  {
  }

  lemma ConcatFour(a: string, b: string, c: string, d: string)
    ensures a + b + c + d == a + (b + c + d)
  {
  }

  /** Past an inert prefix, the first occurrence is shifted by its length. */
  lemma IndexAfterInert(x: string, s: string, p: string)
    requires p != [] && Inert(x, p)
    ensures var k := IndexOfFrom(s, p, 0);
      IndexOfFrom(x + s, p, 0) == if k == -1 then -1 else |x| + k
  {
    var t := x + s;
    forall i | 0 <= i < |x| ensures !OccursAt(t, p, i) {
      InertNoOccurrence(x, s, p, i);
    }
    forall i | |x| <= i ensures OccursAt(t, p, i) <==> OccursAt(s, p, i - |x|) {
      OccursShifted(x, s, p, i);
    }
    var k, m := IndexOfFrom(s, p, 0), IndexOfFrom(t, p, 0);
    if m != -1 {
      assert |x| <= m && OccursAt(s, p, m - |x|);
    }
    if k != -1 {
      assert OccursAt(t, p, |x| + k);
    }
  }

  lemma OccursShifted(x: string, s: string, p: string, i: nat)
    requires |x| <= i
    ensures OccursAt(x + s, p, i) <==> OccursAt(s, p, i - |x|)
  {
    if i + |p| <= |x| + |s| {
      assert (x + s)[i..i + |p|] == s[i - |x|..i - |x| + |p|];
    }
  }

  lemma SuffixPastPrefix(x: string, s: string, k: nat)
    requires k <= |s|
    ensures (x + s)[|x| + k..] == s[k..]
  {
  }

  /** After an inert prefix, the first occurrence is the one that follows it. */
  lemma ReplaceFirstAfter(x: string, p: string, y: string, r: string)
    requires p != [] && Inert(x, p)
    ensures ReplaceFirst(x + (p + y), p, r) == x + (r + y)
  {
    ReplaceFirstSkip(x, p + y, p, r);
    ReplaceFirstFront(y, p, r);
  }

  /** An occurrence at the front is the first one. */
  lemma ReplaceFirstFront(y: string, p: string, r: string)
    requires p != []
    ensures ReplaceFirst(p + y, p, r) == r + y
  {
    AppendParts(p, y);
    IndexAtStart(p + y, p);
    ReplaceFirstFound(p + y, p, r, 0);
  }

  lemma AppendParts(a: string, b: string)
    ensures (a + b)[..|a|] == a && (a + b)[|a|..] == b
  {
  }

  lemma IndexAtStart(t: string, p: string)
    requires p != [] && |p| <= |t| && t[..|p|] == p
    ensures IndexOfFrom(t, p, 0) == 0
  {
    assert OccursAt(t, p, 0);
  }


  /** Every `c` of `s` written as `r`. */
  function Subst(s: string, c: char, r: string): (t: string)
    ensures c !in s ==> t == s
  {
    if s == [] then [] else (if s[0] == c then r else [s[0]]) + Subst(s[1..], c, r)
  }

  lemma {:induction false} ReplaceAllOneChar(s: string, c: char, r: string)
    ensures ReplaceAll(s, [c], r) == Subst(s, c, r)
    decreases |s|
  {
    if s != [] {
      ReplaceAllOneChar(s[1..], c, r);
      if s[0] == c {
        assert [c] <= s;
      } else {
        assert !([c] <= s);
      }
    }
  }

  lemma {:induction false} SubstAppend(a: string, b: string, c: char, r: string)
    ensures Subst(a + b, c, r) == Subst(a, c, r) + Subst(b, c, r)
    decreases |a|
  {
    if a == [] {
      assert a + b == b;
    } else {
      assert (a + b)[0] == a[0] && (a + b)[1..] == a[1..] + b;
      SubstAppend(a[1..], b, c, r);
    }
  }

  // ---------------------------------------------------------------------
  // Prefixes, suffixes, trimming

  predicate StartsWith(s: string, p: string) { p <= s }

  predicate EndsWith(s: string, p: string) {
    |p| <= |s| && s[|s| - |p|..] == p
  }

  /** Text ending in `b` and then `c` ends in `b + c`. */
  lemma EndsWithTail(a: string, b: string, c: string)
    ensures EndsWith(a + b + c, b + c)
  {
    assert a + b + c == a + (b + c);
    assert (a + (b + c))[|a|..] == b + c;
  }

  function TrimStart(s: string): (r: string)
    ensures r == [] || !IsSpace(r[0])
    ensures |r| <= |s| && r == s[|s| - |r|..]
  {
    if s != [] && IsSpace(s[0]) then TrimStart(s[1..]) else s
  }

  function TrimEnd(s: string): (r: string)
    ensures r == [] || !IsSpace(r[|r| - 1])
    ensures r <= s
  {
    if s != [] && IsSpace(s[|s| - 1]) then TrimEnd(s[..|s| - 1]) else s
  }

  /** `trim()`: surrounding JavaScript white space removed. */
  function Trim(s: string): string {
    TrimEnd(TrimStart(s))
  }

  lemma {:induction false} TrimStartSpaces(w: string, s: string)
    requires AllSpace(w)
    ensures TrimStart(w + s) == TrimStart(s)
    decreases |w|
  {
    if w != [] {
      assert (w + s)[1..] == w[1..] + s;
      TrimStartSpaces(w[1..], s);
    } else {
      assert w + s == s;
    }
  }

  lemma {:induction false} TrimEndSpaces(s: string, w: string)
    requires AllSpace(w)
    ensures TrimEnd(s + w) == TrimEnd(s)
    decreases |w|
  {
    if w != [] {
      assert (s + w)[..|s + w| - 1] == s + w[..|w| - 1];
      TrimEndSpaces(s, w[..|w| - 1]);
    } else {
      assert s + w == s;
    }
  }

  lemma {:induction false} TrimStartEmpty(s: string)
    requires TrimStart(s) == []
    ensures AllSpace(s)
    decreases |s|
  {
    if s != [] {
      assert IsSpace(s[0]);
      TrimStartEmpty(s[1..]);
      forall i | 0 <= i < |s| ensures IsSpace(s[i]) {
        if i > 0 { assert s[i] == s[1..][i - 1]; }
      }
    }
  }

  /** Whatever `TrimStart` drops is white space. */
  lemma {:induction false} TrimStartDropsSpace(s: string)
    ensures forall i :: 0 <= i < |s| - |TrimStart(s)| ==> IsSpace(s[i])
    decreases |s|
  {
    if s != [] && IsSpace(s[0]) {
      TrimStartDropsSpace(s[1..]);
      forall i | 0 <= i < |s| - |TrimStart(s)| ensures IsSpace(s[i]) {
        if i > 0 {
          assert s[i] == s[1..][i - 1];
        }
      }
    }
  }

  /** `TrimStart` drops exactly a run of `k` leading spaces. */
  lemma {:induction false} TrimStartDrop(s: string, k: nat)
    requires k <= |s| && (forall i :: 0 <= i < k ==> IsSpace(s[i]))
    requires k == |s| || !IsSpace(s[k])
    ensures TrimStart(s) == s[k..]
    decreases k
  {
    if k > 0 {
      assert IsSpace(s[0]);
      forall i | 0 <= i < k - 1 ensures IsSpace(s[1..][i]) {
        assert s[1..][i] == s[i + 1];
      }
      assert k - 1 == |s[1..]| || s[1..][k - 1] == s[k];
      TrimStartDrop(s[1..], k - 1);
      assert s[1..][k - 1..] == s[k..];
    }
  }

  lemma TrimStartAppend(s: string, w: string)
    requires TrimStart(s) != []
    ensures TrimStart(s + w) == TrimStart(s) + w
  {
    var k := |s| - |TrimStart(s)|;
    TrimStartDropsSpace(s);
    assert s[k] == TrimStart(s)[0];
    forall i | 0 <= i < k ensures IsSpace((s + w)[i]) {
      assert (s + w)[i] == s[i];
    }
    assert (s + w)[k] == s[k];
    TrimStartDrop(s + w, k);
    SuffixOfAppend(s, w, k);
  }

  lemma SuffixOfAppend(s: string, w: string, k: nat)
    requires k <= |s|
    ensures (s + w)[k..] == s[k..] + w
  {
  }

  /** Surrounding white space never changes the trimmed text. */
  lemma TrimSurrounded(w1: string, s: string, w2: string)
    requires AllSpace(w1) && AllSpace(w2)
    ensures Trim(w1 + s + w2) == Trim(s)
  {
    assert w1 + s + w2 == w1 + (s + w2);
    TrimStartSpaces(w1, s + w2);
    var t := TrimStart(s);
    if t == [] {
      TrimStartEmpty(s);
      TrimStartSpaces(s, w2);
      assert w2 == w2 + [];
      TrimStartSpaces(w2, []);
      assert TrimStart(s + w2) == [];
    } else {
      TrimStartAppend(s, w2);
      TrimEndSpaces(t, w2);
    }
  }

  // ---------------------------------------------------------------------
  // Splitting and joining

  /** `s.split(sep)` for a one-character separator: never empty. */
  function Split(s: string, sep: char): (parts: seq<string>)
    ensures |parts| >= 1
    ensures forall i :: 0 <= i < |parts| ==> sep !in parts[i]
  {
    if s == [] then [[]]
    else
      var rest := Split(s[1..], sep);
      if s[0] == sep then [[]] + rest else [[s[0]] + rest[0]] + rest[1..]
  }

  /** `parts.join(sep)`. */
  function Join(parts: seq<string>, sep: string): string {
    if parts == [] then []
    else if |parts| == 1 then parts[0]
    else parts[0] + sep + Join(parts[1..], sep)
  }

  /** Splitting on a character and joining with it gives the text back. */
  lemma {:induction false} JoinSplit(s: string, sep: char)
    ensures Join(Split(s, sep), [sep]) == s
  {
    if s != [] {
      JoinSplit(s[1..], sep);
      var rest := Split(s[1..], sep);
      if s[0] != sep && |rest| > 1 {
        assert Join(rest, [sep]) == rest[0] + [sep] + Join(rest[1..], [sep]);
      }
    }
  }

  // ---------------------------------------------------------------------
  // Numbers

  function DigitChar(d: nat): char
    requires d < 10
  {
    ('0' as int + d) as char
  }

  predicate IsDigit(c: char) { '0' <= c <= '9' }

  /** The decimal numeral of `n`, as template literals print it. */
  function NatToString(n: nat): (r: string)
    ensures r != [] && forall i :: 0 <= i < |r| ==> IsDigit(r[i])
  {
    if n < 10 then [DigitChar(n)] else NatToString(n / 10) + [DigitChar(n % 10)]
  }

  function IntToString(n: int): string {
    if n < 0 then "-" + NatToString(-n) else NatToString(n)
  }

  function DigitsValue(d: string): nat
    requires forall i :: 0 <= i < |d| ==> IsDigit(d[i])
  {
    if d == [] then 0
    else
      var last := d[|d| - 1];
      assert IsDigit(last);
      DigitsValue(d[..|d| - 1]) * 10 + (last as int - '0' as int)
  }

  /** The longest prefix of decimal digits. */
  function DigitPrefix(s: string): (d: string)
    ensures d <= s && forall i :: 0 <= i < |d| ==> IsDigit(d[i])
    ensures |d| < |s| ==> !IsDigit(s[|d|])
  {
    if s != [] && IsDigit(s[0]) then [s[0]] + DigitPrefix(s[1..]) else []
  }

  /** `parseInt(s, 10)`: leading white space, an optional sign, then the
      longest run of digits; `None` stands for NaN. */
  function ParseInt(s: string): Option<int> {
    var t := TrimStart(s);
    var neg := t != [] && t[0] == '-';
    var u := if t != [] && (t[0] == '-' || t[0] == '+') then t[1..] else t;
    var d := DigitPrefix(u);
    if d == [] then None
    else
      var v: int := DigitsValue(d);
      Some(if neg then -v else v)
  }

  lemma {:induction false} DigitsValueOfNumeral(n: nat)
    ensures DigitsValue(NatToString(n)) == n
  {
    if n >= 10 {
      DigitsValueOfNumeral(n / 10);
      var r := NatToString(n);
      assert r[..|r| - 1] == NatToString(n / 10);
    }
  }

  lemma DigitPrefixAll(d: string)
    requires forall i :: 0 <= i < |d| ==> IsDigit(d[i])
    ensures DigitPrefix(d) == d
  {
    var p := DigitPrefix(d);
    assert |p| == |d|;
  }

  lemma ParseIntOfDigits(d: string)
    requires d != [] && forall i :: 0 <= i < |d| ==> IsDigit(d[i])
    ensures ParseInt(d) == Some(DigitsValue(d) as int)
  {
    assert IsDigit(d[0]);
    assert !IsSpace(d[0]);
    var t := TrimStart(d);
    assert t == d;
    assert !(t[0] == '-' || t[0] == '+');
    DigitPrefixAll(d);
  }

  /** `parseInt` reads back the numeral of every natural number. */
  lemma ParseIntOfNumeral(n: nat)
    ensures ParseInt(NatToString(n)) == Some(n)
  {
    ParseIntOfDigits(NatToString(n));
    DigitsValueOfNumeral(n);
  }

  // ---------------------------------------------------------------------
  // Slicing

  /** `xs.slice(0, n)` for a non-negative count. */
  function Take<T>(xs: seq<T>, n: nat): (r: seq<T>)
    ensures |r| == if n < |xs| then n else |xs|
    ensures r <= xs
  {
    if n < |xs| then xs[..n] else xs
  }

  /** `xs.slice(0, end)` where `end` came from `parseInt`: a negative end
      counts from the back and NaN counts as 0. */
  function SliceTo<T>(xs: seq<T>, end: Option<int>): (r: seq<T>)
    ensures r <= xs
  {
    match end
    case None => []
    case Some(e) =>
      if e >= 0 then Take(xs, e)
      else if |xs| + e < 0 then []
      else xs[..|xs| + e]
  }

  /** `xs.flatMap(f)`: the results of `f` on each element, in order. */
  function FlatMap<A, B>(xs: seq<A>, f: A -> seq<B>): seq<B> {
    if xs == [] then [] else FlatMap(xs[..|xs| - 1], f) + f(xs[|xs| - 1])
  }

  lemma FlatMapSnoc<A, B>(xs: seq<A>, x: A, f: A -> seq<B>)
    ensures FlatMap(xs + [x], f) == FlatMap(xs, f) + f(x)
  {
    assert (xs + [x])[..|xs|] == xs;
  }

  lemma {:induction false} FlatMapAppend<A, B>(a: seq<A>, b: seq<A>, f: A -> seq<B>)
    ensures FlatMap(a + b, f) == FlatMap(a, f) + FlatMap(b, f)
    decreases |b|
  {
    if b == [] {
      assert a + b == a;
    } else {
      var init, last := b[..|b| - 1], b[|b| - 1];
      assert FlatMap(a + b, f) == FlatMap(a + init, f) + f(last) by {
        assert a + b == (a + init) + [last];
        FlatMapSnoc(a + init, last, f);
      }
      assert FlatMap(b, f) == FlatMap(init, f) + f(last) by {
        assert b == init + [last];
        FlatMapSnoc(init, last, f);
      }
      FlatMapAppend(a, init, f);
      ConcatAssoc(FlatMap(a, f), FlatMap(init, f), f(last));
    }
  }

  lemma ConcatAssoc<B>(x: seq<B>, y: seq<B>, z: seq<B>)
    ensures (x + y) + z == x + (y + z)
  {
  }

  lemma {:induction false} FlatMapMembers<A, B>(xs: seq<A>, f: A -> seq<B>, y: B)
    ensures y in FlatMap(xs, f) <==> exists i :: 0 <= i < |xs| && y in f(xs[i])
    decreases |xs|
  {
    if xs != [] {
      var init := xs[..|xs| - 1];
      FlatMapMembers(init, f, y);
      assert forall i :: 0 <= i < |init| ==> init[i] == xs[i];
    }
  }

  /** `xs.filter(keep)`: the elements `keep` accepts, in order. */
  function Filter<A>(xs: seq<A>, keep: A -> bool): seq<A> {
    if xs == [] then []
    else Filter(xs[..|xs| - 1], keep) + (if keep(xs[|xs| - 1]) then [xs[|xs| - 1]] else [])
  }

  lemma FilterSnoc<A>(xs: seq<A>, x: A, keep: A -> bool)
    ensures Filter(xs + [x], keep) == Filter(xs, keep) + (if keep(x) then [x] else [])
  {
    assert (xs + [x])[..|xs|] == xs;
  }

  lemma {:induction false} FilterMembers<A>(xs: seq<A>, keep: A -> bool, y: A)
    ensures y in Filter(xs, keep) <==> y in xs && keep(y)
    decreases |xs|
  {
    if xs != [] {
      var init := xs[..|xs| - 1];
      FilterMembers(init, keep, y);
      assert xs == init + [xs[|xs| - 1]];
    }
  }

  lemma {:induction false} FilterShorter<A>(xs: seq<A>, keep: A -> bool)
    ensures |Filter(xs, keep)| <= |xs|
    decreases |xs|
  {
    if xs != [] {
      FilterShorter(xs[..|xs| - 1], keep);
    }
  }

  lemma {:induction false} FilterKeepsOrder<A>(xs: seq<A>, keep: A -> bool)
    ensures Subsequence(Filter(xs, keep), xs)
    decreases |xs|
  {
    if xs != [] {
      var init := xs[..|xs| - 1];
      FilterKeepsOrder(init, keep);
      var r := Filter(xs, keep);
      if keep(xs[|xs| - 1]) {
        assert r == Filter(init, keep) + [xs[|xs| - 1]];
        assert r[..|r| - 1] == Filter(init, keep);
      } else {
        assert r == Filter(init, keep);
      }
    }
  }

  /** `xs` is `ys` with some elements left out, order kept. */
  predicate Subsequence<T(==)>(xs: seq<T>, ys: seq<T>)
    decreases |ys|
  {
    if ys == [] then xs == []
    else
      (xs != [] && xs[|xs| - 1] == ys[|ys| - 1] && Subsequence(xs[..|xs| - 1], ys[..|ys| - 1]))
      || Subsequence(xs, ys[..|ys| - 1])
  }
}
