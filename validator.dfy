/** Quality checks on generated posts and the artifact cleaner
    (`utils/validator.ts`). */
module Validator {
  import opened Wrappers
  import opened JsString
  import opened Files

  // ---------------------------------------------------------------------
  // Glyph classes

  const LeftDoubleQuote: char := '\U{201C}'
  const RightDoubleQuote: char := '\U{201D}'
  const LeftSingleQuote: char := '\U{2018}'
  const RightSingleQuote: char := '\U{2019}'
  const Ellipsis: char := '\U{2026}'
  const EmDash: char := '\U{2014}'
  const EnDash: char := '\U{2013}'
  const Bullet: char := '\U{2022}'

  /** A code point of `EMOJI_PATTERN`: U+1F300-1F9FF, U+2600-26FF or U+2700-27BF. */
  predicate IsEmoji(c: char) {
    ('\U{1F300}' <= c <= '\U{1F9FF}') || ('\U{2600}' <= c <= '\U{26FF}') || ('\U{2700}' <= c <= '\U{27BF}')
  }

  /** A character of `SPECIAL_CHAR_PATTERN`. */
  predicate IsSpecial(c: char) {
    c == LeftDoubleQuote || c == RightDoubleQuote || c == LeftSingleQuote || c == RightSingleQuote
    || c == Ellipsis || c == EmDash || c == EnDash || c == Bullet
  }

  predicate HasEmoji(s: string) {
    exists i :: 0 <= i < |s| && IsEmoji(s[i])
  }

  predicate HasSpecial(s: string) {
    exists i :: 0 <= i < |s| && IsSpecial(s[i])
  }

  const AIPhrases: seq<string> := [
    "leverage", "revolutionary", "cutting-edge", "synergy",
    "game-changer", "paradigm shift", "holistic approach",
    "seamlessly", "robust solution", "best-in-class"
  ]

  // ---------------------------------------------------------------------
  // Front matter and body

  /** `content.indexOf('---', 4)`. */
  function FrontmatterEnd(content: string): int {
    IndexOfFrom(content, "---", 4)
  }

  /** The text after the closing `---`, or all of it when there is none. */
  function Body(content: string): string {
    var e := FrontmatterEnd(content);
    if e > 0 then content[e + 3..] else content
  }

  /** `content.slice(0, frontmatterEnd + 3)`: the first two characters when
      there is no closing `---`. */
  function FrontmatterText(content: string): string {
    var e := FrontmatterEnd(content);
    if e >= 0 then content[..e + 3]
    else if |content| < 2 then content else content[..2]
  }

  predicate HasFrontmatter(content: string) {
    StartsWith(content, "---") && FrontmatterEnd(content) > 3
  }

  /** The front-matter check passes exactly when the text opens with `---`
      and has another `---` at index 4 or later. */
  lemma FrontmatterIff(content: string)
    ensures HasFrontmatter(content) <==>
      StartsWith(content, "---") && exists i :: 4 <= i && OccursAt(content, "---", i)
  {
    var e := FrontmatterEnd(content);
    if e != -1 {
      assert OccursAt(content, "---", e);
    }
  }

  /** With front matter, the text is its front matter followed by its body. */
  lemma FrontmatterThenBody(content: string)
    requires HasFrontmatter(content)
    ensures content == FrontmatterText(content) + Body(content)
  {
  }

  // ---------------------------------------------------------------------
  // Word count: `body.split(/\s+/).filter(w => w.length > 0).length`

  /** A word starts at `i`. */
  predicate WordStart(s: string, i: int) {
    0 <= i < |s| && !IsSpace(s[i]) && (i == 0 || IsSpace(s[i - 1]))
  }

  /** The number of maximal runs of non-space characters. */
  function WordCount(s: string): nat {
    if s == [] then 0
    else WordCount(s[..|s| - 1]) + (if WordStart(s, |s| - 1) then 1 else 0)
  }

  predicate IsWord(w: string) {
    w != [] && forall i :: 0 <= i < |w| ==> !IsSpace(w[i])
  }

  lemma {:induction false} WordCountAppend(a: string, b: string)
    requires a == [] || b == [] || IsSpace(a[|a| - 1]) || IsSpace(b[0])
    ensures WordCount(a + b) == WordCount(a) + WordCount(b)
    decreases |b|
  {
    if b == [] {
      assert a + b == a;
    } else {
      var b' := b[..|b| - 1];
      assert (a + b)[..|a + b| - 1] == a + b';
      if b' != [] {
        WordCountAppend(a, b');
        assert (a + b)[|a + b| - 2] == b[|b| - 2];
      } else {
        assert a + b' == a;
      }
    }
  }

  lemma {:induction false} WordCountOfWord(w: string)
    requires IsWord(w)
    ensures WordCount(w) == 1
    decreases |w|
  {
    if |w| > 1 {
      WordCountOfWord(w[..|w| - 1]);
    }
  }

  /** Words joined by single spaces are counted one each. */
  lemma {:induction false} WordCountJoin(words: seq<string>)
    requires forall i :: 0 <= i < |words| ==> IsWord(words[i])
    ensures WordCount(Join(words, " ")) == |words|
    decreases |words|
  {
    if |words| == 1 {
      WordCountOfWord(words[0]);
    } else if |words| > 1 {
      var w := words[0];
      var rest := Join(words[1..], " ");
      WordCountJoin(words[1..]);
      WordCountOfWord(w);
      WordCountAppend(w, " ");
      assert WordCount(" ") == 0;
      WordCountAppend(w + " ", rest);
    }
  }

  // ---------------------------------------------------------------------
  // `/status:\s*["']?(draft|published|review)["']?/i`

  predicate IsQuote(c: char) {
    c == '"' || c == '\''
  }

  /** The greedy `\s*` from `i`: where the run of white space ends. */
  function SkipSpace(s: string, i: nat): (j: nat)
    requires i <= |s|
    ensures i <= j <= |s| && (j == |s| || !IsSpace(s[j]))
    ensures forall k :: i <= k < j ==> IsSpace(s[k])
    decreases |s| - i
  {
    if i < |s| && IsSpace(s[i]) then SkipSpace(s, i + 1) else i
  }

  /** The status pattern matches the lower-cased text `s` at `i`. (White
      space, quotes and the three words share no first character, so the
      greedy choices are the only ones that can succeed.) */
  predicate StatusAt(s: string, i: int) {
    OccursAt(s, "status:", i)
    && var j := SkipSpace(s, i + 7);
       var k := if j < |s| && IsQuote(s[j]) then j + 1 else j;
       OccursAt(s, "draft", k) || OccursAt(s, "published", k) || OccursAt(s, "review", k)
  }

  predicate HasStatus(frontmatter: string) {
    exists i :: 0 <= i <= |frontmatter| && StatusAt(ToLower(frontmatter), i)
  }

  /** The pattern matches where the lower-cased text reads
      `status: <q><v>`. */
  lemma StatusAtField(t: string, i: nat, q: string, v: string)
    requires q == "" || q == "\"" || q == "'"
    requires v == "draft" || v == "review" || v == "published"
    requires i + 8 + |q| + |v| <= |t| && t[i..i + 8 + |q| + |v|] == "status: " + q + v
    ensures StatusAt(t, i)
  {
    var field := "status: " + q + v;
    var k := i + 8 + |q|;
    assert OccursAt(t, "status:", i) by {
      assert t[i..i + 7] == field[..7];
    }
    assert SkipSpace(t, i + 7) == i + 8 by {
      assert t[i + 7] == field[7];
      assert t[i + 8] == field[8] && !IsSpace(field[8]);
    }
    assert (if i + 8 < |t| && IsQuote(t[i + 8]) then i + 9 else i + 8) == k by {
      assert t[i + 8] == field[8];
      assert IsQuote(field[8]) <==> q != "";
    }
    assert OccursAt(t, v, k) by {
      assert t[k..k + |v|] == field[8 + |q|..];
    }
  }

  lemma StatusFieldLower(q: string, v: string)
    requires q == "" || q == "\"" || q == "'"
    requires v == "draft" || v == "review" || v == "published"
    ensures IsLower("status: " + q + v)
  {
    var field := "status: " + q + v;
    forall k | 0 <= k < |field| ensures !IsUpper(field[k]) {
      if k < 8 {
        assert field[k] == "status: "[k];
      } else if k < 8 + |q| {
        assert field[k] == q[k - 8];
      } else {
        assert field[k] == v[k - 8 - |q|];
      }
    }
  }

  /** A `status: <value>` field, quoted or not, is recognised wherever it
      stands. */
  lemma StatusLineRecognised(pre: string, q: string, v: string, post: string)
    requires q == "" || q == "\"" || q == "'"
    requires v == "draft" || v == "review" || v == "published"
    ensures HasStatus(pre + "status: " + q + v + post)
  {
    var field := "status: " + q + v;
    var s := pre + field + post;
    assert pre + "status: " + q + v + post == s;
    var t := ToLower(s);
    var i := |pre|;
    StatusFieldLower(q, v);
    forall k | 0 <= k < |field| ensures t[i + k] == field[k] {
      assert s[i + k] == field[k];
    }
    assert t[i..i + |field|] == field;
    StatusAtField(t, i, q, v);
  }

  // ---------------------------------------------------------------------
  // `/<key>\s*["']?(.+?)["']?\s*$/m` and the length of its group

  /** `\s*$` matches at `y` (multiline: `$` also before a line terminator). */
  predicate TailOk(s: string, y: nat)
    decreases |s| - y
  {
    y >= |s| || IsLineTerminator(s[y]) || (IsSpace(s[y]) && TailOk(s, y + 1))
  }

  /** `["']?\s*$` matches at `x`. */
  predicate EndOk(s: string, x: nat) {
    (x < |s| && IsQuote(s[x]) && TailOk(s, x + 1)) || TailOk(s, x)
  }

  /** The lazy `(.+?)` from `g`: the shortest length, at least `n`, after
      which the rest of the pattern matches. It never crosses a line
      terminator, since the rest matches right before one. */
  function LazyLen(s: string, g: nat, n: nat): (len: nat)
    requires g + n <= |s|
    ensures n <= len && g + len <= |s| && EndOk(s, g + len)
    decreases |s| - (g + n)
  {
    if EndOk(s, g + n) then n else LazyLen(s, g, n + 1)
  }

  /** The last position in `[p, q)` holding no line terminator. */
  function LastInline(s: string, p: nat, q: nat): (r: Option<nat>)
    requires p <= q <= |s|
    ensures r.Some? ==> p <= r.value < q && !IsLineTerminator(s[r.value])
    decreases q - p
  {
    if q == p then None
    else if !IsLineTerminator(s[q - 1]) then Some(q - 1)
    else LastInline(s, p, q - 1)
  }

  /** Where the group starts once the key has matched up to `p`: after the
      greedy `\s*` and the optional quote; if white space runs to the end of
      the text, the engine backs off to the last white space character that
      `.` accepts. */
  function GroupStart(s: string, p: nat): (g: Option<nat>)
    requires p <= |s|
    ensures g.Some? ==> p <= g.value < |s| && !IsLineTerminator(s[g.value])
  {
    var q := SkipSpace(s, p);
    if q < |s| then
      if IsQuote(s[q]) && q + 1 < |s| && !IsLineTerminator(s[q + 1]) then Some(q + 1) else Some(q)
    else LastInline(s, p, q)
  }

  /** The length of the group of the leftmost match at or after `from`. */
  function CaptureFrom(s: string, key: string, from: nat): Option<nat>
    decreases |s| - from
  {
    if from + |key| > |s| then None
    else if OccursAt(s, key, from) && GroupStart(s, from + |key|).Some? then
      Some(LazyLen(s, GroupStart(s, from + |key|).value, 1))
    else CaptureFrom(s, key, from + 1)
  }

  /** `titleMatch ? titleMatch[1].length : 0`, likewise for the description. */
  function CaptureLength(s: string, key: string): nat {
    CaptureFrom(s, key, 0).GetOr(0)
  }

  predicate PlainText(t: string) {
    forall i :: 0 <= i < |t| ==> !IsQuote(t[i]) && !IsLineTerminator(t[i])
  }

  lemma {:induction false} NoTailBefore(s: string, y: nat, z: nat)
    requires y <= z < |s| && !IsSpace(s[z])
    requires forall k :: y <= k <= z ==> !IsLineTerminator(s[k])
    ensures !TailOk(s, y)
    decreases z - y
  {
    if y < z {
      NoTailBefore(s, y + 1, z);
    }
  }

  lemma {:induction false} LazyLenOfPlain(s: string, g: nat, t: string, n: nat)
    requires 1 <= n <= |t| && g + |t| + 2 <= |s| && s[g..g + |t|] == t
    requires PlainText(t) && !IsSpace(t[|t| - 1])
    requires IsQuote(s[g + |t|]) && IsLineTerminator(s[g + |t| + 1])
    ensures LazyLen(s, g, n) == |t|
    decreases |t| - n
  {
    if n < |t| {
      assert s[g + n] == t[n] && s[g + |t| - 1] == t[|t| - 1];
      forall k | g + n <= k <= g + |t| - 1 ensures !IsLineTerminator(s[k]) {
        assert s[k] == t[k - g];
      }
      NoTailBefore(s, g + n, g + |t| - 1);
      LazyLenOfPlain(s, g, t, n + 1);
    }
  }

  /** `key` occurs at `i` and nowhere before. */
  predicate FirstOccurrence(s: string, key: string, i: nat) {
    OccursAt(s, key, i) && forall j :: 0 <= j < i ==> !OccursAt(s, key, j)
  }

  /** A key that ends in its only colon first occurs after a prefix that
      does not hold it: an occurrence overlapping the key would need a
      colon inside it. */
  lemma KeyFirstAfter(pre: string, key: string, rest: string)
    requires |key| >= 1 && key[|key| - 1] == ':' && ':' !in key[..|key| - 1] && !Contains(pre, key)
    ensures FirstOccurrence(pre + key + rest, key, |pre|)
  {
    var s := pre + key + rest;
    var i := |pre|;
    assert s[i..i + |key|] == key;
    forall j | 0 <= j < i ensures !OccursAt(s, key, j) {
      var c := j + |key| - 1;
      if c < i {
        assert s[j..j + |key|] == pre[j..j + |key|];
        assert !OccursAt(pre, key, j);
      } else {
        assert s[c] == key[c - i] == key[..|key| - 1][c - i];
        assert s[c] != ':';
        assert s[j..j + |key|][|key| - 1] == s[c];
      }
    }
  }

  /** After the key, one space and an opening quote, the group starts at the
      text. */
  lemma GroupStartAfterQuote(s: string, p: nat)
    requires p + 2 < |s| && s[p] == ' ' && s[p + 1] == '"'
    requires !IsSpace(s[p + 2]) && !IsLineTerminator(s[p + 2])
    ensures GroupStart(s, p) == Some(p + 2)
  {
    assert SkipSpace(s, p + 1) == p + 1;
    assert SkipSpace(s, p) == p + 1;
  }

  /** The capture of the first occurrence of the key is the one measured. */
  lemma CaptureAtFirst(s: string, key: string, i: nat, g: nat)
    requires FirstOccurrence(s, key, i)
    requires GroupStart(s, i + |key|) == Some(g)
    ensures CaptureLength(s, key) == LazyLen(s, g, 1)
  {
    CaptureSkips(s, key, 0, i);
  }

  /** A front-matter line `<key> "<text>"` is measured as the text:
      for a key ending in its only colon, and no earlier occurrence of
      the key. */
  lemma CaptureOfQuotedLine(pre: string, key: string, t: string, post: string)
    requires |key| >= 1 && key[|key| - 1] == ':' && ':' !in key[..|key| - 1] && !Contains(pre, key)
    requires t != [] && PlainText(t) && !IsSpace(t[0]) && !IsSpace(t[|t| - 1])
    ensures CaptureLength(pre + key + " \"" + t + "\"\n" + post, key) == |t|
  {
    var rest := " \"" + t + "\"\n" + post;
    var s := pre + key + rest;
    var p := |pre| + |key|;
    var g := p + 2;
    assert pre + key + " \"" + t + "\"\n" + post == s by {
      QuotedRegroup(pre, key, t, post);
    }
    KeyFirstAfter(pre, key, rest);
    QuotedLineChars(pre + key, t, post);
    CaptureOfQuotedAt(s, key, |pre|, t);
  }

  /** The same, for the first occurrence of the key at `i` followed by
      ` "<t>"` and a line break. */
  lemma CaptureOfQuotedAt(s: string, key: string, i: nat, t: string)
    requires FirstOccurrence(s, key, i)
    requires t != [] && PlainText(t) && !IsSpace(t[0]) && !IsSpace(t[|t| - 1])
    requires var p := i + |key|;
      p + |t| + 4 <= |s| && s[p] == ' ' && s[p + 1] == '"' && s[p + 2] == t[0]
      && s[p + 2..p + 2 + |t|] == t && s[p + 2 + |t|] == '"' && s[p + 3 + |t|] == '\n'
    ensures CaptureLength(s, key) == |t|
  {
    var p := i + |key|;
    GroupStartAfterQuote(s, p);
    LazyLenOfPlain(s, p + 2, t, 1);
    CaptureAtFirst(s, key, i, p + 2);
  }

  lemma QuotedRegroup(pre: string, key: string, t: string, post: string)
    ensures pre + key + " \"" + t + "\"\n" + post == pre + key + (" \"" + t + "\"\n" + post)
  {
  }

  /** The characters of `<head> "<t>"` followed by a line break. */
  lemma QuotedLineChars(head: string, t: string, post: string)
    requires t != []
    ensures var s, p := head + (" \"" + t + "\"\n" + post), |head|;
      p + |t| + 4 <= |s| && s[p] == ' ' && s[p + 1] == '"' && s[p + 2] == t[0]
      && s[p + 2..p + 2 + |t|] == t && s[p + 2 + |t|] == '"' && s[p + 3 + |t|] == '\n'
  {
    var s, p := head + (" \"" + t + "\"\n" + post), |head|;
    forall k | 0 <= k < |t| ensures s[p + 2 + k] == t[k] {
    }
    assert s[p + 2..p + 2 + |t|] == t;
  }

  lemma {:induction false} CaptureSkips(s: string, key: string, from: nat, i: nat)
    requires from <= i && i + |key| <= |s|
    requires forall j :: from <= j < i ==> !OccursAt(s, key, j)
    ensures CaptureFrom(s, key, from) == CaptureFrom(s, key, i)
    decreases i - from
  {
    if from < i {
      CaptureSkips(s, key, from + 1, i);
    }
  }

  // ---------------------------------------------------------------------
  // `analyzeContent`

  datatype Metrics = Metrics(
    wordCount: nat,
    hasEmojis: bool,
    hasSpecialChars: bool,
    hasFrontmatter: bool,
    hasValidStatus: bool,
    titleLength: nat,
    descriptionLength: nat)

  function AnalyzeContent(content: string): Metrics {
    var frontmatter := FrontmatterText(content);
    Metrics(
      WordCount(Body(content)),
      HasEmoji(content),
      HasSpecial(content),
      HasFrontmatter(content),
      HasStatus(frontmatter),
      CaptureLength(frontmatter, "title:"),
      CaptureLength(frontmatter, "description:"))
  }

  // ---------------------------------------------------------------------
  // `findAIPhrases`

  /** The phrases of `phrases` occurring in `lowerContent`, in list order. */
  function PhrasesIn(lowerContent: string, phrases: seq<string>): seq<string> {
    if phrases == [] then []
    else
      PhrasesIn(lowerContent, phrases[..|phrases| - 1])
      + (if Contains(lowerContent, ToLower(phrases[|phrases| - 1])) then [phrases[|phrases| - 1]] else [])
  }

  /** The loop of `findAIPhrases` over any phrase list. */
  method FindPhrases(lowerContent: string, phrases: seq<string>) returns (found: seq<string>)
    ensures found == PhrasesIn(lowerContent, phrases)
  {
    found := [];
    var i := 0;
    while i < |phrases|
      invariant 0 <= i <= |phrases|
      invariant found == PhrasesIn(lowerContent, phrases[..i])
    {
      assert phrases[..i + 1][..i] == phrases[..i];
      if Contains(lowerContent, ToLower(phrases[i])) {
        found := found + [phrases[i]];
      }
      i := i + 1;
    }
    assert phrases[..i] == phrases;
  }

  method FindAIPhrases(content: string) returns (found: seq<string>)
    ensures found == PhrasesIn(ToLower(content), AIPhrases)
  {
    found := FindPhrases(ToLower(content), AIPhrases);
  }

  /** A phrase is reported exactly when it occurs, ignoring case. */
  lemma {:induction false} PhrasesInIff(lowerContent: string, phrases: seq<string>)
    ensures forall p :: p in PhrasesIn(lowerContent, phrases) <==> p in phrases && Contains(lowerContent, ToLower(p))
  {
    if phrases != [] {
      var init := phrases[..|phrases| - 1];
      PhrasesInIff(lowerContent, init);
      assert phrases == init + [phrases[|phrases| - 1]];
    }
  }

  /** The reports follow the order of the list. */
  lemma {:induction false} PhrasesInOrdered(lowerContent: string, phrases: seq<string>)
    ensures Subsequence(PhrasesIn(lowerContent, phrases), phrases)
  {
    if phrases != [] {
      var init, last := phrases[..|phrases| - 1], phrases[|phrases| - 1];
      PhrasesInOrdered(lowerContent, init);
      var r := PhrasesIn(lowerContent, phrases);
      var prev := PhrasesIn(lowerContent, init);
      if Contains(lowerContent, ToLower(last)) {
        assert r == prev + [last];
        assert r[..|r| - 1] == prev && r[|r| - 1] == last;
      } else {
        assert r == prev;
      }
    }
  }

  lemma AIPhrasesLower()
    ensures forall i :: 0 <= i < |AIPhrases| ==> IsLower(AIPhrases[i])
  {
  }

  /** A phrase is reported exactly when it occurs, ignoring case, and the
      reports follow the order of the list. */
  lemma AIPhrasesFound(content: string)
    ensures forall p :: p in PhrasesIn(ToLower(content), AIPhrases) <==>
      p in AIPhrases && Contains(ToLower(content), p)
    ensures Subsequence(PhrasesIn(ToLower(content), AIPhrases), AIPhrases)
  {
    PhrasesInIff(ToLower(content), AIPhrases);
    PhrasesInOrdered(ToLower(content), AIPhrases);
    AIPhrasesLower();
    forall p | p in AIPhrases ensures ToLower(p) == p {
      LowerOfLower(p);
    }
  }

  // ---------------------------------------------------------------------
  // `validateContent`

  /** The messages `validateContent` and `validateFile` produce. */
  datatype Problem =
    | MissingFrontmatter
    | ContainsEmojis
    | TooShort(words: nat)
    | TooLong(words: nat)
    | SpecialChars
    | AISounding(phrases: seq<string>)
    | TitleTooLong(chars: nat)
    | DescriptionTooLong(chars: nat)
    | MissingStatus
    | FileNotFound

  /** The text of each message. */
  function Message(p: Problem): string {
    match p
    case MissingFrontmatter => "Missing or invalid YAML frontmatter"
    case ContainsEmojis => "Contains emojis - violates brand guidelines"
    case TooShort(n) => "Content too short: " + NatToString(n) + " words (minimum: 100)"
    case TooLong(n) => "Content too long: " + NatToString(n) + " words (maximum: 2000)"
    case SpecialChars => "Contains special characters (curly quotes, em-dashes) - may look AI-generated"
    case AISounding(ps) => "Contains AI-sounding phrases: " + Join(ps, ", ")
    case TitleTooLong(n) => "Title too long: " + NatToString(n) + " chars (recommended: 60 max)"
    case DescriptionTooLong(n) => "Description too long for SEO: " + NatToString(n) + " chars (max: 155)"
    case MissingStatus => "Missing status field in frontmatter (should be draft/review/published)"
    case FileNotFound => "File not found"
  }

  datatype Validation = Validation(isValid: bool, errors: seq<Problem>, warnings: seq<Problem>)

  const MinWords: nat := 100
  const MaxWords: nat := 2000
  const MaxTitle: nat := 60
  const MaxDescription: nat := 155

  /** `if (b) list.push(p)`. */
  function Push(xs: seq<Problem>, b: bool, p: Problem): seq<Problem> {
    if b then xs + [p] else xs
  }

  /** The errors `validateContent` pushes for the given measurements, in its order. */
  function ErrorsOf(m: Metrics): seq<Problem> {
    var e1 := Push([], !m.hasFrontmatter, MissingFrontmatter);
    var e2 := Push(e1, m.hasEmojis, ContainsEmojis);
    var e3 := Push(e2, m.wordCount < MinWords, TooShort(m.wordCount));
    Push(e3, m.wordCount > MaxWords, TooLong(m.wordCount))
  }

  /** The warnings it pushes, given also the AI phrases found. */
  function WarningsOf(m: Metrics, phrases: seq<string>): seq<Problem> {
    var w1 := Push([], m.hasSpecialChars, SpecialChars);
    var w2 := Push(w1, |phrases| > 0, AISounding(phrases));
    var w3 := Push(w2, m.titleLength > MaxTitle, TitleTooLong(m.titleLength));
    var w4 := Push(w3, m.descriptionLength > MaxDescription, DescriptionTooLong(m.descriptionLength));
    Push(w4, !m.hasValidStatus, MissingStatus)
  }

  /** The outcome `validateContent` reports: `isValid` stays true unless an
      error was pushed. */
  function VerdictOf(m: Metrics, phrases: seq<string>): Validation {
    var errors := ErrorsOf(m);
    Validation(
      m.hasFrontmatter && !m.hasEmojis && MinWords <= m.wordCount <= MaxWords,
      errors,
      WarningsOf(m, phrases))
  }

  /** The outcome for a given list of suspect phrases. */
  function VerdictWith(content: string, phrases: seq<string>): Validation {
    VerdictOf(AnalyzeContent(content), PhrasesIn(ToLower(content), phrases))
  }

  function Verdict(content: string): Validation {
    VerdictWith(content, AIPhrases)
  }

  method ValidateContent(content: string) returns (result: Validation)
    ensures result == Verdict(content)
  {
    result := ValidateContentWith(content, AIPhrases);
  }

  /** The body of `validateContent`, with the phrase list as a parameter. */
  method ValidateContentWith(content: string, phrases: seq<string>) returns (result: Validation)
    ensures result == VerdictWith(content, phrases)
  {
    var isValid := true;
    var errors: seq<Problem> := [];
    var warnings: seq<Problem> := [];
    var metrics := AnalyzeContent(content);
    errors := Push(errors, !metrics.hasFrontmatter, MissingFrontmatter);
    if !metrics.hasFrontmatter {
      isValid := false;
    }
    errors := Push(errors, metrics.hasEmojis, ContainsEmojis);
    if metrics.hasEmojis {
      isValid := false;
    }
    errors := Push(errors, metrics.wordCount < MinWords, TooShort(metrics.wordCount));
    if metrics.wordCount < MinWords {
      isValid := false;
    }
    errors := Push(errors, metrics.wordCount > MaxWords, TooLong(metrics.wordCount));
    if metrics.wordCount > MaxWords {
      isValid := false;
    }
    warnings := Push(warnings, metrics.hasSpecialChars, SpecialChars);
    var aiPhrases := FindPhrases(ToLower(content), phrases);
    warnings := Push(warnings, |aiPhrases| > 0, AISounding(aiPhrases));
    warnings := Push(warnings, metrics.titleLength > MaxTitle, TitleTooLong(metrics.titleLength));
    warnings := Push(warnings, metrics.descriptionLength > MaxDescription, DescriptionTooLong(metrics.descriptionLength));
    warnings := Push(warnings, !metrics.hasValidStatus, MissingStatus);
    result := Validation(isValid, errors, warnings);
  }

  /** Each error is pushed exactly in its own case; only errors make the
      text invalid. */
  lemma ErrorsOfCases(m: Metrics)
    ensures var errors := ErrorsOf(m);
      (m.hasFrontmatter && !m.hasEmojis && MinWords <= m.wordCount <= MaxWords <==> errors == [])
      && (forall p :: p in errors ==> p.MissingFrontmatter? || p.ContainsEmojis? || p.TooShort? || p.TooLong?)
      && (MissingFrontmatter in errors <==> !m.hasFrontmatter)
      && (ContainsEmojis in errors <==> m.hasEmojis)
      && (TooShort(m.wordCount) in errors <==> m.wordCount < MinWords)
      && (TooLong(m.wordCount) in errors <==> m.wordCount > MaxWords)
      && (forall p :: p in errors && (p.TooShort? || p.TooLong?) ==> p.words == m.wordCount)
  {
  }

  /** Only the five warning kinds occur, and the phrase warning carries the
      phrases found. */
  lemma WarningsOfKinds(m: Metrics, phrases: seq<string>)
    ensures var warnings := WarningsOf(m, phrases);
      (forall p :: p in warnings ==>
            p.SpecialChars? || p.AISounding? || p.TitleTooLong? || p.DescriptionTooLong? || p.MissingStatus?)
      && ((exists p :: p in warnings && p.AISounding?) <==> phrases != [])
      && (forall p :: p in warnings && p.AISounding? ==> p.phrases == phrases)
  {
    WarningsOfMembers(m, phrases);
    if phrases != [] {
      assert AISounding(phrases) in WarningsOf(m, phrases);
    }
  }

  /** The warnings, as a set: each kind present exactly in its own case. */
  lemma WarningsOfMembers(m: Metrics, phrases: seq<string>)
    ensures forall p :: p in WarningsOf(m, phrases) <==>
      (m.hasSpecialChars && p == SpecialChars) || (phrases != [] && p == AISounding(phrases))
      || (m.titleLength > MaxTitle && p == TitleTooLong(m.titleLength))
      || (m.descriptionLength > MaxDescription && p == DescriptionTooLong(m.descriptionLength))
      || (!m.hasValidStatus && p == MissingStatus)
  {
  }

  /** Each warning is pushed exactly in its own case. */
  lemma WarningsOfCases(m: Metrics, phrases: seq<string>)
    ensures var warnings := WarningsOf(m, phrases);
      (SpecialChars in warnings <==> m.hasSpecialChars)
      && (TitleTooLong(m.titleLength) in warnings <==> m.titleLength > MaxTitle)
      && (DescriptionTooLong(m.descriptionLength) in warnings <==> m.descriptionLength > MaxDescription)
      && (MissingStatus in warnings <==> !m.hasValidStatus)
  {
  }

  /** The verdict's errors and warnings for a text, case by case. */
  lemma VerdictCases(content: string)
    ensures Verdict(content).errors == ErrorsOf(AnalyzeContent(content))
    ensures Verdict(content).warnings == WarningsOf(AnalyzeContent(content), PhrasesIn(ToLower(content), AIPhrases))
    ensures Verdict(content).isValid <==> Verdict(content).errors == []
  {
    ErrorsOfCases(AnalyzeContent(content));
  }

  /** `isValid` is false exactly when there are errors; warnings never block. */
  lemma ValidIffNoErrors(content: string)
    ensures Verdict(content).isValid <==> Verdict(content).errors == []
    ensures forall p :: p in Verdict(content).errors ==>
      p.MissingFrontmatter? || p.ContainsEmojis? || p.TooShort? || p.TooLong?
    ensures forall p :: p in Verdict(content).warnings ==>
      p.SpecialChars? || p.AISounding? || p.TitleTooLong? || p.DescriptionTooLong? || p.MissingStatus?
  {
    VerdictCases(content);
    ErrorsOfCases(AnalyzeContent(content));
    WarningsOfCases(AnalyzeContent(content), PhrasesIn(ToLower(content), AIPhrases));
    WarningsOfKinds(AnalyzeContent(content), PhrasesIn(ToLower(content), AIPhrases));
  }

  /** Each error is raised exactly in its own case. */
  lemma ErrorCases(content: string)
    ensures var v := Verdict(content); var n := WordCount(Body(content));
      (MissingFrontmatter in v.errors <==> !HasFrontmatter(content))
      && (ContainsEmojis in v.errors <==> HasEmoji(content))
      && (TooShort(n) in v.errors <==> n < MinWords)
      && (TooLong(n) in v.errors <==> n > MaxWords)
      && (forall p :: p in v.errors && (p.TooShort? || p.TooLong?) ==> p.words == n)
  {
    VerdictCases(content);
    ErrorsOfCases(AnalyzeContent(content));
    WarningsOfCases(AnalyzeContent(content), PhrasesIn(ToLower(content), AIPhrases));
    WarningsOfKinds(AnalyzeContent(content), PhrasesIn(ToLower(content), AIPhrases));
  }

  /** 100 and 2000 words raise no length error; 99 and 2001 do. */
  lemma WordCountBoundaries(content: string)
    ensures var v := Verdict(content); var n := WordCount(Body(content));
      (n == 100 || n == 2000 ==> forall p :: p in v.errors ==> !p.TooShort? && !p.TooLong?)
      && (n == 99 ==> TooShort(99) in v.errors)
      && (n == 2001 ==> TooLong(2001) in v.errors)
  {
    VerdictCases(content);
    ErrorsOfCases(AnalyzeContent(content));
    WarningsOfCases(AnalyzeContent(content), PhrasesIn(ToLower(content), AIPhrases));
    WarningsOfKinds(AnalyzeContent(content), PhrasesIn(ToLower(content), AIPhrases));
  }

  /** Each warning is raised exactly in its own case. */
  lemma WarningCases(content: string)
    ensures var v := Verdict(content); var m := AnalyzeContent(content);
      (SpecialChars in v.warnings <==> HasSpecial(content))
      && ((exists p :: p in v.warnings && p.AISounding?) <==> exists q :: q in AIPhrases && Contains(ToLower(content), q))
      && (TitleTooLong(m.titleLength) in v.warnings <==> m.titleLength > MaxTitle)
      && (DescriptionTooLong(m.descriptionLength) in v.warnings <==> m.descriptionLength > MaxDescription)
      && (MissingStatus in v.warnings <==> !HasStatus(FrontmatterText(content)))
  {
    var phrases := PhrasesIn(ToLower(content), AIPhrases);
    VerdictCases(content);
    WarningsOfCases(AnalyzeContent(content), phrases);
    WarningsOfKinds(AnalyzeContent(content), phrases);
    AIPhrasesFound(content);
    if phrases != [] {
      assert phrases[0] in phrases;
    }
  }

  // ---------------------------------------------------------------------
  // `validateFile` and `validateDirectory`

  datatype FileValidation = FileValidation(path: string, result: Validation)

  /** `validateFile`: `None` is a file that does not exist. */
  function FileVerdict(path: string, content: Option<string>): FileValidation {
    match content
    case None => FileValidation(path, Validation(false, [FileNotFound], []))
    case Some(text) => FileValidation(path, Verdict(text))
  }

  method ValidateFile(path: string, content: Option<string>) returns (r: FileValidation)
    ensures r == FileVerdict(path, content)
  {
    if content.None? {
      return FileValidation(path, Validation(false, [FileNotFound], []));
    }
    var validation := ValidateContent(content.value);
    r := FileValidation(path, validation);
  }

  predicate IsPostFile(name: string) {
    EndsWith(name, ".mdx") || EndsWith(name, ".md")
  }

  function PostFiles(names: seq<string>): (r: seq<string>)
    ensures forall n :: n in r <==> n in names && IsPostFile(n)
  {
    if names == [] then []
    else
      PostFiles(names[..|names| - 1])
      + (if IsPostFile(names[|names| - 1]) then [names[|names| - 1]] else [])
  }

  /** The results for the listed files, in order. */
  function Results(dirPath: string, dir: Dir, files: seq<string>): (r: seq<FileValidation>)
    requires forall f :: f in files ==> f in dir
    ensures |r| == |files|
  {
    ResultsBy(dirPath, dir, files, FileVerdict)
  }

  /** The results for the listed files, in order, each given by `verdict`
      from the joined path and the file's text. */
  function ResultsBy(dirPath: string, dir: Dir, files: seq<string>,
                     verdict: (string, Option<string>) -> FileValidation): (r: seq<FileValidation>)
    requires forall f :: f in files ==> f in dir
    ensures |r| == |files|
  {
    if files == [] then []
    else
      var f := files[|files| - 1];
      ResultsBy(dirPath, dir, files[..|files| - 1], verdict) + [verdict(JoinPath(dirPath, f), Some(dir[f]))]
  }

  /** Each result is the file's own verdict under its joined path. */
  lemma ResultsAt(dirPath: string, dir: Dir, files: seq<string>, i: nat)
    requires forall f :: f in files ==> f in dir
    requires i < |files|
    ensures Results(dirPath, dir, files)[i] == FileVerdict(JoinPath(dirPath, files[i]), Some(dir[files[i]]))
  {
    ResultsByAt(dirPath, dir, files, FileVerdict, i);
  }

  lemma {:induction false} ResultsByAt(dirPath: string, dir: Dir, files: seq<string>,
                                       verdict: (string, Option<string>) -> FileValidation, i: nat)
    requires forall f :: f in files ==> f in dir
    requires i < |files|
    ensures ResultsBy(dirPath, dir, files, verdict)[i] == verdict(JoinPath(dirPath, files[i]), Some(dir[files[i]]))
    decreases |files|
  {
    var init := files[..|files| - 1];
    if i < |init| {
      ResultsByAt(dirPath, dir, init, verdict, i);
      assert init[i] == files[i];
    }
  }

  /** `validateDirectory`: one result per `.md`/`.mdx` file, in listing
      order; a missing directory gives none. */
  method ValidateDirectory(dirPath: string, dir: Option<Dir>, listing: seq<string>)
    returns (results: seq<FileValidation>)
    requires dir.Some? ==> IsListing(listing, dir.value)
    ensures dir.None? ==> results == []
    ensures dir.Some? ==> results == Results(dirPath, dir.value, PostFiles(listing))
  {
    results := [];
    if dir.None? {
      return;
    }
    results := ValidateFiles(dirPath, dir.value, PostFiles(listing));
  }

  /** The loop of `validateDirectory` over the selected files. */
  method ValidateFiles(dirPath: string, dir: Dir, files: seq<string>) returns (results: seq<FileValidation>)
    requires forall f :: f in files ==> f in dir
    ensures results == Results(dirPath, dir, files)
  {
    results := [];
    var i := 0;
    while i < |files|
      invariant 0 <= i <= |files|
      invariant results == Results(dirPath, dir, files[..i])
    {
      ResultsSnoc(dirPath, dir, files, i);
      var r := ValidateFile(JoinPath(dirPath, files[i]), Some(dir[files[i]]));
      results := results + [r];
      i := i + 1;
    }
    assert files[..i] == files;
  }

  lemma ResultsSnoc(dirPath: string, dir: Dir, files: seq<string>, i: nat)
    requires i < |files| && forall f :: f in files ==> f in dir
    ensures Results(dirPath, dir, files[..i + 1])
            == Results(dirPath, dir, files[..i]) + [FileVerdict(JoinPath(dirPath, files[i]), Some(dir[files[i]]))]
  {
    ResultsBySnoc(dirPath, dir, files, FileVerdict, i);
  }

  lemma ResultsBySnoc(dirPath: string, dir: Dir, files: seq<string>,
                      verdict: (string, Option<string>) -> FileValidation, i: nat)
    requires i < |files| && forall f :: f in files ==> f in dir
    ensures ResultsBy(dirPath, dir, files[..i + 1], verdict)
            == ResultsBy(dirPath, dir, files[..i], verdict) + [verdict(JoinPath(dirPath, files[i]), Some(dir[files[i]]))]
  {
    assert files[..i + 1][..i] == files[..i];
  }

  /** Every `.md` and `.mdx` file of the directory is validated once, in
      listing order, and nothing else is. */
  lemma DirectoryCoverage(dirPath: string, dir: Dir, listing: seq<string>)
    requires IsListing(listing, dir)
    ensures var files := PostFiles(listing);
      |Results(dirPath, dir, files)| == |files|
      && (forall n :: n in files <==> n in dir && IsPostFile(n))
      && forall i :: 0 <= i < |files| ==>
        Results(dirPath, dir, files)[i] == FileVerdict(JoinPath(dirPath, files[i]), Some(dir[files[i]]))
  {
    var files := PostFiles(listing);
    forall i | 0 <= i < |files|
      ensures Results(dirPath, dir, files)[i] == FileVerdict(JoinPath(dirPath, files[i]), Some(dir[files[i]]))
    {
      ResultsAt(dirPath, dir, files, i);
    }
  }

  // ---------------------------------------------------------------------
  // `cleanContent`

  /** What the cleaner turns one character into. */
  function CleanChar(c: char): string {
    if c == LeftDoubleQuote || c == RightDoubleQuote then "\""
    else if c == LeftSingleQuote || c == RightSingleQuote then "'"
    else if c == Ellipsis then "..."
    else if c == EmDash then " - "
    else if c == EnDash || c == Bullet then "-"
    else if IsEmoji(c) then ""
    else [c]
  }

  /** The cleaned text: every character rewritten on its own. */
  function Cleaned(s: string): string {
    if s == [] then [] else CleanChar(s[0]) + Cleaned(s[1..])
  }

  /** `replace(EMOJI_PATTERN, '')`. */
  function StripEmoji(s: string): string {
    if s == [] then [] else (if IsEmoji(s[0]) then [] else [s[0]]) + StripEmoji(s[1..])
  }

  /** The replacement chain of `cleanContent`, in its order. */
  function Chain(s: string): string {
    var s1 := Subst(Subst(s, LeftDoubleQuote, "\""), RightDoubleQuote, "\"");
    var s2 := Subst(Subst(s1, LeftSingleQuote, "'"), RightSingleQuote, "'");
    var s3 := Subst(s2, Ellipsis, "...");
    var s4 := Subst(s3, EmDash, " - ");
    var s5 := Subst(Subst(s4, EnDash, "-"), Bullet, "-");
    StripEmoji(s5)
  }

  lemma {:induction false} StripEmojiAppend(a: string, b: string)
    ensures StripEmoji(a + b) == StripEmoji(a) + StripEmoji(b)
    decreases |a|
  {
    if a == [] {
      assert a + b == b;
    } else {
      assert (a + b)[0] == a[0] && (a + b)[1..] == a[1..] + b;
      StripEmojiAppend(a[1..], b);
    }
  }

  lemma ChainAppend(a: string, b: string)
    ensures Chain(a + b) == Chain(a) + Chain(b)
  {
    SubstAppend(a, b, LeftDoubleQuote, "\"");
    var a1, b1 := Subst(a, LeftDoubleQuote, "\""), Subst(b, LeftDoubleQuote, "\"");
    SubstAppend(a1, b1, RightDoubleQuote, "\"");
    var a2, b2 := Subst(a1, RightDoubleQuote, "\""), Subst(b1, RightDoubleQuote, "\"");
    SubstAppend(a2, b2, LeftSingleQuote, "'");
    var a3, b3 := Subst(a2, LeftSingleQuote, "'"), Subst(b2, LeftSingleQuote, "'");
    SubstAppend(a3, b3, RightSingleQuote, "'");
    var a4, b4 := Subst(a3, RightSingleQuote, "'"), Subst(b3, RightSingleQuote, "'");
    SubstAppend(a4, b4, Ellipsis, "...");
    var a5, b5 := Subst(a4, Ellipsis, "..."), Subst(b4, Ellipsis, "...");
    SubstAppend(a5, b5, EmDash, " - ");
    var a6, b6 := Subst(a5, EmDash, " - "), Subst(b5, EmDash, " - ");
    SubstAppend(a6, b6, EnDash, "-");
    var a7, b7 := Subst(a6, EnDash, "-"), Subst(b6, EnDash, "-");
    SubstAppend(a7, b7, Bullet, "-");
    var a8, b8 := Subst(a7, Bullet, "-"), Subst(b7, Bullet, "-");
    StripEmojiAppend(a8, b8);
  }

  /** Substituting for the one character of `[c]`. */
  lemma SubstSingle(c: char, r: string)
    ensures Subst([c], c, r) == r
  {
    assert [c][1..] == [];
  }

  /** Substituting for a character that does not occur changes nothing. */
  lemma SubstOther(c: char, x: char, r: string)
    requires c != x
    ensures Subst([c], x, r) == [c]
  {
  }

  lemma StripEmojiSingle(c: char)
    ensures StripEmoji([c]) == if IsEmoji(c) then [] else [c]
  {
    assert [c][1..] == [];
  }

  lemma ChainQuote(c: char)
    requires c == LeftDoubleQuote || c == RightDoubleQuote || c == LeftSingleQuote || c == RightSingleQuote
    ensures Chain([c]) == CleanChar(c)
  {
    SubstSingle(c, if c == LeftDoubleQuote || c == RightDoubleQuote then "\"" else "'");
  }

  lemma ChainPunctuation(c: char)
    requires c == Ellipsis || c == EmDash || c == EnDash || c == Bullet
    ensures Chain([c]) == CleanChar(c)
  {
    SubstOther(c, LeftDoubleQuote, "\"");
    SubstOther(c, RightDoubleQuote, "\"");
    SubstOther(c, LeftSingleQuote, "'");
    SubstOther(c, RightSingleQuote, "'");
    if c == Ellipsis {
      SubstSingle(c, "...");
    } else if c == EmDash {
      SubstOther(c, Ellipsis, "...");
      SubstSingle(c, " - ");
    } else {
      SubstOther(c, Ellipsis, "...");
      SubstOther(c, EmDash, " - ");
      if c == EnDash {
        SubstSingle(c, "-");
      } else {
        SubstOther(c, EnDash, "-");
        SubstSingle(c, "-");
      }
    }
  }

  lemma ChainOther(c: char)
    requires !IsSpecial(c)
    ensures Chain([c]) == CleanChar(c)
  {
    SubstOther(c, LeftDoubleQuote, "\"");
    SubstOther(c, RightDoubleQuote, "\"");
    SubstOther(c, LeftSingleQuote, "'");
    SubstOther(c, RightSingleQuote, "'");
    SubstOther(c, Ellipsis, "...");
    SubstOther(c, EmDash, " - ");
    SubstOther(c, EnDash, "-");
    SubstOther(c, Bullet, "-");
    StripEmojiSingle(c);
  }

  /** The chain rewrites a single character as the cleaner's table says. */
  lemma ChainChar(c: char)
    ensures Chain([c]) == CleanChar(c)
  {
    if c == LeftDoubleQuote || c == RightDoubleQuote || c == LeftSingleQuote || c == RightSingleQuote {
      ChainQuote(c);
    } else if c == Ellipsis || c == EmDash || c == EnDash || c == Bullet {
      ChainPunctuation(c);
    } else {
      ChainOther(c);
    }
  }

  /** The chain of replacements is the per-character rewrite. */
  lemma {:induction false} ChainIsCleaned(s: string)
    ensures Chain(s) == Cleaned(s)
    decreases |s|
  {
    if s == [] {
    } else {
      assert s == [s[0]] + s[1..];
      ChainAppend([s[0]], s[1..]);
      ChainChar(s[0]);
      ChainIsCleaned(s[1..]);
    }
  }

  method CleanContent(content: string) returns (cleaned: string)
    ensures cleaned == Cleaned(content)
  {
    cleaned := content;
    cleaned := ReplaceAll(cleaned, [LeftDoubleQuote], "\"");
    cleaned := ReplaceAll(cleaned, [RightDoubleQuote], "\"");
    cleaned := ReplaceAll(cleaned, [LeftSingleQuote], "'");
    cleaned := ReplaceAll(cleaned, [RightSingleQuote], "'");
    cleaned := ReplaceAll(cleaned, [Ellipsis], "...");
    cleaned := ReplaceAll(cleaned, [EmDash], " - ");
    cleaned := ReplaceAll(cleaned, [EnDash], "-");
    cleaned := ReplaceAll(cleaned, [Bullet], "-");
    cleaned := StripEmoji(cleaned);
    CleanChainSteps(content);
    ChainIsCleaned(content);
  }

  /** Each `replace(/c/g, r)` of the chain is the character substitution. */
  lemma CleanChainSteps(s: string)
    ensures
      var s1 := ReplaceAll(ReplaceAll(s, [LeftDoubleQuote], "\""), [RightDoubleQuote], "\"");
      var s2 := ReplaceAll(ReplaceAll(s1, [LeftSingleQuote], "'"), [RightSingleQuote], "'");
      var s3 := ReplaceAll(s2, [Ellipsis], "...");
      var s4 := ReplaceAll(s3, [EmDash], " - ");
      var s5 := ReplaceAll(ReplaceAll(s4, [EnDash], "-"), [Bullet], "-");
      StripEmoji(s5) == Chain(s)
  {
    ReplaceAllOneChar(s, LeftDoubleQuote, "\"");
    var a1 := Subst(s, LeftDoubleQuote, "\"");
    ReplaceAllOneChar(a1, RightDoubleQuote, "\"");
    var a2 := Subst(a1, RightDoubleQuote, "\"");
    ReplaceAllOneChar(a2, LeftSingleQuote, "'");
    var a3 := Subst(a2, LeftSingleQuote, "'");
    ReplaceAllOneChar(a3, RightSingleQuote, "'");
    var a4 := Subst(a3, RightSingleQuote, "'");
    ReplaceAllOneChar(a4, Ellipsis, "...");
    var a5 := Subst(a4, Ellipsis, "...");
    ReplaceAllOneChar(a5, EmDash, " - ");
    var a6 := Subst(a5, EmDash, " - ");
    ReplaceAllOneChar(a6, EnDash, "-");
    var a7 := Subst(a6, EnDash, "-");
    ReplaceAllOneChar(a7, Bullet, "-");
  }

  // ---------------------------------------------------------------------
  // Properties of the cleaner

  /** Neither an emoji-range code point nor a special glyph occurs. */
  predicate Clean(s: string) {
    forall i :: 0 <= i < |s| ==> !IsEmoji(s[i]) && !IsSpecial(s[i])
  }

  lemma {:induction false} CleanedAppend(a: string, b: string)
    ensures Cleaned(a + b) == Cleaned(a) + Cleaned(b)
    decreases |a|
  {
    if a == [] {
      assert a + b == b;
    } else {
      assert (a + b)[0] == a[0] && (a + b)[1..] == a[1..] + b;
      CleanedAppend(a[1..], b);
    }
  }

  lemma CleanAppend(a: string, b: string)
    requires Clean(a) && Clean(b)
    ensures Clean(a + b)
  {
    assert forall i :: 0 <= i < |a + b| ==> (a + b)[i] == if i < |a| then a[i] else b[i - |a|];
  }

  lemma {:induction false} CleanedIsClean(s: string)
    ensures Clean(Cleaned(s))
    decreases |s|
  {
    if s != [] {
      CleanedIsClean(s[1..]);
      assert Clean(CleanChar(s[0]));
      CleanAppend(CleanChar(s[0]), Cleaned(s[1..]));
    }
  }

  /** Clean text is left as it is. */
  lemma {:induction false} CleanedOfClean(s: string)
    requires Clean(s)
    ensures Cleaned(s) == s
    decreases |s|
  {
    if s != [] {
      assert !IsEmoji(s[0]) && !IsSpecial(s[0]);
      assert Clean(s[1..]) by {
        assert forall i :: 0 <= i < |s[1..]| ==> s[1..][i] == s[i + 1];
      }
      CleanedOfClean(s[1..]);
    }
  }

  /** Cleaning twice is cleaning once. */
  lemma CleanedIdempotent(s: string)
    ensures Cleaned(Cleaned(s)) == Cleaned(s)
  {
    CleanedIsClean(s);
    CleanedOfClean(Cleaned(s));
  }

  /** Glyph-free text raises neither the emoji error nor the
      special-character warning. */
  lemma CleanPassesGlyphChecks(t: string)
    requires Clean(t)
    ensures !HasEmoji(t) && !HasSpecial(t)
    ensures ContainsEmojis !in Verdict(t).errors
    ensures SpecialChars !in Verdict(t).warnings
  {
    VerdictCases(t);
    ErrorsOfCases(AnalyzeContent(t));
    WarningsOfCases(AnalyzeContent(t), PhrasesIn(ToLower(t), AIPhrases));
  }

  /** Cleaned text never raises the emoji error or the special-character
      warning. */
  lemma CleanedPassesGlyphChecks(s: string)
    ensures !HasEmoji(Cleaned(s)) && !HasSpecial(Cleaned(s))
    ensures ContainsEmojis !in Verdict(Cleaned(s)).errors
    ensures SpecialChars !in Verdict(Cleaned(s)).warnings
  {
    CleanedIsClean(s);
    CleanPassesGlyphChecks(Cleaned(s));
  }
}
