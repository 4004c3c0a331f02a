/** The draft review queue (`review-queue.ts`): a line-based front-matter
    reader, the status rewrite, and the approve / reject / clean actions
    over the blog directory. */
module ReviewQueue {
  import opened Wrappers
  import opened JsString
  import opened Files
  import opened Sorting
  import Validator

  // ---------------------------------------------------------------------
  // `parseFrontmatter`: `/^---\r?\n([\s\S]*?)\r?\n---/`, then line by line

  /** Where the group starts: after `---\n` or `---\r\n` at the very start. */
  function BlockStart(content: string): Option<nat> {
    if StartsWith(content, "---\n") then Some(4)
    else if StartsWith(content, "---\r\n") then Some(5)
    else None
  }

  /** `\r?\n---` matches at `k`. */
  predicate CloseAt(content: string, k: nat) {
    OccursAt(content, "\r\n---", k) || OccursAt(content, "\n---", k)
  }

  /** The lazy group ends at the first `k` from `from` where the closing
      fence matches. */
  function FirstClose(content: string, from: nat): (k: Option<nat>)
    ensures k.Some? ==> from <= k.value <= |content| && CloseAt(content, k.value)
    ensures k.Some? ==> forall j :: from <= j < k.value ==> !CloseAt(content, j)
    ensures k.None? ==> forall j :: from <= j ==> !CloseAt(content, j)
    decreases |content| - from
  {
    if from >= |content| then None
    else if CloseAt(content, from) then Some(from)
    else FirstClose(content, from + 1)
  }

  /** The text between the fences, if the pattern matches. */
  function FrontmatterBlock(content: string): Option<string> {
    match BlockStart(content)
    case None => None
    case Some(start) =>
      match FirstClose(content, start)
      case None => None
      case Some(k) => Some(content[start..k])
  }

  /** One matching pair of surrounding quotes removed (`value.slice(1, -1)`,
      which is empty for a lone quote). */
  function Unquote(v: string): string {
    if |v| >= 1 && ((v[0] == '"' && v[|v| - 1] == '"') || (v[0] == '\'' && v[|v| - 1] == '\'')) then
      if |v| >= 2 then v[1..|v| - 1] else ""
    else v
  }

  /** The key and value a line contributes: only when its first colon is
      not at index 0. */
  function FieldOf(line: string): Option<(string, string)> {
    var colonIndex := IndexOfFrom(line, ":", 0);
    if colonIndex > 0 then Some((Trim(line[..colonIndex]), Unquote(Trim(line[colonIndex + 1..]))))
    else None
  }

  /** The record the loop builds from what `field` reads off each line:
      each field in turn overwrites its key. */
  function Fields(lines: seq<string>, field: string -> Option<(string, string)>): map<string, string> {
    if lines == [] then map[]
    else
      var m := Fields(lines[..|lines| - 1], field);
      match field(lines[|lines| - 1])
      case None => m
      case Some(kv) => m[kv.0 := kv.1]
  }

  function Frontmatter(content: string): map<string, string> {
    match FrontmatterBlock(content)
    case None => map[]
    case Some(block) => Fields(Split(block, '\n'), FieldOf)
  }

  method ParseFrontmatter(content: string) returns (frontmatter: map<string, string>)
    ensures frontmatter == Frontmatter(content)
  {
    frontmatter := map[];
    var block := FrontmatterBlock(content);
    if block.None? {
      return;
    }
    frontmatter := ParseLines(Split(block.value, '\n'));
  }

  /** The loop of `parseFrontmatter` over the block's lines. */
  method ParseLines(lines: seq<string>) returns (frontmatter: map<string, string>)
    ensures frontmatter == Fields(lines, FieldOf)
  {
    frontmatter := map[];
    var i := 0;
    while i < |lines|
      invariant 0 <= i <= |lines|
      invariant frontmatter == Fields(lines[..i], FieldOf)
    {
      FieldsSnoc(lines, i, FieldOf);
      var line := lines[i];
      var colonIndex := IndexOfFrom(line, ":", 0);
      if colonIndex > 0 {
        var key := Trim(line[..colonIndex]);
        var value := Unquote(Trim(line[colonIndex + 1..]));
        frontmatter := frontmatter[key := value];
      }
      i := i + 1;
    }
    assert lines[..i] == lines;
  }

  /** One more line: its field, if any, goes on top of the rest. */
  lemma FieldsSnoc(lines: seq<string>, i: nat, field: string -> Option<(string, string)>)
    requires i < |lines|
    ensures Fields(lines[..i + 1], field) ==
      match field(lines[i]) case None => Fields(lines[..i], field) case Some(kv) => Fields(lines[..i], field)[kv.0 := kv.1]
  {
    assert lines[..i + 1][..i] == lines[..i];
  }

  // ---------------------------------------------------------------------
  // Properties of the reader

  /** The pattern matches exactly when the text opens with `---` and a line
      break and a later `\r?\n---` follows. */
  lemma BlockIff(content: string)
    ensures FrontmatterBlock(content).Some? <==>
      BlockStart(content).Some? && exists k :: BlockStart(content).value <= k && CloseAt(content, k)
  {
    if BlockStart(content).Some? {
      var k := FirstClose(content, BlockStart(content).value);
      if k.Some? {
        assert CloseAt(content, k.value);
      }
    }
  }

  /** Without the fences there are no fields. */
  lemma NoBlockNoFields(content: string)
    requires FrontmatterBlock(content).None?
    ensures Frontmatter(content) == map[]
  {
  }

  /** A line is ignored exactly when it has no colon or starts with one. */
  lemma FieldOfIgnored(line: string)
    ensures FieldOf(line).None? <==> (':' !in line || line[0] == ':')
  {
    IndexOfContains(line, ":");
    ContainsChar(line, ':');
    if |line| > 0 {
      assert line[0..1] == [line[0]];
    }
  }

  /** Quotes are taken off a value written in matching quotes. */
  lemma UnquoteQuoted(x: string)
    ensures Unquote("\"" + x + "\"") == x
    ensures Unquote("'" + x + "'") == x
  {
  }

  /** A key is present exactly when some line contributes it. */
  lemma {:induction false} FieldsKeys(lines: seq<string>, field: string -> Option<(string, string)>, k: string)
    ensures k in Fields(lines, field) <==>
      exists i :: 0 <= i < |lines| && field(lines[i]).Some? && field(lines[i]).value.0 == k
  {
    if lines != [] {
      var init := lines[..|lines| - 1];
      FieldsKeys(init, field, k);
      assert forall i :: 0 <= i < |init| ==> init[i] == lines[i];
    }
  }

  /** The value of a key is the one on the last line giving that key: a
      later duplicate overwrites an earlier one. */
  lemma {:induction false} FieldsLastWins(lines: seq<string>, field: string -> Option<(string, string)>,
                                          i: nat, k: string, v: string)
    requires i < |lines| && field(lines[i]) == Some((k, v))
    requires forall j :: i < j < |lines| ==> field(lines[j]).None? || field(lines[j]).value.0 != k
    ensures k in Fields(lines, field) && Fields(lines, field)[k] == v
    decreases |lines|
  {
    if i < |lines| - 1 {
      var init := lines[..|lines| - 1];
      assert forall j :: i < j < |init| ==> init[j] == lines[j];
      FieldsLastWins(init, field, i, k, v);
    }
  }

  // ---------------------------------------------------------------------
  // `updateStatus`

  /** The value word the status pattern accepts at `k` (in its order of
      alternatives). */
  function StatusWordAt(t: string, k: nat): Option<string> {
    if OccursAt(t, "draft", k) then Some("draft")
    else if OccursAt(t, "review", k) then Some("review")
    else if OccursAt(t, "published", k) then Some("published")
    else None
  }

  /** `\s*["']?(draft|review|published)["']?` after the white space,
      from `j`: where it ends. */
  function StatusValueEnd(t: string, j: nat): (e: Option<nat>)
    ensures e.Some? ==> j < e.value <= |t|
  {
    var k := if j < |t| && IsQuote(t[j]) then j + 1 else j;
    match StatusWordAt(t, k)
    case None => None
    case Some(w) =>
      var e := k + |w|;
      Some(if e < |t| && IsQuote(t[e]) then e + 1 else e)
  }

  /** Where `/status:\s*["']?(draft|review|published)["']?/` matching at `i`
      of the lower-cased text `t` ends. White space, quotes and the words
      share no first character, so the greedy choices are the only ones. */
  function StatusMatchEnd(t: string, i: nat): (e: Option<nat>)
    ensures e.Some? ==> i < e.value <= |t|
  {
    if !OccursAt(t, "status:", i) then None
    else StatusValueEnd(t, SkipSpaceFrom(t, i + 7))
  }

  /** The status value read from `j` ends at `e`. */
  predicate ValueEndsAt(t: string, j: nat, e: nat) {
    StatusValueEnd(t, j) == Some(e)
  }

  predicate IsQuote(c: char) {
    c == '"' || c == '\''
  }

  function SkipSpaceFrom(s: string, i: nat): (j: nat)
    requires i <= |s|
    ensures i <= j <= |s| && (j == |s| || !IsSpace(s[j]))
    ensures forall k :: i <= k < j ==> IsSpace(s[k])
    decreases |s| - i
  {
    if i < |s| && IsSpace(s[i]) then SkipSpaceFrom(s, i + 1) else i
  }

  /** The leftmost match of the status pattern at or after `from`. */
  function FirstStatusMatch(t: string, from: nat): (r: Option<(nat, nat)>)
    ensures r.Some? ==> from <= r.value.0 && StatusMatchEnd(t, r.value.0) == Some(r.value.1)
    ensures r.Some? ==> forall j :: from <= j < r.value.0 ==> StatusMatchEnd(t, j).None?
    ensures r.None? ==> forall j :: from <= j ==> StatusMatchEnd(t, j).None?
    decreases |t| - from
  {
    if from >= |t| then
      assert forall j :: from <= j ==> !OccursAt(t, "status:", j);
      None
    else
      match StatusMatchEnd(t, from)
      case Some(e) => Some((from, e))
      case None => FirstStatusMatch(t, from + 1)
  }

  // `/(date:\s*["']?[^"'\n]+["']?\r?\n)/` at a position. Greedy matching
  // with backtracking collapses as follows: after the value run
  // `[^"'\n]+` only its longest extent can be followed by the rest, so
  // the only real backtracking is into the leading `\s*`.

  /** `\r?\n` at `k`: where it ends. */
  function LineEnd(s: string, k: nat): Option<nat> {
    if k + 1 < |s| && s[k] == '\r' && s[k + 1] == '\n' then Some(k + 2)
    else if k < |s| && s[k] == '\n' then Some(k + 1)
    else None
  }

  /** The end of the run of characters other than quotes and `\n` from `a`. */
  function ValueRunEnd(s: string, a: nat): (m: nat)
    requires a <= |s|
    ensures a <= m <= |s| && (m == |s| || IsQuote(s[m]) || s[m] == '\n')
    ensures forall k :: a <= k < m ==> !IsQuote(s[k]) && s[k] != '\n'
    decreases |s| - a
  {
    if a < |s| && !IsQuote(s[a]) && s[a] != '\n' then ValueRunEnd(s, a + 1) else a
  }

  /** `[^"'\n]+["']?\r?\n` from `a`. */
  function ValueFrom(s: string, a: nat): Option<nat>
    requires a <= |s|
  {
    var m := ValueRunEnd(s, a);
    if m == a then None
    else if m < |s| && IsQuote(s[m]) then LineEnd(s, m + 1)
    else LineEnd(s, m)
  }

  /** `["']?[^"'\n]+["']?\r?\n` from `j`. */
  function AfterSpace(s: string, j: nat): Option<nat>
    requires j <= |s|
  {
    if j < |s| && IsQuote(s[j]) then ValueFrom(s, j + 1) else ValueFrom(s, j)
  }

  /** The `\s*` tried from its longest extent `j` back down to `p`. */
  function TrySpace(s: string, p: nat, j: nat): Option<nat>
    requires p <= j <= |s|
    decreases j - p
  {
    match AfterSpace(s, j)
    case Some(e) => Some(e)
    case None => if j == p then None else TrySpace(s, p, j - 1)
  }

  /** Where the date pattern matching at `i` ends. */
  function DateMatchEnd(s: string, i: nat): Option<nat> {
    if !OccursAt(s, "date:", i) then None
    else TrySpace(s, i + 5, SkipSpaceFrom(s, i + 5))
  }

  /** The leftmost match of the date pattern at or after `from`. */
  function FirstDateMatch(s: string, from: nat): (r: Option<nat>)
    ensures r.Some? ==> r.value <= |s|
    decreases |s| - from
  {
    if from >= |s| then None
    else
      match DateMatchEnd(s, from)
      case Some(e) => assert e <= |s| by { DateMatchEndBound(s, from); } Some(e)
      case None => FirstDateMatch(s, from + 1)
  }

  lemma DateMatchEndBound(s: string, i: nat)
    ensures DateMatchEnd(s, i).Some? ==> DateMatchEnd(s, i).value <= |s|
  {
    if OccursAt(s, "date:", i) {
      TrySpaceBound(s, i + 5, SkipSpaceFrom(s, i + 5));
    }
  }

  lemma {:induction false} TrySpaceBound(s: string, p: nat, j: nat)
    requires p <= j <= |s|
    ensures TrySpace(s, p, j).Some? ==> TrySpace(s, p, j).value <= |s|
    decreases j - p
  {
    if AfterSpace(s, j).None? && j != p {
      TrySpaceBound(s, p, j - 1);
    }
  }

  /** The status line written for `newStatus`. */
  function StatusField(newStatus: string): string {
    "status: \"" + newStatus + "\""
  }

  /** `updateStatus` on the file's text: a status value is rewritten in
      place; without any `status:` text, a status line goes after the first
      date line; otherwise the text stays as it is. */
  function UpdateStatus(content: string, newStatus: string): string {
    if Contains(content, "status:") then
      match FirstStatusMatch(ToLower(content), 0)
      case None => content
      case Some(m) => content[..m.0] + StatusField(newStatus) + content[m.1..]
    else
      match FirstDateMatch(content, 0)
      case None => content
      case Some(e) => content[..e] + StatusField(newStatus) + "\n" + content[e..]
  }

  // ---------------------------------------------------------------------
  // Properties of the status rewrite

  lemma {:induction false} SkipSpaceOver(s: string, i: nat, n: nat)
    requires i + n <= |s| && (forall k :: i <= k < i + n ==> IsSpace(s[k]))
    requires i + n == |s| || !IsSpace(s[i + n])
    ensures SkipSpaceFrom(s, i) == i + n
    decreases n
  {
    if n > 0 {
      SkipSpaceOver(s, i + 1, n - 1);
    }
  }

  /** No `status:` starts before index `n` when none lies wholly before
      `n` and `status:` starts at `n`: one overlapping `n` would need a
      colon inside the key at `n`, whose only colon comes last. */
  lemma NoStatusBefore(t: string, n: nat, j: nat)
    requires OccursAt(t, "status:", n) && j < n
    requires j + 7 <= n ==> !OccursAt(t, "status:", j)
    ensures StatusMatchEnd(t, j).None?
  {
    if n < j + 7 {
      OccursAtChar(t, "status:", n, j + 6 - n);
      NotOccursAt(t, "status:", j, 6);
    }
  }

  /** No occurrence of `p` lies wholly inside the first `n` characters of `t`. */
  predicate KeyFreeBefore(t: string, p: string, n: nat) {
    forall j :: 0 <= j && j + |p| <= n ==> !OccursAt(t, p, j)
  }

  lemma NoStatusInPrefix(t: string, n: nat)
    requires OccursAt(t, "status:", n)
    requires KeyFreeBefore(t, "status:", n)
    ensures forall j :: 0 <= j < n ==> StatusMatchEnd(t, j).None?
  {
    forall j | 0 <= j < n ensures StatusMatchEnd(t, j).None? {
      NoStatusBefore(t, n, j);
    }
  }

  /** A status line: the key, white space, and a status word in optional quotes. */
  function StatusLine(sp: string, q: string, w: string): string {
    "status:" + sp + q + w + q
  }

  /** The three values the status pattern accepts. */
  predicate IsStatusWord(w: string) {
    w == "draft" || w == "review" || w == "published"
  }

  /** An optional quote: nothing, `"` or `'`. */
  predicate OptQuote(q: string) {
    q == [] || (|q| == 1 && IsQuote(q[0]))
  }

  lemma WordAt(t: string, k: nat, w: string)
    requires IsStatusWord(w) && OccursAt(t, w, k)
    ensures StatusWordAt(t, k) == Some(w)
  {
    if w == "review" {
      assert t[k] == 'r';
      assert !OccursAt(t, "draft", k) by { assert k + 5 > |t| || t[k..k + 5][0] != "draft"[0]; }
    } else if w == "published" {
      assert t[k] == 'p';
      assert !OccursAt(t, "draft", k) by { assert k + 5 > |t| || t[k..k + 5][0] != "draft"[0]; }
      assert !OccursAt(t, "review", k) by { assert k + 6 > |t| || t[k..k + 6][0] != "review"[0]; }
    }
  }

  /** `t` holds the status line `StatusLine(sp, q, w)` at `n`. */
  predicate LineAt(t: string, n: nat, sp: string, q: string, w: string) {
    n + |StatusLine(sp, q, w)| <= |t| &&
    forall k :: 0 <= k < |StatusLine(sp, q, w)| ==> t[n + k] == StatusLine(sp, q, w)[k]
  }

  lemma LineKey(t: string, n: nat, sp: string, q: string, w: string)
    requires LineAt(t, n, sp, q, w)
    ensures OccursAt(t, "status:", n)
  {
    var line := StatusLine(sp, q, w);
    forall i | 0 <= i < 7 ensures t[n + i] == "status:"[i] {
      assert t[n + i] == line[i];
    }
    OccursAtChars(t, "status:", n);
  }

  lemma LineSpace(t: string, n: nat, sp: string, q: string, w: string)
    requires AllSpace(sp) && OptQuote(q) && IsStatusWord(w) && LineAt(t, n, sp, q, w)
    ensures SkipSpaceFrom(t, n + 7) == n + 7 + |sp|
  {
    var line := StatusLine(sp, q, w);
    var a := n + 7;
    var b := a + |sp|;
    forall i | a <= i < b ensures IsSpace(t[i]) {
      assert t[i] == line[i - n] == sp[i - a];
    }
    assert t[b] == line[7 + |sp|] == (if q == [] then w[0] else q[0]);
    assert !IsSpace(w[0]);
    SkipSpaceOver(t, a, |sp|);
  }

  lemma LineValue(t: string, n: nat, sp: string, q: string, w: string)
    requires OptQuote(q) && IsStatusWord(w) && LineAt(t, n, sp, q, w)
    requires q != [] || n + |StatusLine(sp, q, w)| == |t| || !IsQuote(t[n + |StatusLine(sp, q, w)|])
    ensures StatusValueEnd(t, n + 7 + |sp|) == Some(n + |StatusLine(sp, q, w)|)
  {
    var line := StatusLine(sp, q, w);
    var b := n + 7 + |sp|;
    var k := b + |q|;
    var e := k + |w|;
    assert |line| == 7 + |sp| + |q| + |w| + |q|;
    assert t[b] == line[7 + |sp|] == (if q == [] then w[0] else q[0]);
    assert OccursAt(t, w, k) by {
      forall i | 0 <= i < |w| ensures t[k + i] == w[i] {
        assert t[k + i] == line[7 + |sp| + |q| + i];
      }
      OccursAtChars(t, w, k);
    }
    WordAt(t, k, w);
    if q != [] {
      assert t[e] == line[7 + |sp| + |q| + |w|] == q[0];
    }
    StatusValueParts(t, b, q, w);
  }

  /** The pieces of the status pattern on a status line at `n` of a
      lower-cased text: the key, the white space up to `n + 7 + |sp|`, and
      the value up to the end of the line. */
  lemma LineParts(t: string, n: nat, sp: string, q: string, w: string)
    requires AllSpace(sp) && OptQuote(q) && IsStatusWord(w) && LineAt(t, n, sp, q, w)
    requires q != [] || n + |StatusLine(sp, q, w)| == |t| || !IsQuote(t[n + |StatusLine(sp, q, w)|])
    ensures OccursAt(t, "status:", n) && SkipSpaceFrom(t, n + 7) == n + 7 + |sp|
    ensures ValueEndsAt(t, n + 7 + |sp|, n + |StatusLine(sp, q, w)|)
  {
    LineKey(t, n, sp, q, w);
    LineSpace(t, n, sp, q, w);
    LineValue(t, n, sp, q, w);
  }

  /** The leftmost status match, from its pieces, when no `status:` lies
      wholly before `n`. */
  lemma FirstMatchOfParts(t: string, n: nat, b: nat, e: nat)
    requires OccursAt(t, "status:", n) && n + 7 <= |t| && SkipSpaceFrom(t, n + 7) == b
    requires ValueEndsAt(t, b, e)
    requires KeyFreeBefore(t, "status:", n)
    ensures FirstStatusMatch(t, 0) == Some((n, e))
  {
    assert StatusMatchEnd(t, n) == Some(e);
    NoStatusInPrefix(t, n);
    FirstMatchIs(t, n, e);
  }

  /** The leftmost match is the one at `n` when none starts before it. */
  lemma FirstMatchIs(t: string, n: nat, e: nat)
    requires StatusMatchEnd(t, n) == Some(e)
    requires forall j :: 0 <= j < n ==> StatusMatchEnd(t, j).None?
    ensures FirstStatusMatch(t, 0) == Some((n, e))
  {
    var r := FirstStatusMatch(t, 0);
    assert r.Some?;
  }

  /** The value pieces at `b`: the optional quote `q`, the word `w` and
      the same quote again (or, without quotes, no quote after the word). */
  lemma StatusValueParts(t: string, b: nat, q: string, w: string)
    requires OptQuote(q) && b + |q| <= |t| && (q != [] ==> t[b] == q[0])
    requires q == [] && b < |t| ==> !IsQuote(t[b])
    requires StatusWordAt(t, b + |q|) == Some(w)
    requires b + |q| + |w| + |q| <= |t|
    requires q != [] ==> t[b + |q| + |w|] == q[0]
    requires q == [] && b + |w| < |t| ==> !IsQuote(t[b + |w|])
    ensures StatusValueEnd(t, b) == Some(b + |q| + |w| + |q|)
  {
  }

  /** `t` holds the status line at `n`, not followed by a stray quote when
      unquoted, and no `status:` in any case comes before it. */
  predicate LineSetting(t: string, n: nat, sp: string, q: string, w: string) {
    LineAt(t, n, sp, q, w)
    && (q != [] || n + |StatusLine(sp, q, w)| == |t| || !IsQuote(t[n + |StatusLine(sp, q, w)|]))
    && !Contains(ToLower(t[..n]), "status:")
  }

  /** A status line after a prefix without the key, as the matcher sees it. */
  lemma LineInText(pre: string, sp: string, q: string, w: string, post: string)
    requires !Contains(ToLower(pre), "status:")
    requires q != [] || post == [] || !IsQuote(post[0])
    ensures LineSetting(pre + StatusLine(sp, q, w) + post, |pre|, sp, q, w)
  {
    var line := StatusLine(sp, q, w);
    var t := pre + line + post;
    var n := |pre|;
    assert forall i :: n <= i < n + |line| ==> t[i] == line[i - n];
    if n + |line| < |t| {
      assert t[n + |line|] == post[0];
    }
    assert t[..n] == pre;
  }

  /** No key lies wholly inside the first `n` characters of the lowered
      text when the lowered prefix does not contain it. */
  lemma NoKeyInLoweredPrefix(t: string, n: nat, p: string)
    requires n <= |t| && !Contains(ToLower(t[..n]), p)
    ensures KeyFreeBefore(ToLower(t), p, n)
  {
    forall j | 0 <= j && j + |p| <= n ensures !OccursAt(ToLower(t), p, j) {
      assert ToLower(t[..n])[j..j + |p|] == ToLower(t)[j..j + |p|];
      assert !OccursAt(ToLower(t[..n]), p, j);
    }
  }

  /** The status line has no capital letters. */
  lemma StatusLineIsLower(sp: string, q: string, w: string)
    requires AllSpace(sp) && OptQuote(q) && IsStatusWord(w)
    ensures IsLower(StatusLine(sp, q, w))
  {
    assert IsLower(sp) by {
      forall i | 0 <= i < |sp| ensures !IsUpper(sp[i]) {
        assert IsSpace(sp[i]);
      }
    }
    IsLowerAppend("status:", sp);
    IsLowerAppend("status:" + sp, q);
    IsLowerAppend("status:" + sp + q, w);
    IsLowerAppend("status:" + sp + q + w, q);
  }

  /** Lower-casing keeps a lower-case status line where it is. */
  lemma LowerKeepsLine(t: string, n: nat, sp: string, q: string, w: string)
    requires LineAt(t, n, sp, q, w) && IsLower(StatusLine(sp, q, w))
    ensures LineAt(ToLower(t), n, sp, q, w)
  {
  }

  /** Lower-casing keeps a character from being a quote. */
  lemma LowerKeepsQuoteFree(t: string, e: nat)
    requires e < |t| && !IsQuote(t[e])
    ensures !IsQuote(ToLower(t)[e])
  {
    LowerKeepsPunctuation(t[e]);
  }

  /** The lowered text holds the key, the white space and the value of the
      status line at `n`. */
  lemma LoweredParts(t: string, n: nat, sp: string, q: string, w: string)
    requires AllSpace(sp) && OptQuote(q) && IsStatusWord(w) && LineSetting(t, n, sp, q, w)
    ensures n + 7 <= |t| && OccursAt(ToLower(t), "status:", n) && SkipSpaceFrom(ToLower(t), n + 7) == n + 7 + |sp|
    ensures ValueEndsAt(ToLower(t), n + 7 + |sp|, n + |StatusLine(sp, q, w)|)
  {
    var e := n + |StatusLine(sp, q, w)|;
    StatusLineIsLower(sp, q, w);
    LowerKeepsLine(t, n, sp, q, w);
    if q == [] && e < |t| {
      LowerKeepsQuoteFree(t, e);
    }
    LineParts(ToLower(t), n, sp, q, w);
  }

  /** The status line at `n`, with its white space ending at `b` and its
      value at `e`, as the matcher sees it: the key in the text, and the
      key, white space and value in the lowered text. */
  lemma LineSettingParts(t: string, n: nat, sp: string, q: string, w: string, b: nat, e: nat)
    requires AllSpace(sp) && OptQuote(q) && IsStatusWord(w) && LineSetting(t, n, sp, q, w)
    requires b == n + 7 + |sp| && e == n + |StatusLine(sp, q, w)|
    ensures OccursAt(t, "status:", n) && n + 7 <= |t| && OccursAt(ToLower(t), "status:", n)
    ensures SkipSpaceFrom(ToLower(t), n + 7) == b && ValueEndsAt(ToLower(t), b, e)
    ensures !Contains(ToLower(t[..n]), "status:")
  {
    LoweredParts(t, n, sp, q, w);
    LineKey(t, n, sp, q, w);
  }

  /** The same parts for a status line that follows a prefix without the
      key. */
  lemma TextParts(pre: string, sp: string, q: string, w: string, post: string, t: string, n: nat, b: nat, e: nat)
    requires !Contains(ToLower(pre), "status:") && AllSpace(sp) && OptQuote(q) && IsStatusWord(w)
    requires q != [] || post == [] || !IsQuote(post[0])
    requires t == pre + StatusLine(sp, q, w) + post && n == |pre|
    requires b == n + 7 + |sp| && e == n + |StatusLine(sp, q, w)|
    ensures OccursAt(t, "status:", n) && n + 7 <= |t| && OccursAt(ToLower(t), "status:", n)
    ensures SkipSpaceFrom(ToLower(t), n + 7) == b && ValueEndsAt(ToLower(t), b, e)
    ensures !Contains(ToLower(t[..n]), "status:")
  {
    LineInText(pre, sp, q, w, post);
    LineSettingParts(t, n, sp, q, w, b, e);
  }

  /** The key at `n`, white space up to `b` and a value ending at `e` in
      the lowered text, with no key in the prefix: `updateStatus` replaces
      the span from `n` to `e`. */
  lemma RewriteAtParts(t: string, n: nat, b: nat, e: nat, newStatus: string)
    requires OccursAt(t, "status:", n) && OccursAt(ToLower(t), "status:", n)
    requires n + 7 <= |t| && SkipSpaceFrom(ToLower(t), n + 7) == b && ValueEndsAt(ToLower(t), b, e)
    requires !Contains(ToLower(t[..n]), "status:")
    ensures UpdateStatus(t, newStatus) == t[..n] + StatusField(newStatus) + t[e..]
  {
    NoKeyInLoweredPrefix(t, n, "status:");
    FirstMatchOfParts(ToLower(t), n, b, e);
    RewriteAtMatch(t, n, e, newStatus);
  }

  /** With the key at `n` and the leftmost lowered match from `n` to `e`,
      `updateStatus` replaces exactly that span. */
  lemma RewriteAtMatch(t: string, n: nat, e: nat, newStatus: string)
    requires OccursAt(t, "status:", n) && FirstStatusMatch(ToLower(t), 0) == Some((n, e))
    ensures UpdateStatus(t, newStatus) == t[..n] + StatusField(newStatus) + t[e..]
  {
    assert Contains(t, "status:");
  }

  /** A status line `status:` + white space + an optionally quoted status
      word, after a prefix that holds no `status:` in any case, is
      rewritten to `status: "<new>"` and nothing else changes. */
  lemma StatusLineRewritten(pre: string, sp: string, q: string, w: string, post: string, newStatus: string)
    requires !Contains(ToLower(pre), "status:") && AllSpace(sp) && OptQuote(q) && IsStatusWord(w)
    requires q != [] || post == [] || !IsQuote(post[0])
    ensures UpdateStatus(pre + StatusLine(sp, q, w) + post, newStatus) == pre + StatusField(newStatus) + post
  {
    var line := StatusLine(sp, q, w);
    var t := pre + line + post;
    assert UpdateStatus(t, newStatus) == t[..|pre|] + StatusField(newStatus) + t[|pre| + |line|..] by {
      var n, b, e := |pre|, |pre| + 7 + |sp|, |pre| + |line|;
      TextParts(pre, sp, q, w, post, t, n, b, e);
      RewriteAtParts(t, n, b, e, newStatus);
    }
    SplitThree(pre, line, post);
  }

  lemma SplitThree(a: string, b: string, c: string)
    ensures (a + b + c)[..|a|] == a && (a + b + c)[|a| + |b|..] == c
  {
    assert (a + b + c)[..|a|] == a;
    assert (a + b + c)[|a| + |b|..] == c;
  }

  /** Rewriting a status line `status: "<w>"` to `w` itself (approving a
      post already marked published, say) leaves the text as it is. */
  lemma RewriteToSameStatus(pre: string, w: string, post: string)
    requires !Contains(ToLower(pre), "status:") && IsStatusWord(w)
    ensures UpdateStatus(pre + StatusField(w) + post, w) == pre + StatusField(w) + post
  {
    StatusLineRewritten(pre, " ", "\"", w, post, w);
    assert StatusLine(" ", "\"", w) == StatusField(w);
  }

  lemma {:induction false} ValueRunOver(s: string, a: nat, n: nat)
    requires a + n <= |s| && (forall k :: a <= k < a + n ==> !IsQuote(s[k]) && s[k] != '\n')
    requires a + n == |s| || IsQuote(s[a + n]) || s[a + n] == '\n'
    ensures ValueRunEnd(s, a) == a + n
    decreases n
  {
    if n > 0 {
      ValueRunOver(s, a + 1, n - 1);
    }
  }

  /** A date line with an unquoted value. */
  function DateLine(d: string): string {
    "date: " + d + "\n"
  }

  /** A value the date pattern reads whole: not empty, not starting with
      white space, without quotes or line feeds. */
  predicate PlainDate(d: string) {
    d != [] && !IsSpace(d[0]) && forall i :: 0 <= i < |d| ==> !IsQuote(d[i]) && d[i] != '\n'
  }

  /** `s` holds `DateLine(d)` at `n`. */
  predicate DateLineAt(s: string, n: nat, d: string) {
    n + |DateLine(d)| <= |s| &&
    forall i :: n <= i < n + |DateLine(d)| ==> s[i] == DateLine(d)[i - n]
  }

  /** No `date:` starts before index `n` when none lies wholly before `n`
      and `date:` starts at `n`: the key's only colon comes last. */
  lemma NoDateBefore(s: string, n: nat, j: nat)
    requires OccursAt(s, "date:", n) && j < n
    requires j + 5 <= n ==> !OccursAt(s, "date:", j)
    ensures DateMatchEnd(s, j).None?
  {
    if n < j + 5 {
      OccursAtChar(s, "date:", n, j + 4 - n);
      NotOccursAt(s, "date:", j, 4);
    }
  }

  lemma DateValue(s: string, n: nat, d: string)
    requires PlainDate(d) && DateLineAt(s, n, d)
    ensures TrySpace(s, n + 5, n + 6) == Some(n + |DateLine(d)|)
  {
    var line := DateLine(d);
    var a := n + 6;
    var m := a + |d|;
    assert s[a] == line[6] == d[0];
    forall i | a <= i < m ensures !IsQuote(s[i]) && s[i] != '\n' {
      assert s[i] == line[i - n] == d[i - a];
    }
    assert s[m] == line[6 + |d|] == '\n';
    ValueRunOver(s, a, |d|);
    assert LineEnd(s, m) == Some(m + 1);
  }

  lemma DateMatchOfLine(s: string, n: nat, d: string)
    requires PlainDate(d) && DateLineAt(s, n, d)
    ensures OccursAt(s, "date:", n)
    ensures DateMatchEnd(s, n) == Some(n + |DateLine(d)|)
  {
    var line := DateLine(d);
    forall i | 0 <= i < 5 ensures s[n + i] == "date:"[i] {
      assert s[n + i] == line[i];
    }
    OccursAtChars(s, "date:", n);
    assert IsSpace(s[n + 5]) by {
      assert s[n + 5] == line[5];
    }
    assert s[n + 6] == line[6] == d[0];
    SkipSpaceOver(s, n + 5, 1);
    DateValue(s, n, d);
  }

  lemma FirstDateMatchAtLine(s: string, n: nat, d: string)
    requires PlainDate(d) && DateLineAt(s, n, d)
    requires KeyFreeBefore(s, "date:", n)
    ensures FirstDateMatch(s, 0) == Some(n + |DateLine(d)|)
  {
    DateMatchOfLine(s, n, d);
    forall j | 0 <= j < n ensures DateMatchEnd(s, j).None? {
      NoDateBefore(s, n, j);
    }
    FirstDateMatchAt(s, 0, n, n + |DateLine(d)|);
  }

  /** Without any `status:` text, a status line is inserted right after the
      first date line, here a plain `date:` line after a prefix without
      `date:`. */
  lemma StatusInsertedAfterDate(pre: string, d: string, post: string, newStatus: string)
    requires !Contains(pre, "date:") && PlainDate(d)
    requires !Contains(pre + DateLine(d) + post, "status:")
    ensures UpdateStatus(pre + DateLine(d) + post, newStatus)
      == pre + DateLine(d) + StatusField(newStatus) + "\n" + post
  {
    var line := DateLine(d);
    var c := pre + line + post;
    var n := |pre|;
    assert DateLineAt(c, n, d) by {
      assert forall i :: n <= i < n + |line| ==> c[i] == line[i - n];
    }
    assert KeyFreeBefore(c, "date:", n) by {
      forall j | 0 <= j && j + 5 <= n ensures !OccursAt(c, "date:", j) {
        assert c[j..j + 5] == pre[j..j + 5];
        assert !OccursAt(pre, "date:", j);
      }
    }
    FirstDateMatchAtLine(c, n, d);
    assert c[..n + |line|] == pre + line && c[n + |line|..] == post;
  }

  lemma {:induction false} FirstDateMatchAt(s: string, from: nat, i: nat, e: nat)
    requires from <= i && DateMatchEnd(s, i) == Some(e)
    requires forall j :: from <= j < i ==> DateMatchEnd(s, j).None?
    ensures FirstDateMatch(s, from) == Some(e)
    decreases i - from
  {
    if from < i {
      FirstDateMatchAt(s, from + 1, i, e);
    }
  }

  /** The rewrite only rearranges pieces of the text and the status line,
      so glyph-free text with a glyph-free status stays glyph-free. */
  lemma UpdateStatusKeepsClean(content: string, newStatus: string)
    requires Validator.Clean(content) && Validator.Clean(newStatus)
    ensures Validator.Clean(UpdateStatus(content, newStatus))
  {
    var r := UpdateStatus(content, newStatus);
    assert Validator.Clean(StatusField(newStatus)) by {
      Validator.CleanAppend("status: \"", newStatus);
      Validator.CleanAppend("status: \"" + newStatus, "\"");
    }
    if Contains(content, "status:") {
      var m := FirstStatusMatch(ToLower(content), 0);
      if m.Some? {
        assert Validator.Clean(content[..m.value.0]) && Validator.Clean(content[m.value.1..]);
        Validator.CleanAppend(content[..m.value.0], StatusField(newStatus));
        Validator.CleanAppend(content[..m.value.0] + StatusField(newStatus), content[m.value.1..]);
      }
    } else {
      var e := FirstDateMatch(content, 0);
      if e.Some? {
        assert Validator.Clean(content[..e.value]) && Validator.Clean(content[e.value..]);
        Validator.CleanAppend(content[..e.value], StatusField(newStatus));
        Validator.CleanAppend(content[..e.value] + StatusField(newStatus), "\n");
        Validator.CleanAppend(content[..e.value] + StatusField(newStatus) + "\n", content[e.value..]);
      }
    }
  }

  // ---------------------------------------------------------------------
  // `getDrafts`

  /** A listed draft. Validation messages are kept as `Validator.Problem`
      values; `Validator.Message` gives their text. */
  datatype DraftPost = DraftPost(
    slug: string,
    title: string,
    date: string,
    category: string,
    status: string,
    filePath: string,
    validationErrors: seq<Validator.Problem>,
    validationWarnings: seq<Validator.Problem>)

  /** `frontmatter[key] as string || fallback`: a missing or empty value
      gives the fallback. */
  function OrDefault(fm: map<string, string>, key: string, fallback: string): (v: string)
    ensures key in fm && fm[key] != [] ==> v == fm[key]
    ensures key !in fm || fm[key] == [] ==> v == fallback
  {
    if key in fm && fm[key] != [] then fm[key] else fallback
  }

  /** The lower-cased status of a post, `draft` when it has none. */
  function StatusOf(fm: map<string, string>): string {
    ToLower(OrDefault(fm, "status", "draft"))
  }

  /** `file.replace('.mdx', '')`: the first `.mdx` taken out. */
  function SlugOf(file: string): string {
    ReplaceFirst(file, ".mdx", "")
  }

  /** The entry `getDrafts` makes for one file, unless it is published. */
  function DraftOf(dirPath: string, file: string, content: string): Option<DraftPost> {
    var fm := Frontmatter(content);
    var status := StatusOf(fm);
    if status == "published" then None
    else
      var filePath := JoinPath(dirPath, file);
      var v := Validator.FileVerdict(filePath, Some(content)).result;
      Some(DraftPost(SlugOf(file), OrDefault(fm, "title", "Untitled"), OrDefault(fm, "date", ""),
                     OrDefault(fm, "category", "Uncategorized"), status, filePath, v.errors, v.warnings))
  }

  /** `readdirSync(...).filter(f => f.endsWith('.mdx'))`, in listing order. */
  function MdxFiles(names: seq<string>): (r: seq<string>)
    ensures forall n :: n in r <==> n in names && EndsWith(n, ".mdx")
  {
    if names == [] then []
    else
      MdxFiles(names[..|names| - 1])
      + (if EndsWith(names[|names| - 1], ".mdx") then [names[|names| - 1]] else [])
  }

  /** The entries for `files`, in order, before sorting. */
  function DraftsIn(dirPath: string, dir: Dir, files: seq<string>): seq<DraftPost>
    requires forall f :: f in files ==> f in dir
  {
    if files == [] then []
    else
      var f := files[|files| - 1];
      DraftsIn(dirPath, dir, files[..|files| - 1])
      + match DraftOf(dirPath, f, dir[f]) case None => [] case Some(d) => [d]
  }

  /** The loop of `getDrafts()` over the `.mdx` files, before sorting. */
  method CollectDrafts(dirPath: string, dir: Dir, files: seq<string>) returns (drafts: seq<DraftPost>)
    requires forall f :: f in files ==> f in dir
    ensures drafts == DraftsIn(dirPath, dir, files)
  {
    drafts := [];
    var i := 0;
    while i < |files|
      invariant 0 <= i <= |files|
      invariant drafts == DraftsIn(dirPath, dir, files[..i])
    {
      DraftsInSnoc(dirPath, dir, files, i);
      var file := files[i];
      var filePath := JoinPath(dirPath, file);
      var content := dir[file];
      var frontmatter := ParseFrontmatter(content);
      var status := ToLower(OrDefault(frontmatter, "status", "draft"));
      if status != "published" {
        var validation := Validator.ValidateFile(filePath, Some(content));
        drafts := drafts + [DraftPost(SlugOf(file), OrDefault(frontmatter, "title", "Untitled"),
                                      OrDefault(frontmatter, "date", ""),
                                      OrDefault(frontmatter, "category", "Uncategorized"), status, filePath,
                                      validation.result.errors, validation.result.warnings)];
      }
      i := i + 1;
    }
    assert files[..i] == files;
  }

  lemma DraftsInSnoc(dirPath: string, dir: Dir, files: seq<string>, i: nat)
    requires i < |files| && forall f :: f in files ==> f in dir
    ensures DraftsIn(dirPath, dir, files[..i + 1]) == DraftsIn(dirPath, dir, files[..i])
      + match DraftOf(dirPath, files[i], dir[files[i]]) case None => [] case Some(d) => [d]
  {
    assert files[..i + 1][..i] == files[..i];
  }

  /** The sort key: `new Date(date).getTime()`, given as `timeOf`. */
  function ByDate(timeOf: string -> int): DraftPost -> int {
    (d: DraftPost) => timeOf(d.date)
  }

  /** `getDrafts()`: the unpublished posts, newest first. */
  function Drafts(dirPath: string, dir: Dir, listing: seq<string>, timeOf: string -> int): seq<DraftPost>
    requires forall f :: f in listing ==> f in dir
  {
    SortDesc(DraftsIn(dirPath, dir, MdxFiles(listing)), ByDate(timeOf))
  }

  // ---------------------------------------------------------------------
  // Properties of the listing

  /** A post is left out exactly when its status reads `published` in any
      case; what is listed carries the file's name, path and verdict. */
  lemma DraftOfCases(dirPath: string, file: string, content: string)
    ensures DraftOf(dirPath, file, content).None? <==> StatusOf(Frontmatter(content)) == "published"
    ensures DraftOf(dirPath, file, content).Some? ==>
      var d := DraftOf(dirPath, file, content).value;
      d.status == StatusOf(Frontmatter(content)) && d.status != "published"
      && d.slug == SlugOf(file) && d.filePath == JoinPath(dirPath, file)
      && d.validationErrors == Validator.Verdict(content).errors
      && d.validationWarnings == Validator.Verdict(content).warnings
  {
  }

  /** A post without front matter is listed as an untitled,
      uncategorised draft. */
  lemma DraftDefaults(dirPath: string, file: string, content: string)
    requires FrontmatterBlock(content).None?
    ensures DraftOf(dirPath, file, content).Some?
    ensures var d := DraftOf(dirPath, file, content).value;
      d.title == "Untitled" && d.date == "" && d.category == "Uncategorized" && d.status == "draft"
  {
    assert Frontmatter(content) == map[];
    assert ToLower("draft") == "draft";
  }

  /** For a file named `<base>.mdx` where `base` has no `.mdx` of its own,
      the slug is `base`, so the review actions reach the same file. */
  lemma SlugOfDraftFile(base: string)
    requires !Contains(base, ".mdx")
    ensures SlugOf(base + ".mdx") == base
    ensures SlugOf(base + ".mdx") + ".mdx" == base + ".mdx"
  {
    var f := base + ".mdx";
    var n := |base|;
    assert OccursAt(f, ".mdx", n) by {
      assert f[n..n + 4] == ".mdx";
    }
    forall j | 0 <= j < n ensures !OccursAt(f, ".mdx", j) {
      if j + 4 <= n {
        assert f[j..j + 4] == base[j..j + 4];
        assert !OccursAt(base, ".mdx", j);
      } else {
        var k := n - j;
        assert f[n] == '.';
        assert f[j..j + 4][k] != ".mdx"[k];
      }
    }
    var i := IndexOfFrom(f, ".mdx", 0);
    assert i == n;
    assert f[..n] == base && f[n + 4..] == [];
  }

  lemma {:induction false} DraftsInMembers(dirPath: string, dir: Dir, files: seq<string>, d: DraftPost)
    requires forall f :: f in files ==> f in dir
    ensures d in DraftsIn(dirPath, dir, files) <==>
      exists f :: f in files && DraftOf(dirPath, f, dir[f]) == Some(d)
  {
    if files != [] {
      var init, f := files[..|files| - 1], files[|files| - 1];
      assert files == init + [f];
      DraftsInMembers(dirPath, dir, init, d);
      if d in DraftsIn(dirPath, dir, files) && d !in DraftsIn(dirPath, dir, init) {
        assert DraftOf(dirPath, f, dir[f]) == Some(d);
      }
    }
  }

  /** `getDrafts` lists exactly the unpublished `.mdx` posts of the folder. */
  lemma DraftsMembers(dirPath: string, dir: Dir, listing: seq<string>, timeOf: string -> int, d: DraftPost)
    requires forall f :: f in listing ==> f in dir
    ensures d in Drafts(dirPath, dir, listing, timeOf) <==>
      exists f :: f in listing && EndsWith(f, ".mdx") && DraftOf(dirPath, f, dir[f]) == Some(d)
  {
    var files := MdxFiles(listing);
    SortDescPermutes(DraftsIn(dirPath, dir, files), ByDate(timeOf));
    DraftsInMembers(dirPath, dir, files, d);
  }

  /** The listing is newest first and a permutation of the unsorted entries. */
  lemma DraftsOrdered(dirPath: string, dir: Dir, listing: seq<string>, timeOf: string -> int)
    requires forall f :: f in listing ==> f in dir
    ensures var ds := Drafts(dirPath, dir, listing, timeOf);
      (forall i, j :: 0 <= i < j < |ds| ==> timeOf(ds[i].date) >= timeOf(ds[j].date))
      && multiset(ds) == multiset(DraftsIn(dirPath, dir, MdxFiles(listing)))
  {
    var ds := Drafts(dirPath, dir, listing, timeOf);
    SortDescSorted(DraftsIn(dirPath, dir, MdxFiles(listing)), ByDate(timeOf));
    assert forall i, j :: 0 <= i < j < |ds| ==> ByDate(timeOf)(ds[i]) >= ByDate(timeOf)(ds[j]);
  }

  // ---------------------------------------------------------------------
  // `reviewDraft` and `publishApproved`

  datatype Action = Approve | Reject | Clean

  datatype Outcome = Outcome(success: bool, message: string)

  /** The blog folder and its `rejected/` archive, by file name. */
  datatype Store = Store(posts: Dir, rejected: Dir)

  /** What `reviewDraft(slug, action)` does to the store, and its reply. */
  function Reviewed(st: Store, slug: string, action: Action): (Store, Outcome) {
    var file := slug + ".mdx";
    if file !in st.posts then (st, Outcome(false, "Draft not found: " + slug))
    else
      match action
      case Approve =>
        (Store(st.posts[file := UpdateStatus(st.posts[file], "published")], st.rejected),
         Outcome(true, "Published: " + slug))
      case Reject =>
        (Store(st.posts - {file}, st.rejected[file := st.posts[file]]),
         Outcome(true, "Rejected and archived: " + slug))
      case Clean =>
        (Store(st.posts[file := UpdateStatus(Validator.Cleaned(st.posts[file]), "review")], st.rejected),
         Outcome(true, "Cleaned and marked for review: " + slug))
  }

  /** `draft.status === 'review' && draft.validationErrors.length === 0`. */
  predicate Ready(d: DraftPost) {
    d.status == "review" && d.validationErrors == []
  }

  /** The slugs of the ready drafts, in order. */
  function PublishedSlugs(ds: seq<DraftPost>): seq<string> {
    if ds == [] then []
    else PublishedSlugs(ds[..|ds| - 1]) + (if Ready(ds[|ds| - 1]) then [ds[|ds| - 1].slug] else [])
  }

  /** The slugs of the other drafts, in order. */
  function SkippedSlugs(ds: seq<DraftPost>): seq<string> {
    if ds == [] then []
    else SkippedSlugs(ds[..|ds| - 1]) + (if Ready(ds[|ds| - 1]) then [] else [ds[|ds| - 1].slug])
  }

  lemma SlugsSnoc(ds: seq<DraftPost>, i: nat)
    requires i < |ds|
    ensures PublishedSlugs(ds[..i + 1]) == PublishedSlugs(ds[..i]) + (if Ready(ds[i]) then [ds[i].slug] else [])
    ensures SkippedSlugs(ds[..i + 1]) == SkippedSlugs(ds[..i]) + (if Ready(ds[i]) then [] else [ds[i].slug])
  {
    assert ds[..i + 1][..i] == ds[..i];
  }

  lemma ApproveAllSnoc(st: Store, slugs: seq<string>, slug: string)
    ensures ApproveAll(st, slugs + [slug]) == Reviewed(ApproveAll(st, slugs), slug, Approve).0
  {
    assert (slugs + [slug])[..|slugs|] == slugs;
  }

  /** Approving each slug in turn. */
  function ApproveAll(st: Store, slugs: seq<string>): Store {
    if slugs == [] then st
    else Reviewed(ApproveAll(st, slugs[..|slugs| - 1]), slugs[|slugs| - 1], Approve).0
  }

  // ---------------------------------------------------------------------
  // Properties of the actions

  /** A review succeeds exactly when the draft's file exists; otherwise
      nothing changes and the reply names the slug. */
  lemma ReviewedNotFound(st: Store, slug: string, action: Action)
    ensures Reviewed(st, slug, action).1.success <==> slug + ".mdx" in st.posts
    ensures slug + ".mdx" !in st.posts ==>
      Reviewed(st, slug, action) == (st, Outcome(false, "Draft not found: " + slug))
  {
  }

  /** Only the draft's own file is touched: approve and clean rewrite it in
      place, reject moves it to the archive unchanged. */
  lemma ReviewedFrame(st: Store, slug: string, action: Action)
    ensures var st' := Reviewed(st, slug, action).0; var file := slug + ".mdx";
      (forall f :: f != file ==> (f in st'.posts <==> f in st.posts))
      && (forall f :: f != file && f in st.posts ==> st'.posts[f] == st.posts[f])
      && (action != Reject ==> st'.rejected == st.rejected && (file in st'.posts <==> file in st.posts))
      && (action == Reject && file in st.posts ==>
            file !in st'.posts && st'.rejected == st.rejected[file := st.posts[file]])
  {
  }

  /** A rejected draft has left the queue: any later review of it is not
      found and changes nothing. */
  lemma RejectThenNotFound(st: Store, slug: string, action: Action)
    requires slug + ".mdx" in st.posts
    ensures var st' := Reviewed(st, slug, Reject).0;
      Reviewed(st', slug, action) == (st', Outcome(false, "Draft not found: " + slug))
  {
  }

  /** After the clean action the file has no emoji or typographic glyph,
      so it raises neither the emoji error nor the special-character
      warning. */
  lemma CleanActionGlyphFree(st: Store, slug: string)
    requires slug + ".mdx" in st.posts
    ensures var text := Reviewed(st, slug, Clean).0.posts[slug + ".mdx"];
      Validator.Clean(text)
      && Validator.ContainsEmojis !in Validator.Verdict(text).errors
      && Validator.SpecialChars !in Validator.Verdict(text).warnings
  {
    var c := Validator.Cleaned(st.posts[slug + ".mdx"]);
    var text := UpdateStatus(c, "review");
    assert Reviewed(st, slug, Clean).0.posts[slug + ".mdx"] == text;
    assert Validator.Clean(text) by {
      Validator.CleanedIsClean(st.posts[slug + ".mdx"]);
      assert Validator.Clean("review");
      UpdateStatusKeepsClean(c, "review");
    }
    Validator.CleanPassesGlyphChecks(text);
  }

  /** Approving a draft with a status line marks it published, and
      approving it again changes nothing more. */
  lemma ApproveMarksPublished(st: Store, slug: string, pre: string, sp: string, q: string, w: string, post: string)
    requires slug + ".mdx" in st.posts && st.posts[slug + ".mdx"] == pre + StatusLine(sp, q, w) + post
    requires !Contains(ToLower(pre), "status:") && AllSpace(sp) && OptQuote(q) && IsStatusWord(w)
    requires q != [] || post == [] || !IsQuote(post[0])
    ensures var st' := Reviewed(st, slug, Approve).0;
      st'.posts[slug + ".mdx"] == pre + StatusField("published") + post
      && Reviewed(st', slug, Approve).0 == st'
  {
    StatusLineRewritten(pre, sp, q, w, post, "published");
    RewriteToSameStatus(pre, "published", post);
    var st' := Reviewed(st, slug, Approve).0;
    assert st'.posts[slug + ".mdx" := st'.posts[slug + ".mdx"]] == st'.posts;
  }

  /** Every draft is either published or skipped, by whether it is ready. */
  lemma {:induction false} PublishPartition(ds: seq<DraftPost>)
    ensures |PublishedSlugs(ds)| + |SkippedSlugs(ds)| == |ds|
    ensures forall i :: 0 <= i < |ds| && Ready(ds[i]) ==> ds[i].slug in PublishedSlugs(ds)
    ensures forall i :: 0 <= i < |ds| && !Ready(ds[i]) ==> ds[i].slug in SkippedSlugs(ds)
    ensures forall s :: s in PublishedSlugs(ds) ==> exists i :: 0 <= i < |ds| && Ready(ds[i]) && ds[i].slug == s
    ensures forall s :: s in SkippedSlugs(ds) ==> exists i :: 0 <= i < |ds| && !Ready(ds[i]) && ds[i].slug == s
  {
    if ds != [] {
      var init := ds[..|ds| - 1];
      PublishPartition(init);
      assert forall i :: 0 <= i < |init| ==> init[i] == ds[i];
    }
  }

  /** Publishing touches only the approved drafts' files, keeps every file
      name, and leaves the archive alone. */
  lemma {:induction false} ApproveAllFrame(st: Store, slugs: seq<string>)
    ensures ApproveAll(st, slugs).rejected == st.rejected
    ensures forall f :: f in ApproveAll(st, slugs).posts <==> f in st.posts
    ensures forall f :: f in st.posts && (forall s :: s in slugs ==> s + ".mdx" != f) ==>
      ApproveAll(st, slugs).posts[f] == st.posts[f]
  {
    if slugs != [] {
      var init := slugs[..|slugs| - 1];
      ApproveAllFrame(st, init);
      assert forall s :: s in init ==> s in slugs;
    }
  }

  class ReviewQueue {
    /** `CONTENT_DIR`. */
    const dirPath: string
    var posts: Dir
    var rejected: Dir

    constructor (dirPath: string, posts: Dir, rejected: Dir)
      ensures this.dirPath == dirPath && this.posts == posts && this.rejected == rejected
    {
      this.dirPath := dirPath;
      this.posts := posts;
      this.rejected := rejected;
    }

    function State(): Store
      reads this
    {
      Store(posts, rejected)
    }

    /** `getDrafts()` over the folder listed (in `readdirSync` order) by
        `listing`. */
    method GetDrafts(listing: seq<string>, timeOf: string -> int) returns (drafts: seq<DraftPost>)
      requires IsListing(listing, posts)
      ensures drafts == Drafts(dirPath, posts, listing, timeOf)
    {
      drafts := CollectDrafts(dirPath, posts, MdxFiles(listing));
      drafts := SortDesc(drafts, ByDate(timeOf));
    }

    /** `reviewDraft(slug, action)`. */
    method ReviewDraft(slug: string, action: Action) returns (r: Outcome)
      modifies this
      ensures (State(), r) == Reviewed(old(State()), slug, action)
    {
      var file := slug + ".mdx";
      if file !in posts {
        return Outcome(false, "Draft not found: " + slug);
      }
      match action
      case Approve =>
        posts := posts[file := UpdateStatus(posts[file], "published")];
        r := Outcome(true, "Published: " + slug);
      case Reject =>
        rejected := rejected[file := posts[file]];
        posts := posts - {file};
        r := Outcome(true, "Rejected and archived: " + slug);
      case Clean =>
        var cleaned := Validator.CleanContent(posts[file]);
        posts := posts[file := UpdateStatus(cleaned, "review")];
        r := Outcome(true, "Cleaned and marked for review: " + slug);
    }

    /** `publishApproved()`: approves every listed draft in review without
        errors. */
    method PublishApproved(listing: seq<string>, timeOf: string -> int)
      returns (published: seq<string>, skipped: seq<string>)
      requires IsListing(listing, posts)
      modifies this
      ensures var ds := Drafts(dirPath, old(posts), listing, timeOf);
        published == PublishedSlugs(ds) && skipped == SkippedSlugs(ds)
      ensures State() == ApproveAll(old(State()), published)
    {
      var drafts := GetDrafts(listing, timeOf);
      published, skipped := ApproveReady(drafts);
    }

    /** The loop of `publishApproved` over the listed drafts. */
    method ApproveReady(drafts: seq<DraftPost>) returns (published: seq<string>, skipped: seq<string>)
      modifies this
      ensures published == PublishedSlugs(drafts) && skipped == SkippedSlugs(drafts)
      ensures State() == ApproveAll(old(State()), published)
    {
      ghost var start := State();
      published, skipped := [], [];
      var i := 0;
      while i < |drafts|
        invariant 0 <= i <= |drafts|
        invariant published == PublishedSlugs(drafts[..i]) && skipped == SkippedSlugs(drafts[..i])
        invariant State() == ApproveAll(start, published)
      {
        SlugsSnoc(drafts, i);
        var draft := drafts[i];
        if Ready(draft) {
          var outcome := ReviewDraft(draft.slug, Approve);
          ApproveAllSnoc(start, published, draft.slug);
          published := published + [draft.slug];
        } else {
          skipped := skipped + [draft.slug];
        }
        i := i + 1;
      }
      assert drafts[..i] == drafts;
    }
  }
}
