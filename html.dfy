/** The HTML-to-text extraction of `fetchUrlContent` (`from-url.ts`): the
    page title, and the text left once script and style blocks are
    removed, tags become spaces, white space is collapsed and the result is
    trimmed and cut to 8000 characters. Each regular expression is written
    out as the scan the JavaScript engine performs. */
module Html {
  import opened Wrappers
  import opened JsString

  const MaxText: nat := 8000

  // ---------------------------------------------------------------------
  // Scanning helpers

  /** `p` (lower case) occurs at `i` in `s`, ignoring ASCII case. */
  predicate OccursAtCI(s: string, p: string, i: int) {
    0 <= i && i + |p| <= |s| && ToLower(s[i..i + |p|]) == p
  }

  /** The first index at or after `from` holding `c`, or `|s|`. */
  function NextIndex(s: string, c: char, from: nat): (k: nat)
    requires from <= |s|
    ensures from <= k <= |s|
    ensures k < |s| ==> s[k] == c
    ensures forall m :: from <= m < k ==> s[m] != c
    decreases |s| - from
  {
    if from == |s| || s[from] == c then from else NextIndex(s, c, from + 1)
  }

  /** The first index at or after `from` where `p` occurs ignoring case,
      or `|s|`. */
  function IndexOfCI(s: string, p: string, from: nat): (k: nat)
    requires p != [] && from <= |s|
    ensures from <= k <= |s|
    ensures k < |s| ==> OccursAtCI(s, p, k)
    ensures forall m :: from <= m < k ==> !OccursAtCI(s, p, m)
    decreases |s| - from
  {
    if from + |p| > |s| then |s|
    else if OccursAtCI(s, p, from) then from
    else IndexOfCI(s, p, from + 1)
  }

  lemma LowerIsAngle(s: string, i: nat)
    requires i < |s| && ToLower(s)[i] == '<'
    ensures s[i] == '<'
  {
  }

  // ---------------------------------------------------------------------
  // The title: /<title[^>]*>([^<]+)<\/title>/i

  /** The captured text of a match starting at `i`: `<title`, anything up
      to the first `>`, then at least one character up to the first `<`,
      which must open `</title>`. */
  function TitleAt(s: string, i: nat): (r: Option<string>)
    requires i <= |s|
    ensures r.Some? ==> r.value != [] && '<' !in r.value
  {
    if !OccursAtCI(s, "<title", i) then None
    else
      var j := NextIndex(s, '>', i + 6);
      if j == |s| then None
      else
        var q := NextIndex(s, '<', j + 1);
        if q == j + 1 || !OccursAtCI(s, "</title>", q) then None
        else Some(s[j + 1..q])
  }

  /** Where the leftmost match at or after `i` starts, or `|s|`. */
  function FirstTitle(s: string, i: nat): (k: nat)
    requires i <= |s|
    ensures i <= k <= |s|
    ensures k < |s| ==> TitleAt(s, k).Some?
    ensures forall m :: i <= m < k ==> TitleAt(s, m).None?
    decreases |s| - i
  {
    if i == |s| || TitleAt(s, i).Some? then i else FirstTitle(s, i + 1)
  }

  /** `titleMatch ? titleMatch[1].trim() : 'Untitled'`. */
  function PageTitle(html: string): string {
    var k := FirstTitle(html, 0);
    if k < |html| then Trim(TitleAt(html, k).value) else "Untitled"
  }

  /** The title of a page whose first element is a plain `<title>`
      element is that element's trimmed text. */
  lemma TitleOfSimplePage(t: string, rest: string)
    requires t != [] && '<' !in t
    ensures PageTitle("<title>" + t + "</title>" + rest) == Trim(t)
  {
    var html := "<title>" + t + "</title>" + rest;
    SimplePageChars(t, rest);
    TitleAtStart(html, t);
  }

  /** Where the parts of a simple page sit. */
  lemma SimplePageChars(t: string, rest: string)
    requires '<' !in t
    ensures var html, q := "<title>" + t + "</title>" + rest, 7 + |t|;
      q + 8 <= |html| && html[..6] == "<title" && html[6] == '>'
      && (forall m :: 7 <= m < q ==> html[m] != '<') && html[q..q + 8] == "</title>" && html[7..q] == t
  {
    var html, q := "<title>" + t + "</title>" + rest, 7 + |t|;
    assert forall m :: 7 <= m < q ==> html[m] == t[m - 7];
    assert html[..6] == "<title";
    assert html[q..q + 8] == "</title>";
    assert html[7..q] == t;
  }

  /** A `<title>` element at the start of the text, with no `<` inside,
      is the match at 0. */
  lemma TitleAtStart(html: string, t: string)
    requires t != []
    requires 15 + |t| <= |html| && html[..6] == "<title" && html[6] == '>'
    requires (forall m :: 7 <= m < 7 + |t| ==> html[m] != '<')
    requires html[7 + |t|..15 + |t|] == "</title>" && html[7..7 + |t|] == t
    ensures TitleAt(html, 0) == Some(t)
  {
    var q := 7 + |t|;
    LowerOfLower("<title");
    assert OccursAtCI(html, "<title", 0);
    assert html[q] == html[q..q + 8][0];
    assert NextIndex(html, '<', 7) == q;
    LowerOfLower("</title>");
  }

  /** With no `<title` anywhere, the title is `Untitled`. */
  lemma UntitledWithoutTitle(html: string)
    requires forall i :: 0 <= i <= |html| ==> !OccursAtCI(html, "<title", i)
    ensures PageTitle(html) == "Untitled"
  {
    assert forall m :: 0 <= m <= |html| ==> TitleAt(html, m).None?;
  }

  // ---------------------------------------------------------------------
  // Script and style blocks: /<tag[^>]*>[\s\S]*?<\/tag>/gi

  /** The length of a block match at the start of `s`, or 0: `<tag`,
      anything up to the first `>`, then everything up to the first
      `</tag>`. */
  function BlockLength(s: string, tag: string): (n: nat)
    ensures n <= |s|
  {
    var open := "<" + tag;
    if !OccursAtCI(s, open, 0) then 0
    else
      var j := NextIndex(s, '>', |open|);
      if j == |s| then 0
      else
        var close := "</" + tag + ">";
        var k := IndexOfCI(s, close, j + 1);
        if k == |s| then 0 else k + |close|
  }

  /** The global replacement of block matches by nothing, scanning left to
      right and resuming after each match. */
  function StripBlocks(s: string, tag: string): string
    decreases |s|
  {
    if s == [] then []
    else
      var n := BlockLength(s, tag);
      if n > 0 then StripBlocks(s[n..], tag) else [s[0]] + StripBlocks(s[1..], tag)
  }

  /** Only characters of the input remain, and never more of them. */
  lemma {:induction false} StripBlocksChars(s: string, tag: string)
    ensures |StripBlocks(s, tag)| <= |s|
    ensures forall c :: c in StripBlocks(s, tag) ==> c in s
    decreases |s|
  {
    if s != [] {
      var n := BlockLength(s, tag);
      if n > 0 {
        StripBlocksChars(s[n..], tag);
        assert forall c :: c in s[n..] ==> c in s;
      } else {
        StripBlocksChars(s[1..], tag);
        assert forall c :: c in s[1..] ==> c in s;
      }
    }
  }

  /** `IndexOfCI` finds a match with none before it. */
  lemma FirstMatchCI(s: string, p: string, from: nat, k: nat)
    requires p != [] && from <= k < |s| && OccursAtCI(s, p, k)
    requires forall m :: from <= m < k ==> !OccursAtCI(s, p, m)
    ensures IndexOfCI(s, p, from) == k
  {
  }

  /** A complete block at the front, whose body holds no closing tag in
      any case, is removed with its tags. */
  lemma StripWholeBlock(x: string, rest: string)
    requires !Contains(ToLower(x), "</script>")
    ensures StripBlocks("<script>" + x + "</script>" + rest, "script") == StripBlocks(rest, "script")
  {
    var s := "<script>" + x + "</script>" + rest;
    assert "<" + "script" == "<script";
    assert "</" + "script" + ">" == "</script>";
    assert s[..7] == "<script";
    LowerOfLower("<script");
    assert OccursAtCI(s, "<script", 0);
    assert s[7] == '>';
    assert NextIndex(s, '>', 7) == 7;
    var k := 8 + |x|;
    assert s[k..k + 9] == "</script>";
    LowerOfLower("</script>");
    assert OccursAtCI(s, "</script>", k);
    forall m | 8 <= m < k ensures !OccursAtCI(s, "</script>", m) {
      BodyNotClosing(x, rest, m);
    }
    FirstMatchCI(s, "</script>", 8, k);
    assert BlockLength(s, "script") == k + 9;
    assert s[k + 9..] == rest;
  }

  /** No closing tag starts inside the body: one wholly inside it would be
      in the body, and one running into the real closing tag would need a
      second `<` within its first nine characters. */
  lemma BodyNotClosing(x: string, rest: string, m: nat)
    requires !Contains(ToLower(x), "</script>") && 8 <= m < 8 + |x|
    ensures !OccursAtCI("<script>" + x + "</script>" + rest, "</script>", m)
  {
    var s := "<script>" + x + "</script>" + rest;
    var k := 8 + |x|;
    if m + 9 <= |s| {
      if m + 9 <= k {
        assert s[m..m + 9] == x[m - 8..m + 1];
        assert ToLower(x)[m - 8..m + 1] == ToLower(x[m - 8..m + 1]);
        assert !OccursAt(ToLower(x), "</script>", m - 8);
      } else {
        assert s[k] == '<';
        assert ToLower(s[m..m + 9])[k - m] == '<';
      }
    }
  }

  // ---------------------------------------------------------------------
  // Tags: /<[^>]+>/g replaced by a space

  /** A `<`, at least one character, and the first `>` after them become
      one space; a `<` that opens no such tag is kept. */
  function TagsToSpaces(s: string): string
    decreases |s|
  {
    if s == [] then []
    else if s[0] == '<' && |s| > 1 && 1 < NextIndex(s, '>', 1) < |s| then
      " " + TagsToSpaces(s[NextIndex(s, '>', 1) + 1..])
    else [s[0]] + TagsToSpaces(s[1..])
  }

  /** No tag is left: every `<` is followed directly by `>` or has no `>`
      anywhere after it. */
  predicate Tagless(r: string) {
    forall i :: 0 <= i < |r| - 1 && r[i] == '<' ==> r[i + 1] == '>' || '>' !in r[i + 1..]
  }

  lemma {:induction false} TagsToSpacesChars(s: string)
    ensures forall c :: c in TagsToSpaces(s) ==> c in s || c == ' '
    decreases |s|
  {
    if s != [] {
      if s[0] == '<' && |s| > 1 && 1 < NextIndex(s, '>', 1) < |s| {
        TagsToSpacesChars(s[NextIndex(s, '>', 1) + 1..]);
      } else {
        TagsToSpacesChars(s[1..]);
      }
    }
  }

  lemma {:induction false} TagsToSpacesTagless(s: string)
    ensures Tagless(TagsToSpaces(s))
    decreases |s|
  {
    if s != [] {
      var r := TagsToSpaces(s);
      if s[0] == '<' && |s| > 1 && 1 < NextIndex(s, '>', 1) < |s| {
        var t := TagsToSpaces(s[NextIndex(s, '>', 1) + 1..]);
        TagsToSpacesTagless(s[NextIndex(s, '>', 1) + 1..]);
        assert r == " " + t;
        assert forall i :: 1 <= i < |r| ==> r[i] == t[i - 1] && r[i + 1..] == t[i..];
      } else {
        var t := TagsToSpaces(s[1..]);
        TagsToSpacesTagless(s[1..]);
        assert r == [s[0]] + t;
        assert forall i :: 1 <= i < |r| ==> r[i] == t[i - 1] && r[i + 1..] == t[i..];
        if s[0] == '<' && |s| > 1 {
          TagsToSpacesChars(s[1..]);
          if NextIndex(s, '>', 1) == 1 {
            assert t[0] == '>';
          } else {
            assert '>' !in s[1..];
            assert '>' !in r[1..];
          }
        }
      }
    }
  }

  lemma TaglessSuffix(r: string, n: nat)
    requires n <= |r| && Tagless(r)
    ensures Tagless(r[n..])
  {
    var t := r[n..];
    forall i | 0 <= i < |t| - 1 && t[i] == '<' ensures t[i + 1] == '>' || '>' !in t[i + 1..] {
      assert r[n + i] == '<';
      assert t[i + 1..] == r[n + i + 1..];
    }
  }

  lemma TaglessPrefix(r: string, n: nat)
    requires n <= |r| && Tagless(r)
    ensures Tagless(r[..n])
  {
    var t := r[..n];
    forall i | 0 <= i < |t| - 1 && t[i] == '<' ensures t[i + 1] == '>' || '>' !in t[i + 1..] {
      assert r[i] == '<';
      if '>' in t[i + 1..] {
        var m :| i + 1 <= m < n && t[m] == '>';
        assert r[m] == '>';
        assert '>' in r[i + 1..] by { assert r[i + 1..][m - i - 1] == '>'; }
      }
    }
  }

  // ---------------------------------------------------------------------
  // White space: /\s+/g replaced by a space

  /** Every run of white space becomes one space. */
  function CollapseSpace(s: string): string
    decreases |s|
  {
    if s == [] then []
    else if IsSpace(s[0]) then
      var rest := TrimStart(s);
      " " + CollapseSpace(rest)
    else [s[0]] + CollapseSpace(s[1..])
  }

  /** Only single spaces separate the words of `r`. */
  predicate SingleSpaced(r: string) {
    (forall i :: 0 <= i < |r| && IsSpace(r[i]) ==> r[i] == ' ')
    && forall i :: 0 <= i < |r| - 1 && r[i] == ' ' ==> r[i + 1] != ' '
  }

  lemma {:induction false} CollapseSpaceShape(s: string)
    ensures SingleSpaced(CollapseSpace(s))
    ensures CollapseSpace(s) == [] <==> s == []
    ensures s != [] && !IsSpace(s[0]) ==> CollapseSpace(s)[0] == s[0]
    ensures forall c :: c in CollapseSpace(s) ==> c in s || c == ' '
    decreases |s|
  {
    if s != [] {
      if IsSpace(s[0]) {
        var rest := TrimStart(s);
        CollapseSpaceShape(rest);
        SingleSpacedCons(' ', CollapseSpace(rest));
        ConsChars(' ', CollapseSpace(rest), rest, s);
      } else {
        CollapseSpaceShape(s[1..]);
        SingleSpacedCons(s[0], CollapseSpace(s[1..]));
        ConsChars(s[0], CollapseSpace(s[1..]), s[1..], s);
      }
    }
  }

  /** A character in front of a single-spaced text: a space must not meet
      another. */
  lemma SingleSpacedCons(c: char, t: string)
    requires SingleSpaced(t) && (IsSpace(c) ==> c == ' ') && (c == ' ' ==> t == [] || t[0] != ' ')
    ensures SingleSpaced([c] + t)
  {
    var r := [c] + t;
    assert forall i :: 1 <= i < |r| ==> r[i] == t[i - 1];
  }

  /** The characters of `[c] + t` come from `s` or are spaces, when those
      of `t` come from `u`, a suffix of `s`, and `c` is a space or in `s`. */
  lemma ConsChars(c: char, t: string, u: string, s: string)
    requires forall x :: x in t ==> x in u || x == ' '
    requires |u| <= |s| && u == s[|s| - |u|..]
    requires c == ' ' || c in s
    ensures forall x :: x in [c] + t ==> x in s || x == ' '
  {
    forall x | x in [c] + t ensures x in s || x == ' ' {
      if x != c && x in u {
        var k :| 0 <= k < |u| && u[k] == x;
        assert s[|s| - |u| + k] == x;
      }
    }
  }

  /** Putting a character in front keeps a text tagless when a `<` put
      there is followed by `>` or by no `>` at all. */
  lemma TaglessCons(c: char, t: string)
    requires Tagless(t)
    requires c == '<' && t != [] ==> t[0] == '>' || '>' !in t
    ensures Tagless([c] + t)
  {
    var r := [c] + t;
    forall i | 0 <= i < |r| - 1 && r[i] == '<' ensures r[i + 1] == '>' || '>' !in r[i + 1..] {
      assert r[i + 1..] == t[i..];
      if i > 0 {
        assert t[i - 1] == '<';
      }
    }
  }

  lemma {:induction false} CollapseSpaceTagless(s: string)
    requires Tagless(s)
    ensures Tagless(CollapseSpace(s))
    decreases |s|
  {
    if s != [] {
      if IsSpace(s[0]) {
        var rest := TrimStart(s);
        TaglessSuffix(s, |s| - |rest|);
        CollapseSpaceTagless(rest);
        TaglessCons(' ', CollapseSpace(rest));
      } else {
        TaglessSuffix(s, 1);
        CollapseSpaceTagless(s[1..]);
        var t := CollapseSpace(s[1..]);
        if s[0] == '<' && |s| > 1 {
          CollapseSpaceShape(s[1..]);
          if s[1] != '>' {
            assert '>' !in s[1..];
          }
        }
        TaglessCons(s[0], t);
      }
    }
  }

  lemma SingleSpacedSlice(r: string, a: nat, b: nat)
    requires a <= b <= |r| && SingleSpaced(r)
    ensures SingleSpaced(r[a..b])
  {
    var t := r[a..b];
    assert forall i :: 0 <= i < |t| ==> t[i] == r[a + i];
  }

  // ---------------------------------------------------------------------
  // The whole chain

  /** The text `fetchUrlContent` extracts from a page. */
  function PageText(html: string): string {
    var bare := TagsToSpaces(StripBlocks(StripBlocks(html, "script"), "style"));
    Take(Trim(CollapseSpace(bare)), MaxText)
  }

  /** Single spacing and the absence of tags survive a cut on either side. */
  lemma SliceShape(r: string, a: nat, b: nat)
    requires a <= b <= |r| && SingleSpaced(r) && Tagless(r)
    ensures SingleSpaced(r[a..b]) && Tagless(r[a..b])
  {
    SingleSpacedSlice(r, a, b);
    TaglessSuffix(r, a);
    TaglessPrefix(r[a..], b - a);
    assert r[a..][..b - a] == r[a..b];
  }

  lemma TrimStartShape(c: string)
    requires SingleSpaced(c) && Tagless(c)
    ensures SingleSpaced(TrimStart(c)) && Tagless(TrimStart(c))
  {
    var ts := TrimStart(c);
    SuffixShape(c, |c| - |ts|);
  }

  lemma SuffixShape(r: string, n: nat)
    requires n <= |r| && SingleSpaced(r) && Tagless(r)
    ensures SingleSpaced(r[n..]) && Tagless(r[n..])
  {
    assert r[n..] == r[n..|r|];
    SliceShape(r, n, |r|);
  }

  lemma PrefixShape(r: string, n: nat)
    requires n <= |r| && SingleSpaced(r) && Tagless(r)
    ensures SingleSpaced(r[..n]) && Tagless(r[..n])
  {
    assert r[..n] == r[0..n];
    SliceShape(r, 0, n);
  }

  /** Trimming keeps the shape and leaves no leading white space. */
  lemma TrimShape(c: string)
    requires SingleSpaced(c) && Tagless(c)
    ensures var r := Trim(c);
      (r == [] || !IsSpace(r[0])) && SingleSpaced(r) && Tagless(r)
  {
    var ts := TrimStart(c);
    TrimStartShape(c);
    var tr := TrimEnd(ts);
    assert Trim(c) == tr;
    assert tr == ts[..|tr|];
    PrefixShape(ts, |tr|);
  }

  /** Cutting keeps the shape. */
  lemma TakeShape(r: string, n: nat)
    requires (r == [] || !IsSpace(r[0])) && SingleSpaced(r) && Tagless(r)
    ensures var t := Take(r, n);
      (t == [] || !IsSpace(t[0])) && SingleSpaced(t) && Tagless(t)
  {
    var t := Take(r, n);
    assert t == r[..|t|];
    PrefixShape(r, |t|);
  }

  /** Whatever the page, the text is at most 8000 characters, does not
      start with white space, separates its words by single spaces and
      holds no tag. */
  lemma PageTextShape(html: string)
    ensures var r := PageText(html);
      |r| <= MaxText && (r == [] || !IsSpace(r[0])) && SingleSpaced(r) && Tagless(r)
  {
    var bare := TagsToSpaces(StripBlocks(StripBlocks(html, "script"), "style"));
    TagsToSpacesTagless(StripBlocks(StripBlocks(html, "script"), "style"));
    var c := CollapseSpace(bare);
    CollapseSpaceShape(bare);
    CollapseSpaceTagless(bare);
    TrimShape(c);
    TakeShape(Trim(c), MaxText);
  }

  /** With no `<` in the page, nothing is stripped: the text is the page
      with its white space collapsed, trimmed and cut. */
  lemma PlainPage(html: string)
    requires '<' !in html
    ensures PageText(html) == Take(Trim(CollapseSpace(html)), MaxText)
  {
    NoAngleUntouched(html, "script");
    NoAngleUntouched(html, "style");
    NoAngleNoTags(html);
  }

  lemma {:induction false} NoAngleUntouched(s: string, tag: string)
    requires '<' !in s
    ensures StripBlocks(s, tag) == s
    decreases |s|
  {
    if s != [] {
      if OccursAtCI(s, "<" + tag, 0) {
        LowerIsAngle(s[..|tag| + 1], 0);
      }
      assert BlockLength(s, tag) == 0;
      NoAngleUntouched(s[1..], tag);
    }
  }

  lemma {:induction false} NoAngleNoTags(s: string)
    requires '<' !in s
    ensures TagsToSpaces(s) == s
    decreases |s|
  {
    if s != [] {
      NoAngleNoTags(s[1..]);
    }
  }
}
