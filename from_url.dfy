/** Generating a post from one web page (`from-url.ts`): the arguments,
    the page fetch with its fallback, the prompt's placeholders, and the
    writes of the post, the optional social posts and the ledger entry. */
module FromUrl {
  import opened Wrappers
  import opened JsString
  import opened Pipeline
  import Ingestion
  import Ledger
  import Validator
  import Html

  datatype UrlConfig = UrlConfig(url: string, title: Option<string>, social: bool)

  // ---------------------------------------------------------------------
  // Arguments

  /** The argument loop of `parseArgs` from index `i` on. */
  function ArgsFrom(args: seq<string>, i: nat, c: UrlConfig): UrlConfig
    decreases |args| - i
  {
    if i >= |args| then c
    else if args[i] == "--title" && Ingestion.HasValue(args, i) then ArgsFrom(args, i + 2, c.(title := Some(args[i + 1])))
    else if args[i] == "--social" then ArgsFrom(args, i + 1, c.(social := true))
    else ArgsFrom(args, i + 1, c)
  }

  /** `parseArgs`: no arguments or `--help` print the usage and give
      `null`; otherwise the first argument is the URL. */
  function Parsed(args: seq<string>): Option<UrlConfig> {
    if |args| == 0 || args[0] == "--help" then None
    else Some(ArgsFrom(args, 1, UrlConfig(args[0], None, false)))
  }

  method ParseArgs(args: seq<string>) returns (config: Option<UrlConfig>)
    ensures config == Parsed(args)
  {
    if |args| == 0 || args[0] == "--help" {
      return None;
    }
    var c := UrlConfig(args[0], None, false);
    var i := 1;
    while i < |args|
      invariant 1 <= i <= |args| + 1
      invariant ArgsFrom(args, i, c) == ArgsFrom(args, 1, UrlConfig(args[0], None, false))
    {
      if args[i] == "--title" && i + 1 < |args| && args[i + 1] != "" {
        c := c.(title := Some(args[i + 1]));
        i := i + 1;
      } else if args[i] == "--social" {
        c := c.(social := true);
      }
      i := i + 1;
    }
    return Some(c);
  }

  /** The loop keeps the URL; a title it sets is a non-empty argument that
      follows a `--title`; it turns `social` on only when a `--social`
      follows. */
  lemma {:induction false} ArgsFromFacts(args: seq<string>, i: nat, c: UrlConfig)
    ensures ArgsFrom(args, i, c).url == c.url
    ensures var t := ArgsFrom(args, i, c).title;
      t == c.title || (t.Some? && t.value != "" && exists j :: i <= j < |args| - 1 && args[j] == "--title" && args[j + 1] == t.value)
    ensures ArgsFrom(args, i, c).social ==> c.social || exists j :: i <= j < |args| && args[j] == "--social"
    decreases |args| - i
  {
    if i < |args| {
      if args[i] == "--title" && Ingestion.HasValue(args, i) {
        var c1 := c.(title := Some(args[i + 1]));
        ArgsFromFacts(args, i + 2, c1);
        var t := ArgsFrom(args, i + 2, c1).title;
        if t == c1.title {
          assert args[i] == "--title" && args[i + 1] == t.value;
        }
      } else if args[i] == "--social" {
        ArgsFromFacts(args, i + 1, c.(social := true));
      } else {
        ArgsFromFacts(args, i + 1, c);
      }
    }
  }

  /** Usage exactly for no arguments or `--help`; otherwise the URL is the
      first argument and a title, when set, is not empty. */
  lemma ParsedFacts(args: seq<string>)
    ensures Parsed(args).None? <==> |args| == 0 || args[0] == "--help"
    ensures Parsed(args).Some? ==> Parsed(args).value.url == args[0]
    ensures Parsed(args).Some? && Parsed(args).value.title.Some? ==> Parsed(args).value.title.value != ""
  {
    if |args| > 0 && args[0] != "--help" {
      ArgsFromFacts(args, 1, UrlConfig(args[0], None, false));
    }
  }

  /** `--title` takes the argument after it, even when that argument is
      `--social`, which is then not read as a flag. */
  lemma TitleTakesNext(url: string)
    requires url != "--help"
    ensures Parsed([url, "--title", "AI Trends 2025", "--social"]) == Some(UrlConfig(url, Some("AI Trends 2025"), true))
    ensures Parsed([url, "--title", "--social"]) == Some(UrlConfig(url, Some("--social"), false))
    ensures Parsed([url, "--title"]) == Some(UrlConfig(url, None, false))
  {
    var c0 := UrlConfig(url, None, false);
    var a := [url, "--title", "AI Trends 2025", "--social"];
    assert a[1] == "--title" && Ingestion.HasValue(a, 1) && a[3] == "--social";
    assert ArgsFrom(a, 4, c0.(title := Some("AI Trends 2025"), social := true)) == c0.(title := Some("AI Trends 2025"), social := true);
    assert ArgsFrom(a, 3, c0.(title := Some("AI Trends 2025"))) == c0.(title := Some("AI Trends 2025"), social := true);
    var b := [url, "--title", "--social"];
    assert b[1] == "--title" && Ingestion.HasValue(b, 1);
    assert ArgsFrom(b, 3, c0.(title := Some("--social"))) == c0.(title := Some("--social"));
    var t := [url, "--title"];
    assert t[1] == "--title" && !Ingestion.HasValue(t, 1);
    assert ArgsFrom(t, 2, c0) == c0;
  }

  // ---------------------------------------------------------------------
  // Fetching the page

  /** What `fetch(url)` gives: no response at all, or a status with its body. */
  datatype Page = Unreachable | Response(ok: bool, status: int, body: string)

  datatype Fetched = Fetched(title: string, content: string, source: string)

  /** `hostname.replace('www.', '')`: the first `www.` goes. */
  function SourceName(host: string): string {
    ReplaceFirst(host, "www.", "")
  }

  function FallbackContent(url: string): string {
    "Please use your knowledge to write about the topic from this URL: " + url
  }

  /** `fetchUrlContent`, given the page and `new URL(url).hostname`
      (`None` when the URL does not parse). A page that cannot be had gives
      the fallback; a URL that does not parse throws again inside the
      `catch`, which `None` stands for. A URL that parses with an empty host
      name (`mailto:x`, `file:///tmp/a.html`) gives the fallback with an
      empty source. */
  function FetchUrlContent(url: string, page: Page, host: Option<string>): (r: Option<Fetched>)
    ensures r.None? <==> host.None?
    ensures r.Some? ==> r.value.source == SourceName(host.value)
    ensures r.Some? && page.Response? && page.ok ==> |r.value.content| <= Html.MaxText
  {
    if host.None? then None
    else if page.Response? && page.ok then
      Some(Fetched(Html.PageTitle(page.body), Html.PageText(page.body), SourceName(host.value)))
    else Some(Fetched("Unknown Article", FallbackContent(url), SourceName(host.value)))
  }

  /** A page that answers gives its title and its text, with the shape the
      extraction promises; any other page gives `Unknown Article` and a
      request naming the URL. */
  lemma FetchedFields(url: string, page: Page, host: string)
    ensures var f := FetchUrlContent(url, page, Some(host)).value;
      page.Response? && page.ok ==>
        f.title == Html.PageTitle(page.body) && f.content == Html.PageText(page.body)
        && (f.content == [] || !IsSpace(f.content[0])) && Html.SingleSpaced(f.content) && Html.Tagless(f.content)
    ensures var f := FetchUrlContent(url, page, Some(host)).value;
      !(page.Response? && page.ok) ==> f.title == "Unknown Article" && EndsWith(f.content, url)
  {
    if page.Response? && page.ok {
      Html.PageTextShape(page.body);
    } else {
      var c := FallbackContent(url);
      assert c[|c| - |url|..] == url;
    }
  }

  /** The source of `www.example.com` is `example.com`, and a host without
      `www.` is its own source. */
  lemma SourceDropsWww(host: string)
    ensures SourceName("www." + host) == host
    ensures !Contains(host, "www.") ==> SourceName(host) == host
  {
    ReplaceFirstFront(host, "www.", "");
  }

  // ---------------------------------------------------------------------
  // The prompt

  /** `new Date().toISOString().split('T')[0]`. */
  function DateOf(iso: string): string {
    Split(iso, 'T')[0]
  }

  lemma {:induction false} DateOfIso(day: string, time: string)
    requires 'T' !in day
    ensures DateOf(day + "T" + time) == day
    decreases |day|
  {
    var s := day + "T" + time;
    if day == [] {
      assert s[0] == 'T';
    } else {
      DateOfIso(day[1..], time);
      assert s[1..] == day[1..] + "T" + time;
      assert [day[0]] + day[1..] == day;
    }
  }

  /** The `replace` chain on the rewrite template: `{TITLE}`, `{CONTENT}`
      and `{DATE}` at their first occurrence, `{URL}` and `{SOURCE}`
      everywhere, each step scanning the text the earlier steps made. */
  function FillPrompt(template: string, title: string, url: string, content: string, date: string, source: string): string {
    var withTitle := ReplaceFirst(template, "{TITLE}", title);
    var withUrl := ReplaceAll(withTitle, "{URL}", url);
    var withContent := ReplaceFirst(withUrl, "{CONTENT}", content);
    var withDate := ReplaceFirst(withContent, "{DATE}", date);
    ReplaceAll(withDate, "{SOURCE}", source)
  }

  predicate Plain(x: string) { '{' !in x }

  lemma PlainInert(x: string, p: string)
    requires Plain(x) && p != [] && p[0] == '{'
    ensures Inert(x, p)
  {
  }

  /** A placeholder is inert for the search of any other placeholder. */
  lemma OtherPlaceholder(q: string, p: string)
    requires q in {"{TITLE}", "{URL}", "{CONTENT}", "{DATE}", "{SOURCE}"}
    requires p in {"{TITLE}", "{URL}", "{CONTENT}", "{DATE}", "{SOURCE}"}
    requires q != p
    ensures Inert(q, p)
  {
  }

  /** A template holding each placeholder once, in the order of the
      rewrite template, with plain text around them and plain values,
      gets each value in its place. */
  lemma PromptOfSkeleton(a: string, b: string, c: string, d: string, e: string,
                         title: string, url: string, content: string, date: string, source: string)
    requires Plain(a) && Plain(b) && Plain(c) && Plain(d) && Plain(e)
    requires Plain(title) && Plain(url) && Plain(content) && Plain(date)
    ensures FillPrompt(a + ("{TITLE}" + (b + ("{URL}" + (c + ("{CONTENT}" + (d + ("{DATE}" + e))))))),
                       title, url, content, date, source)
            == a + (title + (b + (url + (c + (content + (d + (date + e)))))))
  {
    var rest := c + ("{CONTENT}" + (d + ("{DATE}" + e)));
    var s1 := a + (title + (b + ("{URL}" + rest)));
    PlainInert(a, "{TITLE}");
    ReplaceFirstAfter(a, "{TITLE}", b + ("{URL}" + rest), title);
    var s2 := a + (title + (b + (url + rest)));
    UrlStep(a, title, b, url, rest);
    UrlScanOfRest(c, d, e, url);
    var s3 := a + (title + (b + (url + (c + (content + (d + ("{DATE}" + e)))))));
    ContentStep(a, title, b, url, c, content, d + ("{DATE}" + e));
    var s4 := a + (title + (b + (url + (c + (content + (d + (date + e)))))));
    DateStep(a, title, b, url, c, content, d, date, e);
    PlainInert(s4, "{SOURCE}");
    ReplaceAllInert(s4, "{SOURCE}", source);
  }

  /** `{TITLE}` is replaced at its first occurrence only and `{URL}` at
      every one: in a template holding each twice, the second `{TITLE}`
      stays and both `{URL}`s receive the URL. */
  lemma RepeatedPlaceholders(a: string, b: string, c: string, d: string, e: string,
                             title: string, url: string, content: string, date: string, source: string)
    requires Plain(a) && Plain(b) && Plain(c) && Plain(d) && Plain(e) && Plain(title) && Plain(url)
    ensures FillPrompt(a + ("{TITLE}" + (b + ("{URL}" + (c + ("{TITLE}" + (d + ("{URL}" + e))))))),
                       title, url, content, date, source)
            == a + (title + (b + (url + (c + ("{TITLE}" + (d + (url + e)))))))
  {
    var rest := c + ("{TITLE}" + (d + ("{URL}" + e)));
    var s2 := a + (title + (b + (url + (c + ("{TITLE}" + (d + (url + e)))))));
    assert ReplaceFirst(a + ("{TITLE}" + (b + ("{URL}" + rest))), "{TITLE}", title)
           == a + (title + (b + ("{URL}" + rest))) by {
      PlainInert(a, "{TITLE}");
      ReplaceFirstAfter(a, "{TITLE}", b + ("{URL}" + rest), title);
    }
    assert ReplaceAll(a + (title + (b + ("{URL}" + rest))), "{URL}", url) == s2 by {
      UrlStep(a, title, b, url, rest);
      UrlScanOfSecond(c, d, e, url);
    }
    assert FillPrompt(a + ("{TITLE}" + (b + ("{URL}" + rest))), title, url, content, date, source) == s2 by {
      var x := a + (title + (b + (url + c)));
      var y := d + (url + e);
      assert s2 == x + ("{TITLE}" + y);
      LaterTitleInert(x, y, content, date, source);
    }
  }

  /** The `{URL}` scan over the second half of the doubled template. */
  lemma UrlScanOfSecond(c: string, d: string, e: string, url: string)
    requires Plain(c) && Plain(d) && Plain(e)
    ensures ReplaceAll(c + ("{TITLE}" + (d + ("{URL}" + e))), "{URL}", url) == c + ("{TITLE}" + (d + (url + e)))
  {
    PlainInert(c, "{URL}");
    PlainInert(d, "{URL}");
    PlainInert(e, "{URL}");
    OtherPlaceholder("{TITLE}", "{URL}");
    ReplaceAllInert(e, "{URL}", url);
    ReplaceAllFront(e, "{URL}", url);
    ReplaceAllSkip(d, "{URL}" + e, "{URL}", url);
    ReplaceAllSkip("{TITLE}", d + ("{URL}" + e), "{URL}", url);
    ReplaceAllSkip(c, "{TITLE}" + (d + ("{URL}" + e)), "{URL}", url);
  }

  /** A text whose only placeholder is a `{TITLE}` passes the last three
      steps unchanged. */
  lemma LaterTitleInert(x: string, y: string, content: string, date: string, source: string)
    requires Plain(x) && Plain(y)
    ensures var s := x + ("{TITLE}" + y);
      ReplaceAll(ReplaceFirst(ReplaceFirst(s, "{CONTENT}", content), "{DATE}", date), "{SOURCE}", source) == s
  {
    var s := x + ("{TITLE}" + y);
    assert ReplaceFirst(s, "{CONTENT}", content) == s by {
      TitleTextInert(x, y, "{CONTENT}");
      ReplaceFirstInert(s, "{CONTENT}", content);
    }
    assert ReplaceFirst(s, "{DATE}", date) == s by {
      TitleTextInert(x, y, "{DATE}");
      ReplaceFirstInert(s, "{DATE}", date);
    }
    assert ReplaceAll(s, "{SOURCE}", source) == s by {
      TitleTextInert(x, y, "{SOURCE}");
      ReplaceAllInert(s, "{SOURCE}", source);
    }
  }

  lemma TitleTextInert(x: string, y: string, p: string)
    requires Plain(x) && Plain(y) && p in {"{CONTENT}", "{DATE}", "{SOURCE}"}
    ensures Inert(x + ("{TITLE}" + y), p)
  {
    PlainInert(x, p);
    PlainInert(y, p);
    OtherPlaceholder("{TITLE}", p);
    InertConcat("{TITLE}", y, p);
    InertConcat(x, "{TITLE}" + y, p);
  }

  /** The `{URL}` step over plain text before the first `{URL}`. */
  lemma UrlStep(a: string, title: string, b: string, url: string, rest: string)
    requires Plain(a) && Plain(title) && Plain(b)
    ensures ReplaceAll(a + (title + (b + ("{URL}" + rest))), "{URL}", url)
            == a + (title + (b + (url + ReplaceAll(rest, "{URL}", url))))
  {
    PlainInert(a, "{URL}");
    PlainInert(title, "{URL}");
    PlainInert(b, "{URL}");
    ReplaceAllSkip(a, title + (b + ("{URL}" + rest)), "{URL}", url);
    ReplaceAllSkip(title, b + ("{URL}" + rest), "{URL}", url);
    ReplaceAllSkip(b, "{URL}" + rest, "{URL}", url);
    ReplaceAllFront(rest, "{URL}", url);
  }

  /** The `{URL}` scan walks over the rest of the skeleton unchanged. */
  lemma UrlScanOfRest(c: string, d: string, e: string, url: string)
    requires Plain(c) && Plain(d) && Plain(e)
    ensures ReplaceAll(c + ("{CONTENT}" + (d + ("{DATE}" + e))), "{URL}", url) == c + ("{CONTENT}" + (d + ("{DATE}" + e)))
  {
    PlainInert(c, "{URL}");
    PlainInert(d, "{URL}");
    PlainInert(e, "{URL}");
    OtherPlaceholder("{CONTENT}", "{URL}");
    OtherPlaceholder("{DATE}", "{URL}");
    ReplaceAllInert(e, "{URL}", url);
    ReplaceAllSkip("{DATE}", e, "{URL}", url);
    ReplaceAllSkip(d, "{DATE}" + e, "{URL}", url);
    ReplaceAllSkip("{CONTENT}", d + ("{DATE}" + e), "{URL}", url);
    ReplaceAllSkip(c, "{CONTENT}" + (d + ("{DATE}" + e)), "{URL}", url);
  }

  /** The `{CONTENT}` step over plain text before the `{CONTENT}`. */
  lemma ContentStep(a: string, title: string, b: string, url: string, c: string, content: string, y: string)
    requires Plain(a) && Plain(title) && Plain(b) && Plain(url) && Plain(c)
    ensures ReplaceFirst(a + (title + (b + (url + (c + ("{CONTENT}" + y))))), "{CONTENT}", content)
            == a + (title + (b + (url + (c + (content + y)))))
  {
    PlainInert(a, "{CONTENT}");
    PlainInert(title, "{CONTENT}");
    PlainInert(b, "{CONTENT}");
    PlainInert(url, "{CONTENT}");
    ReplaceFirstSkip(a, title + (b + (url + (c + ("{CONTENT}" + y)))), "{CONTENT}", content);
    ReplaceFirstSkip(title, b + (url + (c + ("{CONTENT}" + y))), "{CONTENT}", content);
    ReplaceFirstSkip(b, url + (c + ("{CONTENT}" + y)), "{CONTENT}", content);
    ReplaceFirstSkip(url, c + ("{CONTENT}" + y), "{CONTENT}", content);
    PlainInert(c, "{CONTENT}");
    ReplaceFirstAfter(c, "{CONTENT}", y, content);
  }

  /** The `{DATE}` step over plain text before the `{DATE}`. */
  lemma DateStep(a: string, title: string, b: string, url: string, c: string, content: string, d: string,
                 date: string, e: string)
    requires Plain(a) && Plain(title) && Plain(b) && Plain(url) && Plain(c) && Plain(content) && Plain(d)
    ensures ReplaceFirst(a + (title + (b + (url + (c + (content + (d + ("{DATE}" + e))))))), "{DATE}", date)
            == a + (title + (b + (url + (c + (content + (d + (date + e)))))))
  {
    var x := a + (title + (b + (url + (c + (content + d)))));
    assert a + (title + (b + (url + (c + (content + (d + ("{DATE}" + e)))))))
           == x + ("{DATE}" + e);
    assert a + (title + (b + (url + (c + (content + (d + (date + e)))))))
           == x + (date + e);
    PlainInert(x, "{DATE}");
    ReplaceFirstAfter(x, "{DATE}", e, date);
  }

  /** The steps scan what the earlier steps inserted: when the article's
      text holds `{DATE}`, the `{DATE}` step that follows the `{CONTENT}`
      step puts the date into the article, and a `{DATE}` of the template
      after it stays as it is. */
  lemma ContentTakesTheDate(x: string, u: string, v: string, y: string, date: string)
    requires Plain(x) && Plain(u)
    ensures ReplaceFirst(ReplaceFirst(x + ("{CONTENT}" + y), "{CONTENT}", u + ("{DATE}" + v)), "{DATE}", date)
            == x + (u + (date + (v + y)))
  {
    var m := x + ((u + ("{DATE}" + v)) + y);
    assert ReplaceFirst(x + ("{CONTENT}" + y), "{CONTENT}", u + ("{DATE}" + v)) == m by {
      PlainInert(x, "{CONTENT}");
      ReplaceFirstAfter(x, "{CONTENT}", y, u + ("{DATE}" + v));
    }
    assert ReplaceFirst(m, "{DATE}", date) == x + (u + (date + (v + y))) by {
      DateAfterArticleText(x, u, v, y, date);
    }
  }

  lemma DateAfterArticleText(x: string, u: string, v: string, y: string, date: string)
    requires Plain(x) && Plain(u)
    ensures ReplaceFirst(x + ((u + ("{DATE}" + v)) + y), "{DATE}", date) == x + (u + (date + (v + y)))
  {
    Regroup(x, u, "{DATE}", v, y);
    PlainInert(x + u, "{DATE}");
    ReplaceFirstAfter(x + u, "{DATE}", v + y, date);
    Regroup(x, u, date, v, y);
  }

  lemma Regroup(x: string, u: string, p: string, v: string, y: string)
    ensures x + ((u + (p + v)) + y) == (x + u) + (p + (v + y)) == x + (u + (p + (v + y)))
  {
  }

  // ---------------------------------------------------------------------
  // Generating and writing

  /** What one run depends on outside the script: the page and the host
      name of a URL, the generation backend, the rewrite template, the two
      social prompts, `slugify`, and the clock read for the date of the
      prompt and for the ledger entry. */
  datatype UrlEnv = UrlEnv(fetch: string -> Page, hostname: string -> Option<string>, gen: Generator,
                           template: string, linkedinPrompt: (string, string) -> string,
                           twitterPrompt: (string, string) -> string, slugify: string -> string,
                           nowIso: string, stamp: string)

  /** `config.title || title`: a `--title` wins unless it is empty. */
  function FinalTitle(config: UrlConfig, f: Fetched): string {
    if config.title.Some? && config.title.value != "" then config.title.value else f.title
  }

  function LinkedinText(reply: string, url: string): string { Validator.Cleaned(reply) + "\n\n" + url }
  function TweetText(reply: string, url: string): string { Validator.Cleaned(reply) + " " + url }

  /** The social branch: the LinkedIn post (request 1), then the tweet
      (request 2), both named by the blog slug cut to 40 characters; a
      failed request ends the run with what was written so far. */
  function Social(d: Disk, slug: string, title: string, url: string, env: UrlEnv): (Disk, bool) {
    var name := Take(slug, 40);
    match env.gen(1, env.linkedinPrompt(title, url))
    case Failure(_) => (d, false)
    case Text(li) =>
      var d1 := d.(social := d.social[LinkedinFile(name) := LinkedinText(li, url)]);
      match env.gen(2, env.twitterPrompt(title, url))
      case Failure(_) => (d1, false)
      case Text(tw) => (d1.(social := d1.social[TwitterFile(name) := TweetText(tw, url)]), true)
  }

  /** How a run ends: the usage text, an error that escaped to the top, or
      the post written under this slug. */
  datatype UrlOutcome = Usage | Rejected | Done(slug: string)

  /** The prompt for the page. */
  function PromptFor(config: UrlConfig, f: Fetched, env: UrlEnv): string {
    FillPrompt(env.template, FinalTitle(config, f), config.url, f.content, DateOf(env.nowIso), f.source)
  }

  /** The writes once the page is fetched: the cleaned post, the social
      posts when asked for, and last the ledger entry. */
  function Written(d: Disk, config: UrlConfig, f: Fetched, env: UrlEnv): (Disk, UrlOutcome) {
    var title := FinalTitle(config, f);
    match env.gen(0, PromptFor(config, f, env))
    case Failure(_) => (d, Rejected)
    case Text(b) =>
      var slug := BlogSlug(env.slugify, title);
      var d1 := d.(blog := d.blog[PostFile(slug) := Validator.Cleaned(b)]);
      var (d2, ok) := if config.social then Social(d1, slug, title, config.url, env) else (d1, true);
      if !ok then (d2, Rejected)
      else (d2.(ledger := Ledger.Marked(d2.ledger, title, f.source, "all", env.stamp)), Done(slug))
  }

  /** `generateFromUrl`. */
  function Generated(d: Disk, config: UrlConfig, env: UrlEnv): (Disk, UrlOutcome) {
    match FetchUrlContent(config.url, env.fetch(config.url), env.hostname(config.url))
    case None => (d, Rejected)
    case Some(f) => Written(d, config, f, env)
  }

  /** The script: parse the arguments, then generate. */
  function FromUrlRun(d: Disk, args: seq<string>, env: UrlEnv): (Disk, UrlOutcome) {
    match Parsed(args)
    case None => (d, Usage)
    case Some(config) => Generated(d, config, env)
  }

  method SocialStep(ws: Workspace, slug: string, title: string, url: string, env: UrlEnv) returns (ok: bool)
    modifies ws
    ensures (ws.State(), ok) == Social(old(ws.State()), slug, title, url, env)
  {
    var socialSlug := Take(slug, 40);
    var linkedin := env.gen(1, env.linkedinPrompt(title, url));
    if linkedin.Failure? {
      return false;
    }
    var cleanLinkedin := Validator.CleanContent(linkedin.text);
    ws.WriteSocial("linkedin-" + socialSlug + ".txt", cleanLinkedin + "\n\n" + url);
    var twitter := env.gen(2, env.twitterPrompt(title, url));
    if twitter.Failure? {
      return false;
    }
    var cleanTwitter := Validator.CleanContent(twitter.text);
    ws.WriteSocial("twitter-" + socialSlug + ".txt", cleanTwitter + " " + url);
    return true;
  }

  /** Everything after the fetch: generate, write, record. */
  method WriteAll(ws: Workspace, config: UrlConfig, f: Fetched, env: UrlEnv) returns (outcome: UrlOutcome)
    modifies ws, ws.cache
    ensures (ws.State(), outcome) == Written(old(ws.State()), config, f, env)
  {
    var finalTitle := if config.title.Some? && config.title.value != "" then config.title.value else f.title;
    var prompt := FillPrompt(env.template, finalTitle, config.url, f.content, DateOf(env.nowIso), f.source);
    var reply := env.gen(0, prompt);
    if reply.Failure? {
      return Rejected;
    }
    var blogContent := Validator.CleanContent(reply.text);
    var slug := BlogSlug(env.slugify, finalTitle);
    ws.WriteBlog(slug + ".mdx", blogContent);
    var validation := Validator.ValidateContent(blogContent);
    if config.social {
      var ok := SocialStep(ws, slug, finalTitle, config.url, env);
      if !ok {
        return Rejected;
      }
    }
    ws.cache.MarkAsProcessed(finalTitle, f.source, "all", env.stamp);
    return Done(slug);
  }

  method GenerateFromUrl(ws: Workspace, config: UrlConfig, env: UrlEnv) returns (outcome: UrlOutcome)
    modifies ws, ws.cache
    ensures (ws.State(), outcome) == Generated(old(ws.State()), config, env)
  {
    var fetched := FetchUrlContent(config.url, env.fetch(config.url), env.hostname(config.url));
    if fetched.None? {
      return Rejected;
    }
    outcome := WriteAll(ws, config, fetched.value, env);
  }

  method Run(ws: Workspace, args: seq<string>, env: UrlEnv) returns (outcome: UrlOutcome)
    modifies ws, ws.cache
    ensures (ws.State(), outcome) == FromUrlRun(old(ws.State()), args, env)
  {
    var config := ParseArgs(args);
    if config.None? {
      return Usage;
    }
    outcome := GenerateFromUrl(ws, config.value, env);
  }

  // ---------------------------------------------------------------------
  // Properties of a run

  /** The ledger changes only on a finished run, and then records the
      final title with the page's source, so the page is a duplicate for
      the other scripts. */
  lemma MarkedOnlyWhenDone(d: Disk, config: UrlConfig, env: UrlEnv)
    ensures !Generated(d, config, env).1.Done? ==> Generated(d, config, env).0.ledger == d.ledger
    ensures Generated(d, config, env).1.Done? ==>
      var f := FetchUrlContent(config.url, env.fetch(config.url), env.hostname(config.url)).value;
      Ledger.HasHash(Ledger.Load(Generated(d, config, env).0.ledger), Ledger.Fingerprint(FinalTitle(config, f), f.source))
  {
    var r := Generated(d, config, env);
    if r.1.Done? {
      var f := FetchUrlContent(config.url, env.fetch(config.url), env.hostname(config.url)).value;
      var title := FinalTitle(config, f);
      var b := env.gen(0, PromptFor(config, f, env)).text;
      var d1 := d.(blog := d.blog[PostFile(BlogSlug(env.slugify, title)) := Validator.Cleaned(b)]);
      var d2 := if config.social then Social(d1, BlogSlug(env.slugify, title), title, config.url, env).0 else d1;
      assert r.0 == d2.(ledger := Ledger.Marked(d2.ledger, title, f.source, "all", env.stamp));
      Ledger.MarkThenDuplicate(d2.ledger, title, f.source, "all", env.stamp);
    }
  }

  /** The social branch, when both requests return text, writes a
      LinkedIn file ending in a blank line and the URL and a tweet file
      ending in a space and the URL; it touches neither the posts nor the
      ledger. */
  lemma SocialEndsWithUrl(d: Disk, slug: string, title: string, url: string, env: UrlEnv)
    ensures var (d', ok) := Social(d, slug, title, url, env);
      var name := Take(slug, 40);
      ok ==>
        LinkedinFile(name) in d'.social && EndsWith(d'.social[LinkedinFile(name)], "\n\n" + url)
        && TwitterFile(name) in d'.social && EndsWith(d'.social[TwitterFile(name)], " " + url)
    ensures Social(d, slug, title, url, env).0.blog == d.blog && Social(d, slug, title, url, env).0.ledger == d.ledger
  {
    var (d', ok) := Social(d, slug, title, url, env);
    if ok {
      var name := Take(slug, 40);
      SocialFilesDistinct(name, name);
      var lt := LinkedinText(env.gen(1, env.linkedinPrompt(title, url)).text, url);
      var tt := TweetText(env.gen(2, env.twitterPrompt(title, url)).text, url);
      assert d'.social[LinkedinFile(name)] == lt && d'.social[TwitterFile(name)] == tt;
      EndsWithTail(Validator.Cleaned(env.gen(1, env.linkedinPrompt(title, url)).text), "\n\n", url);
      EndsWithTail(Validator.Cleaned(env.gen(2, env.twitterPrompt(title, url)).text), " ", url);
    }
  }

  /** A finished run has written the cleaned post under the slug of the
      final title, and with `--social` the files of the social branch;
      without `--social` no social file is written. */
  lemma FilesOfDoneRun(d: Disk, config: UrlConfig, f: Fetched, env: UrlEnv)
    ensures var (d', o) := Written(d, config, f, env);
      o.Done? ==>
        o.slug == BlogSlug(env.slugify, FinalTitle(config, f))
        && d'.blog == d.blog[PostFile(o.slug) := Validator.Cleaned(env.gen(0, PromptFor(config, f, env)).text)]
    ensures var (d', o) := Written(d, config, f, env);
      o.Done? && config.social ==>
        Social(d.(blog := d'.blog), o.slug, FinalTitle(config, f), config.url, env).1
        && d'.social == Social(d.(blog := d'.blog), o.slug, FinalTitle(config, f), config.url, env).0.social
    ensures !config.social ==> Written(d, config, f, env).0.social == d.social
  {
    var (d', o) := Written(d, config, f, env);
    if o.Done? && config.social {
      var title := FinalTitle(config, f);
      SocialEndsWithUrl(d.(blog := d'.blog), o.slug, title, config.url, env);
    }
  }

  /** A URL that does not parse writes nothing. */
  lemma BadUrlWritesNothing(d: Disk, config: UrlConfig, env: UrlEnv)
    requires env.hostname(config.url).None?
    ensures Generated(d, config, env) == (d, Rejected)
  {
  }

  /** A failed post request writes nothing; a failed social request keeps
      the post but leaves the ledger alone. */
  lemma FailuresKeepLedger(d: Disk, config: UrlConfig, f: Fetched, env: UrlEnv)
    ensures env.gen(0, PromptFor(config, f, env)).Failure? ==> Written(d, config, f, env) == (d, Rejected)
    ensures var r := Written(d, config, f, env);
      env.gen(0, PromptFor(config, f, env)).Text? && r.1.Rejected? ==>
        config.social && r.0.ledger == d.ledger
        && r.0.blog == d.blog[PostFile(BlogSlug(env.slugify, FinalTitle(config, f))) :=
                              Validator.Cleaned(env.gen(0, PromptFor(config, f, env)).text)]
  {
  }

  /** A non-empty `--title` names the post and the ledger entry, whatever
      the page's own title. */
  lemma CustomTitleWins(config: UrlConfig, f: Fetched, t: string)
    requires config.title == Some(t) && t != ""
    ensures FinalTitle(config, f) == t
  {
  }

  /** Without `--title`, the page's title is used. */
  lemma PageTitleByDefault(config: UrlConfig, f: Fetched)
    requires config.title.None? || config.title == Some("")
    ensures FinalTitle(config, f) == f.title
  {
  }

  /** Usage writes nothing. */
  lemma UsageWritesNothing(d: Disk, args: seq<string>, env: UrlEnv)
    ensures FromUrlRun(d, args, env).1.Usage? <==> |args| == 0 || args[0] == "--help"
    ensures FromUrlRun(d, args, env).1.Usage? ==> FromUrlRun(d, args, env).0 == d
  {
    ParsedFacts(args);
  }
}
