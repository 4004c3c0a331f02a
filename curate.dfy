/** The curation script (`curate.ts`): its arguments, the capped feed
    listing, and the loop that writes the requested outputs for each new
    article and records it, stopping the whole run at the first failure. */
module Curate {
  import opened Wrappers
  import opened JsString
  import opened Ingestion
  import opened Pipeline
  import Ledger

  /** `output` is whatever followed `--output`: the script casts it to
      its four known values without checking. */
  datatype CurateConfig = CurateConfig(topics: seq<string>, limit: Option<int>, output: string, daysBack: Option<int>)

  const CurateDefaults: CurateConfig := CurateConfig(["all"], Some(5), "blog", Some(7))

  // ---------------------------------------------------------------------
  // Arguments

  /** The argument loop of `parseArgs` from index `i` on; `None` when it
      reaches `--help`, which prints the usage and exits. */
  function ArgsFrom(args: seq<string>, i: nat, c: CurateConfig): Option<CurateConfig>
    decreases |args| - i
  {
    if i >= |args| then Some(c)
    else if args[i] == "--topics" && HasValue(args, i) then ArgsFrom(args, i + 2, c.(topics := TopicList(args[i + 1])))
    else if args[i] == "--limit" && HasValue(args, i) then ArgsFrom(args, i + 2, c.(limit := ParseInt(args[i + 1])))
    else if args[i] == "--output" && HasValue(args, i) then ArgsFrom(args, i + 2, c.(output := args[i + 1]))
    else if args[i] == "--days" && HasValue(args, i) then ArgsFrom(args, i + 2, c.(daysBack := ParseInt(args[i + 1])))
    else if args[i] == "--help" then None
    else ArgsFrom(args, i + 1, c)
  }

  function Parsed(args: seq<string>): Option<CurateConfig> {
    ArgsFrom(args, 0, CurateDefaults)
  }

  method ParseArgs(args: seq<string>) returns (config: Option<CurateConfig>)
    ensures config == Parsed(args)
  {
    var c := CurateDefaults;
    var i := 0;
    while i < |args|
      invariant 0 <= i <= |args|
      invariant ArgsFrom(args, i, c) == Parsed(args)
    {
      var help;
      i, c, help := ArgStep(args, i, c);
      if help {
        return None;
      }
    }
    return Some(c);
  }

  /** One turn of the argument loop: the index after the flag (and its
      value, when it takes one), or `help` for `--help`. */
  method ArgStep(args: seq<string>, i: nat, c: CurateConfig) returns (next: nat, c': CurateConfig, help: bool)
    requires i < |args|
    ensures i < next <= |args|
    ensures help ==> ArgsFrom(args, i, c) == None
    ensures !help ==> ArgsFrom(args, next, c') == ArgsFrom(args, i, c)
  {
    ArgsFromStep(args, i, c);
    next, c', help := i + 1, c, false;
    if args[i] == "--topics" && HasValue(args, i) {
      next, c' := i + 2, c.(topics := TopicList(args[i + 1]));
    } else if args[i] == "--limit" && HasValue(args, i) {
      next, c' := i + 2, c.(limit := ParseInt(args[i + 1]));
    } else if args[i] == "--output" && HasValue(args, i) {
      next, c' := i + 2, c.(output := args[i + 1]);
    } else if args[i] == "--days" && HasValue(args, i) {
      next, c' := i + 2, c.(daysBack := ParseInt(args[i + 1]));
    } else if args[i] == "--help" {
      help := true;
    }
  }

  /** One unfolding of the argument loop, branch by branch. */
  lemma ArgsFromStep(args: seq<string>, i: nat, c: CurateConfig)
    requires i < |args|
    ensures var topics, limit := args[i] == "--topics" && HasValue(args, i), args[i] == "--limit" && HasValue(args, i);
      var output, days := args[i] == "--output" && HasValue(args, i), args[i] == "--days" && HasValue(args, i);
      (topics ==> ArgsFrom(args, i, c) == ArgsFrom(args, i + 2, c.(topics := TopicList(args[i + 1]))))
      && (!topics && limit ==> ArgsFrom(args, i, c) == ArgsFrom(args, i + 2, c.(limit := ParseInt(args[i + 1]))))
      && (!topics && !limit && output ==> ArgsFrom(args, i, c) == ArgsFrom(args, i + 2, c.(output := args[i + 1])))
      && (!topics && !limit && !output && days ==>
          ArgsFrom(args, i, c) == ArgsFrom(args, i + 2, c.(daysBack := ParseInt(args[i + 1]))))
      && (!topics && !limit && !output && !days ==>
          ArgsFrom(args, i, c) == (if args[i] == "--help" then None else ArgsFrom(args, i + 1, c)))
  {
  }

  /** `--help` in the first position always ends the script before any
      work; after `--output` it is taken as the output name instead. Any
      non-empty text is accepted as an output. */
  lemma HelpAndOutput(rest: seq<string>, s: string)
    requires s != ""
    ensures Parsed(["--help"] + rest) == None
    ensures Parsed(["--output", s]) == Some(CurateDefaults.(output := s))
  {
    var args := ["--output", s];
    assert HasValue(args, 0);
    assert ArgsFrom(args, 0, CurateDefaults) == ArgsFrom(args, 2, CurateDefaults.(output := s));
  }

  lemma {:induction false} ArgsFromTopics(args: seq<string>, i: nat, c: CurateConfig)
    requires forall k :: 0 <= k < |c.topics| ==> NormalTopic(c.topics[k])
    ensures ArgsFrom(args, i, c).Some? ==>
      forall k :: 0 <= k < |ArgsFrom(args, i, c).value.topics| ==> NormalTopic(ArgsFrom(args, i, c).value.topics[k])
    decreases |args| - i
  {
    if i < |args| {
      if args[i] == "--topics" && HasValue(args, i) {
        TopicListNormalised(args[i + 1]);
        ArgsFromTopics(args, i + 2, c.(topics := TopicList(args[i + 1])));
      } else if args[i] == "--limit" && HasValue(args, i) {
        ArgsFromTopics(args, i + 2, c.(limit := ParseInt(args[i + 1])));
      } else if args[i] == "--output" && HasValue(args, i) {
        ArgsFromTopics(args, i + 2, c.(output := args[i + 1]));
      } else if args[i] == "--days" && HasValue(args, i) {
        ArgsFromTopics(args, i + 2, c.(daysBack := ParseInt(args[i + 1])));
      } else if args[i] != "--help" {
        ArgsFromTopics(args, i + 1, c);
      }
    }
  }

  /** Every requested topic is trimmed, lower case and free of commas. */
  lemma ParsedTopicsNormal(args: seq<string>)
    ensures Parsed(args).Some? ==>
      forall k :: 0 <= k < |Parsed(args).value.topics| ==> NormalTopic(Parsed(args).value.topics[k])
  {
    assert NormalTopic("all");
    ArgsFromTopics(args, 0, CurateDefaults);
  }

  // ---------------------------------------------------------------------
  // One article

  /** What the curation prompts are given about an article. */
  datatype Article = Article(title: string, description: string, content: string, source: string,
                             link: string, topics: seq<string>)

  /** What the tweet prompt is given: no content and no topics. */
  datatype TweetBrief = TweetBrief(title: string, description: string, source: string, link: string)

  function ArticleOf(item: FeedItem): Article {
    Article(item.title, item.contentSnippet, item.content, item.source, item.link, item.topics)
  }

  function BriefOf(item: FeedItem): TweetBrief {
    TweetBrief(item.title, item.contentSnippet, item.source, item.link)
  }

  /** Everything a run takes from outside: feeds and clock, the generation
      backend (`generateContent`) with its three prompts left opaque,
      `slugify`, and the time stamp of the mark for the `k`-th article. */
  datatype CurateEnv = CurateEnv(world: World, gen: Generator,
                                 blogPrompt: Article -> string, linkedinPrompt: Article -> string,
                                 twitterPrompt: TweetBrief -> string,
                                 slugify: string -> string, stampAt: nat -> string)

  predicate WantsBlog(output: string) { output == "blog" || output == "all" }
  predicate WantsLinkedin(output: string) { output == "linkedin" || output == "all" }
  predicate WantsTwitter(output: string) { output == "twitter" || output == "all" }

  /** The state after (part of) one article, whether no request has failed
      yet, and the number of generation requests made so far. */
  datatype Curated = Curated(disk: Disk, ok: bool, calls: nat)

  function BlogPart(s: Curated, item: FeedItem, output: string, env: CurateEnv): Curated {
    if !s.ok || !WantsBlog(output) then s
    else
      match env.gen(s.calls, env.blogPrompt(ArticleOf(item)))
      case Failure(_) => s.(ok := false, calls := s.calls + 1)
      case Text(t) =>
        Curated(s.disk.(blog := s.disk.blog[PostFile(BlogSlug(env.slugify, item.title)) := t]), true, s.calls + 1)
  }

  function LinkedinPart(s: Curated, item: FeedItem, output: string, env: CurateEnv): Curated {
    if !s.ok || !WantsLinkedin(output) then s
    else
      match env.gen(s.calls, env.linkedinPrompt(ArticleOf(item)))
      case Failure(_) => s.(ok := false, calls := s.calls + 1)
      case Text(t) =>
        Curated(s.disk.(social := s.disk.social[LinkedinFile(SocialSlug(env.slugify, item.title)) := t]), true, s.calls + 1)
  }

  function TwitterPart(s: Curated, item: FeedItem, output: string, env: CurateEnv): Curated {
    if !s.ok || !WantsTwitter(output) then s
    else
      match env.gen(s.calls, env.twitterPrompt(BriefOf(item)))
      case Failure(_) => s.(ok := false, calls := s.calls + 1)
      case Text(t) =>
        var name := TwitterFile(SocialSlug(env.slugify, item.title));
        Curated(s.disk.(social := s.disk.social[name := ReplaceFirst(t, "[LINK]", item.link)]), true, s.calls + 1)
  }

  /** `curateArticle`: the post, then the LinkedIn post, then the tweet,
      each only when the output asks for it; a failed request throws, so
      the parts after it are not attempted. Nothing is cleaned. */
  function CurateItem(d: Disk, item: FeedItem, output: string, calls: nat, env: CurateEnv): Curated {
    TwitterPart(LinkedinPart(BlogPart(Curated(d, true, calls), item, output, env), item, output, env), item, output, env)
  }

  method BlogStep(ws: Workspace, item: FeedItem, output: string, calls: nat, env: CurateEnv)
    returns (ok: bool, callsAfter: nat)
    modifies ws
    ensures Curated(ws.State(), ok, callsAfter) == BlogPart(Curated(old(ws.State()), true, calls), item, output, env)
  {
    if output == "blog" || output == "all" {
      var blogContent := env.gen(calls, env.blogPrompt(ArticleOf(item)));
      if blogContent.Failure? {
        return false, calls + 1;
      }
      var slug := BlogSlug(env.slugify, item.title);
      ws.WriteBlog(slug + ".mdx", blogContent.text);
      return true, calls + 1;
    }
    return true, calls;
  }

  method LinkedinStep(ws: Workspace, item: FeedItem, output: string, calls: nat, env: CurateEnv)
    returns (ok: bool, callsAfter: nat)
    modifies ws
    ensures Curated(ws.State(), ok, callsAfter) == LinkedinPart(Curated(old(ws.State()), true, calls), item, output, env)
  {
    if output == "linkedin" || output == "all" {
      var linkedinContent := env.gen(calls, env.linkedinPrompt(ArticleOf(item)));
      if linkedinContent.Failure? {
        return false, calls + 1;
      }
      var slug := SocialSlug(env.slugify, item.title);
      ws.WriteSocial("linkedin-" + slug + ".txt", linkedinContent.text);
      return true, calls + 1;
    }
    return true, calls;
  }

  method TwitterStep(ws: Workspace, item: FeedItem, output: string, calls: nat, env: CurateEnv)
    returns (ok: bool, callsAfter: nat)
    modifies ws
    ensures Curated(ws.State(), ok, callsAfter) == TwitterPart(Curated(old(ws.State()), true, calls), item, output, env)
  {
    if output == "twitter" || output == "all" {
      var twitterContent := env.gen(calls, env.twitterPrompt(BriefOf(item)));
      if twitterContent.Failure? {
        return false, calls + 1;
      }
      var slug := SocialSlug(env.slugify, item.title);
      ws.WriteSocial("twitter-" + slug + ".txt", ReplaceFirst(twitterContent.text, "[LINK]", item.link));
      return true, calls + 1;
    }
    return true, calls;
  }

  method CurateArticle(ws: Workspace, item: FeedItem, output: string, calls: nat, env: CurateEnv)
    returns (ok: bool, callsAfter: nat)
    modifies ws
    ensures Curated(ws.State(), ok, callsAfter) == CurateItem(old(ws.State()), item, output, calls, env)
  {
    ok, callsAfter := BlogStep(ws, item, output, calls, env);
    if !ok {
      return;
    }
    ok, callsAfter := LinkedinStep(ws, item, output, callsAfter, env);
    if !ok {
      return;
    }
    ok, callsAfter := TwitterStep(ws, item, output, callsAfter, env);
  }

  /** The number of requests an article needs when none fails. */
  function Requests(output: string): nat {
    (if WantsBlog(output) then 1 else 0) + (if WantsLinkedin(output) then 1 else 0)
    + (if WantsTwitter(output) then 1 else 0)
  }

  /** The number of the tweet request: after the post's and the LinkedIn
      post's, when those are requested. */
  function TweetCall(output: string, calls: nat): nat {
    calls + (if WantsBlog(output) then 1 else 0) + (if WantsLinkedin(output) then 1 else 0)
  }

  /** Only the requested outputs are written, the post from its own
      reply, and the ledger is left alone; an article that succeeds made
      exactly one request per requested output. */
  lemma OutputSelection(d: Disk, item: FeedItem, output: string, calls: nat, env: CurateEnv)
    ensures var s := CurateItem(d, item, output, calls, env);
      s.disk.ledger == d.ledger
      && (!WantsBlog(output) ==> s.disk.blog == d.blog)
      && (!WantsLinkedin(output) && !WantsTwitter(output) ==> s.disk.social == d.social)
      && (s.ok ==> s.calls == calls + Requests(output))
    ensures var s := CurateItem(d, item, output, calls, env);
      s.ok && WantsBlog(output) ==>
        s.disk.blog[PostFile(BlogSlug(env.slugify, item.title))] == env.gen(calls, env.blogPrompt(ArticleOf(item))).text
    ensures var s := CurateItem(d, item, output, calls, env);
      var ss := SocialSlug(env.slugify, item.title);
      (!WantsLinkedin(output) ==> s.disk.social - {TwitterFile(ss)} == d.social - {TwitterFile(ss)})
      && (!WantsTwitter(output) ==> s.disk.social - {LinkedinFile(ss)} == d.social - {LinkedinFile(ss)})
    ensures var s := CurateItem(d, item, output, calls, env);
      var ss := SocialSlug(env.slugify, item.title);
      var reply := env.gen(calls + (if WantsBlog(output) then 1 else 0), env.linkedinPrompt(ArticleOf(item)));
      s.ok && WantsLinkedin(output) ==> reply.Text? && LinkedinFile(ss) in s.disk.social && s.disk.social[LinkedinFile(ss)] == reply.text
    ensures var s := CurateItem(d, item, output, calls, env);
      var ss := SocialSlug(env.slugify, item.title);
      var reply := env.gen(TweetCall(output, calls), env.twitterPrompt(BriefOf(item)));
      s.ok && WantsTwitter(output) ==>
        reply.Text? && TwitterFile(ss) in s.disk.social
        && s.disk.social[TwitterFile(ss)] == ReplaceFirst(reply.text, "[LINK]", item.link)
  {
    var s1 := BlogPart(Curated(d, true, calls), item, output, env);
    var s2 := LinkedinPart(s1, item, output, env);
    assert s2.disk.blog == s1.disk.blog;
    SocialParts(d, item, output, calls, env);
  }

  /** The social folder after one article: each social file is written
      only when its output is requested, from its own reply. */
  lemma SocialParts(d: Disk, item: FeedItem, output: string, calls: nat, env: CurateEnv)
    ensures var s := CurateItem(d, item, output, calls, env);
      var ss := SocialSlug(env.slugify, item.title);
      (!WantsLinkedin(output) ==> s.disk.social - {TwitterFile(ss)} == d.social - {TwitterFile(ss)})
      && (!WantsTwitter(output) ==> s.disk.social - {LinkedinFile(ss)} == d.social - {LinkedinFile(ss)})
    ensures var s := CurateItem(d, item, output, calls, env);
      var ss := SocialSlug(env.slugify, item.title);
      var reply := env.gen(calls + (if WantsBlog(output) then 1 else 0), env.linkedinPrompt(ArticleOf(item)));
      s.ok && WantsLinkedin(output) ==> reply.Text? && LinkedinFile(ss) in s.disk.social && s.disk.social[LinkedinFile(ss)] == reply.text
    ensures var s := CurateItem(d, item, output, calls, env);
      var ss := SocialSlug(env.slugify, item.title);
      var reply := env.gen(TweetCall(output, calls), env.twitterPrompt(BriefOf(item)));
      s.ok && WantsTwitter(output) ==>
        reply.Text? && TwitterFile(ss) in s.disk.social
        && s.disk.social[TwitterFile(ss)] == ReplaceFirst(reply.text, "[LINK]", item.link)
  {
    var ss := SocialSlug(env.slugify, item.title);
    var s1 := BlogPart(Curated(d, true, calls), item, output, env);
    var s2 := LinkedinPart(s1, item, output, env);
    var s := TwitterPart(s2, item, output, env);
    assert s1.disk.social == d.social;
    assert s1.ok ==> s1.calls == calls + (if WantsBlog(output) then 1 else 0);
    assert s2.ok ==> s2.calls == TweetCall(output, calls);
    SocialFilesDistinct(ss, ss);
  }

  /** When the tweet reply holds `[LINK]`, the written tweet holds the
      article's link. */
  lemma TweetCarriesLink(d: Disk, item: FeedItem, output: string, calls: nat, env: CurateEnv)
    ensures var s := CurateItem(d, item, output, calls, env);
      var name := TwitterFile(SocialSlug(env.slugify, item.title));
      var reply := env.gen(TweetCall(output, calls), env.twitterPrompt(BriefOf(item)));
      s.ok && WantsTwitter(output) && reply.Text? && Contains(reply.text, "[LINK]") ==>
        name in s.disk.social && Contains(s.disk.social[name], item.link)
  {
    var s1 := BlogPart(Curated(d, true, calls), item, output, env);
    var s2 := LinkedinPart(s1, item, output, env);
    var s := TwitterPart(s2, item, output, env);
    if s.ok && WantsTwitter(output) {
      assert s2.calls == TweetCall(output, calls);
      var t := env.gen(s2.calls, env.twitterPrompt(BriefOf(item))).text;
      if Contains(t, "[LINK]") {
        ReplaceFirstSplits(t, "[LINK]", item.link);
        var i :| OccursAt(t, "[LINK]", i) && ReplaceFirst(t, "[LINK]", item.link) == t[..i] + item.link + t[i + 6..];
        assert OccursAt(ReplaceFirst(t, "[LINK]", item.link), item.link, i);
      }
    }
  }

  // ---------------------------------------------------------------------
  // The run

  /** The state after the loop over some articles, the number recorded,
      whether every one succeeded, and the requests made. */
  datatype CurateRun = CurateRun(disk: Disk, processed: nat, ok: bool, calls: nat)

  /** One turn of the loop of `main`: curate the `k`-th article, then
      record it with the requested output; after a failure nothing more
      happens. */
  function CurateStep(p: CurateRun, item: FeedItem, k: nat, output: string, env: CurateEnv): CurateRun {
    if !p.ok then p
    else
      var s := CurateItem(p.disk, item, output, p.calls, env);
      if !s.ok then CurateRun(s.disk, p.processed, false, s.calls)
      else
        var marked := Ledger.Marked(s.disk.ledger, item.title, item.source, output, env.stampAt(k));
        CurateRun(s.disk.(ledger := marked), p.processed + 1, true, s.calls)
  }

  /** The loop of `main` over the new articles. */
  function CurateAll(d: Disk, items: seq<FeedItem>, output: string, env: CurateEnv): CurateRun {
    if items == [] then CurateRun(d, 0, true, 0)
    else CurateStep(CurateAll(d, items[..|items| - 1], output, env), items[|items| - 1], |items| - 1, output, env)
  }

  datatype CurateOutcome = Help | NoMatches | AllSeen | Finished(processed: nat, skipped: int) | Aborted

  /** The listing `fetchFeeds` returns: the feed loop's result cut to the
      limit, before any duplicate is removed. */
  function Listing(config: CurateConfig, env: CurateEnv): seq<FeedItem> {
    SliceTo(FetchAll(config.topics, config.daysBack, env.world), config.limit)
  }

  /** What `main` does with the listing: stop when it is empty or holds
      only articles seen before, and otherwise run the loop over the new
      ones. A failure inside the loop is caught at the top and the script
      exits with status 1, keeping whatever it had written. */
  function CurateListing(d: Disk, items: seq<FeedItem>, output: string, env: CurateEnv): (Disk, CurateOutcome) {
    if items == [] then (d, NoMatches)
    else
      var unseen := NewItems(items, Ledger.Load(d.ledger));
      if unseen == [] then (d, AllSeen)
      else
        Concluded(CurateAll(d, unseen, output, env), |items|, |unseen|)
  }

  /** The end of a run that reached the loop, with the numbers it prints. */
  function Concluded(r: CurateRun, found: nat, unseen: nat): (Disk, CurateOutcome) {
    (r.disk, if r.ok then Finished(unseen, found - unseen) else Aborted)
  }

  /** `main`. */
  function Curation(d: Disk, args: seq<string>, env: CurateEnv): (Disk, CurateOutcome) {
    match Parsed(args)
    case None => (d, Help)
    case Some(config) => CurateListing(d, Listing(config, env), config.output, env)
  }

  method CurateItems(ws: Workspace, items: seq<FeedItem>, output: string, env: CurateEnv) returns (ok: bool)
    modifies ws, ws.cache
    ensures ws.State() == CurateAll(old(ws.State()), items, output, env).disk
    ensures ok == CurateAll(old(ws.State()), items, output, env).ok
  {
    ghost var d0 := ws.State();
    ghost var processed: nat := 0;
    var calls := 0;
    var i := 0;
    while i < |items|
      invariant 0 <= i <= |items|
      invariant CurateAll(d0, items[..i], output, env) == CurateRun(ws.State(), processed, true, calls)
    {
      ghost var before := ws.State();
      assert CurateAll(d0, items[..i + 1], output, env)
          == CurateStep(CurateRun(before, processed, true, calls), items[i], i, output, env) by {
        CurateAllSnoc(d0, items, i, output, env);
      }
      var done;
      done, calls := CurateArticle(ws, items[i], output, calls, env);
      if !done {
        assert CurateAll(d0, items, output, env) == CurateAll(d0, items[..i + 1], output, env) by {
          AbortAbsorbs(d0, items, i + 1, |items|, output, env);
          assert items[..|items|] == items;
        }
        return false;
      }
      ws.cache.MarkAsProcessed(items[i].title, items[i].source, output, env.stampAt(i));
      processed := processed + 1;
      i := i + 1;
    }
    assert items[..i] == items;
    return true;
  }

  method RunNew(ws: Workspace, found: nat, newItems: seq<FeedItem>, output: string, env: CurateEnv)
    returns (outcome: CurateOutcome)
    modifies ws, ws.cache
    ensures (ws.State(), outcome) == Concluded(CurateAll(old(ws.State()), newItems, output, env), found, |newItems|)
  {
    var ok := CurateItems(ws, newItems, output, env);
    if !ok {
      return Aborted;
    }
    return Finished(|newItems|, found - |newItems|);
  }

  method RunListing(ws: Workspace, items: seq<FeedItem>, output: string, env: CurateEnv) returns (outcome: CurateOutcome)
    modifies ws, ws.cache
    ensures (ws.State(), outcome) == CurateListing(old(ws.State()), items, output, env)
  {
    if |items| == 0 {
      return NoMatches;
    }
    var newItems := FilterNew(ws.cache, items);
    if |newItems| == 0 {
      return AllSeen;
    }
    outcome := RunNew(ws, |items|, newItems, output, env);
  }

  method Run(ws: Workspace, args: seq<string>, env: CurateEnv) returns (outcome: CurateOutcome)
    modifies ws, ws.cache
    ensures (ws.State(), outcome) == Curation(old(ws.State()), args, env)
  {
    var config := ParseArgs(args);
    if config.None? {
      return Help;
    }
    var fetched := FetchAllFeeds(config.value.topics, config.value.daysBack, env.world);
    var items := SliceTo(fetched, config.value.limit);
    outcome := RunListing(ws, items, config.value.output, env);
  }

  // ---------------------------------------------------------------------
  // Properties of a run

  /** One more article adds one turn of the loop. */
  lemma CurateAllSnoc(d: Disk, items: seq<FeedItem>, i: nat, output: string, env: CurateEnv)
    requires i < |items|
    ensures CurateAll(d, items[..i + 1], output, env)
      == CurateStep(CurateAll(d, items[..i], output, env), items[i], i, output, env)
  {
    assert items[..i + 1][..i] == items[..i];
  }

  /** Once an article fails, the articles after it are neither curated
      nor recorded. */
  lemma {:induction false} AbortAbsorbs(d: Disk, items: seq<FeedItem>, j: nat, k: nat, output: string, env: CurateEnv)
    requires j <= k <= |items| && !CurateAll(d, items[..j], output, env).ok
    ensures CurateAll(d, items[..k], output, env) == CurateAll(d, items[..j], output, env)
    decreases k
  {
    if k > j {
      AbortAbsorbs(d, items, j, k - 1, output, env);
      CurateAllSnoc(d, items, k - 1, output, env);
      StepAfterAbort(CurateAll(d, items[..k - 1], output, env), items[k - 1], k - 1, output, env);
    }
  }

  /** A turn after a failed one changes nothing. */
  lemma StepAfterAbort(p: CurateRun, item: FeedItem, k: nat, output: string, env: CurateEnv)
    requires !p.ok
    ensures CurateStep(p, item, k, output, env) == p
  {
  }

  /** A run that completes recorded every article, and one that stops
      recorded only those before the failing one. */
  lemma {:induction false} ProcessedCount(d: Disk, items: seq<FeedItem>, output: string, env: CurateEnv)
    ensures var r := CurateAll(d, items, output, env);
      (r.ok ==> r.processed == |items|) && (!r.ok ==> r.processed < |items|)
    decreases |items|
  {
    if items != [] {
      ProcessedCount(d, items[..|items| - 1], output, env);
    }
  }

  /** An output name the script does not know produces no request and no
      file, yet every article is still recorded as processed. */
  lemma {:induction false} UnknownOutputStillMarked(d: Disk, items: seq<FeedItem>, output: string, env: CurateEnv)
    requires !WantsBlog(output) && !WantsLinkedin(output) && !WantsTwitter(output)
    ensures var r := CurateAll(d, items, output, env);
      r.ok && r.processed == |items| && r.calls == 0 && r.disk.blog == d.blog && r.disk.social == d.social
    ensures items != [] ==>
      var last := items[|items| - 1];
      Ledger.HasHash(Ledger.Load(CurateAll(d, items, output, env).disk.ledger), Ledger.Fingerprint(last.title, last.source))
    decreases |items|
  {
    if items != [] {
      var init := items[..|items| - 1];
      UnknownOutputStillMarked(d, init, output, env);
      var p := CurateAll(d, init, output, env);
      var last := items[|items| - 1];
      Ledger.MarkThenDuplicate(p.disk.ledger, last.title, last.source, output, env.stampAt(|items| - 1));
    }
  }

  /** The limit is applied before duplicates are removed: however many
      articles were seen before, a finished run handles at most `limit`
      of them, and fewer when some are duplicates. */
  lemma CapBeforeDedupe(d: Disk, args: seq<string>, env: CurateEnv)
    ensures Curation(d, args, env).1.Finished? ==>
      Parsed(args).Some? &&
      var n := Curation(d, args, env).1.processed + Curation(d, args, env).1.skipped;
      n == |Listing(Parsed(args).value, env)| && Curation(d, args, env).1.skipped >= 0
      && (Parsed(args).value.limit.Some? && Parsed(args).value.limit.value >= 0 ==> n <= Parsed(args).value.limit.value)
  {
    if Parsed(args).Some? {
      var config := Parsed(args).value;
      NewItemsExactlyUnseen(Listing(config, env), Ledger.Load(d.ledger));
    }
  }
}
