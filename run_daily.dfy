/** The daily orchestrator (`run-daily.ts`): its arguments, the choice of
    articles, the dry run, and the per-item loop that generates, writes
    and records each article, counting successes and errors. */
module RunDaily {
  import opened Wrappers
  import opened JsString
  import opened Ingestion
  import opened Pipeline
  import Ledger
  import Validator
  import Classifier

  datatype DailyConfig = DailyConfig(articles: Option<int>, topics: seq<string>, daysBack: Option<int>,
                                     dryRun: bool, useSearch: bool)

  const Defaults: DailyConfig := DailyConfig(Some(2), ["all"], Some(3), false, false)

  // ---------------------------------------------------------------------
  // Arguments

  /** The argument loop of `parseArgs` from index `i` on. */
  function ArgsFrom(args: seq<string>, i: nat, c: DailyConfig): DailyConfig
    decreases |args| - i
  {
    if i >= |args| then c
    else if args[i] == "--articles" && HasValue(args, i) then ArgsFrom(args, i + 2, c.(articles := ParseInt(args[i + 1])))
    else if args[i] == "--topics" && HasValue(args, i) then ArgsFrom(args, i + 2, c.(topics := TopicList(args[i + 1])))
    else if args[i] == "--days" && HasValue(args, i) then ArgsFrom(args, i + 2, c.(daysBack := ParseInt(args[i + 1])))
    else if args[i] == "--dry-run" then ArgsFrom(args, i + 1, c.(dryRun := true))
    else if args[i] == "--use-search" then ArgsFrom(args, i + 1, c.(useSearch := true))
    else ArgsFrom(args, i + 1, c)
  }

  /** The configuration `parseArgs` builds from `process.argv.slice(2)`. */
  function Parsed(args: seq<string>): DailyConfig {
    ArgsFrom(args, 0, Defaults)
  }

  method ParseArgs(args: seq<string>) returns (config: DailyConfig)
    ensures config == Parsed(args)
  {
    config := Defaults;
    var i := 0;
    while i < |args|
      invariant 0 <= i <= |args|
      invariant ArgsFrom(args, i, config) == Parsed(args)
    {
      i, config := ArgStep(args, i, config);
    }
  }

  /** One turn of the argument loop: the index after the flag (and its
      value, when it takes one) and the configuration it leaves. */
  method ArgStep(args: seq<string>, i: nat, c: DailyConfig) returns (next: nat, c': DailyConfig)
    requires i < |args|
    ensures i < next <= |args|
    ensures ArgsFrom(args, next, c') == ArgsFrom(args, i, c)
  {
    ArgsFromStep(args, i, c);
    next, c' := i + 1, c;
    if args[i] == "--articles" && HasValue(args, i) {
      next, c' := i + 2, c.(articles := ParseInt(args[i + 1]));
    } else if args[i] == "--topics" && HasValue(args, i) {
      next, c' := i + 2, c.(topics := TopicList(args[i + 1]));
    } else if args[i] == "--days" && HasValue(args, i) {
      next, c' := i + 2, c.(daysBack := ParseInt(args[i + 1]));
    } else if args[i] == "--dry-run" {
      c' := c.(dryRun := true);
    } else if args[i] == "--use-search" {
      c' := c.(useSearch := true);
    }
  }

  /** One unfolding of the argument loop, branch by branch. */
  lemma ArgsFromStep(args: seq<string>, i: nat, c: DailyConfig)
    requires i < |args|
    ensures var articles, topics := args[i] == "--articles" && HasValue(args, i), args[i] == "--topics" && HasValue(args, i);
      var days := args[i] == "--days" && HasValue(args, i);
      (articles ==> ArgsFrom(args, i, c) == ArgsFrom(args, i + 2, c.(articles := ParseInt(args[i + 1]))))
      && (!articles && topics ==> ArgsFrom(args, i, c) == ArgsFrom(args, i + 2, c.(topics := TopicList(args[i + 1]))))
      && (!articles && !topics && days ==>
          ArgsFrom(args, i, c) == ArgsFrom(args, i + 2, c.(daysBack := ParseInt(args[i + 1]))))
      && (!articles && !topics && !days ==>
          ArgsFrom(args, i, c) == if args[i] == "--dry-run" then ArgsFrom(args, i + 1, c.(dryRun := true))
                                  else if args[i] == "--use-search" then ArgsFrom(args, i + 1, c.(useSearch := true))
                                  else ArgsFrom(args, i + 1, c))
  {
  }

  predicate IsValueFlag(a: string) {
    a == "--articles" || a == "--topics" || a == "--days"
  }

  /** A value flag with nothing usable after it is skipped on its own: the
      argument after it, if any, is read as an argument in its own right. */
  lemma FlagWithoutValueSkipped(args: seq<string>, i: nat, c: DailyConfig)
    requires i < |args| && IsValueFlag(args[i]) && !HasValue(args, i)
    ensures ArgsFrom(args, i, c) == ArgsFrom(args, i + 1, c)
  {
  }

  /** `--articles` followed by a numeral sets the article count. */
  lemma ArticlesFlag(n: nat)
    ensures Parsed(["--articles", NatToString(n)]) == Defaults.(articles := Some(n))
  {
    var args := ["--articles", NatToString(n)];
    ParseIntOfNumeral(n);
    assert HasValue(args, 0);
    assert ArgsFrom(args, 0, Defaults) == ArgsFrom(args, 2, Defaults.(articles := Some(n)));
  }

  /** `--days` followed by a numeral sets the look-back window. */
  lemma DaysFlag(n: nat)
    ensures Parsed(["--days", NatToString(n)]) == Defaults.(daysBack := Some(n))
  {
    var args := ["--days", NatToString(n)];
    ParseIntOfNumeral(n);
    assert HasValue(args, 0);
    assert ArgsFrom(args, 0, Defaults) == ArgsFrom(args, 2, Defaults.(daysBack := Some(n)));
  }

  /** A value flag takes the argument after it even when that looks like a
      flag: the count becomes NaN and the dry run is not switched on. */
  lemma ValueFlagTakesNext()
    ensures Parsed(["--articles", "--dry-run"]) == Defaults.(articles := None)
  {
    var args := ["--articles", "--dry-run"];
    assert HasValue(args, 0);
    assert TrimStart("--dry-run") == "--dry-run";
    assert DigitPrefix("-dry-run") == [];
    assert ParseInt("--dry-run") == None;
    assert ArgsFrom(args, 0, Defaults) == ArgsFrom(args, 2, Defaults.(articles := None));
  }

  lemma {:induction false} ArgsFromTopics(args: seq<string>, i: nat, c: DailyConfig)
    requires forall k :: 0 <= k < |c.topics| ==> NormalTopic(c.topics[k])
    ensures forall k :: 0 <= k < |ArgsFrom(args, i, c).topics| ==> NormalTopic(ArgsFrom(args, i, c).topics[k])
    decreases |args| - i
  {
    if i < |args| {
      if args[i] == "--articles" && HasValue(args, i) {
        ArgsFromTopics(args, i + 2, c.(articles := ParseInt(args[i + 1])));
      } else if args[i] == "--topics" && HasValue(args, i) {
        TopicListNormalised(args[i + 1]);
        ArgsFromTopics(args, i + 2, c.(topics := TopicList(args[i + 1])));
      } else if args[i] == "--days" && HasValue(args, i) {
        ArgsFromTopics(args, i + 2, c.(daysBack := ParseInt(args[i + 1])));
      } else if args[i] == "--dry-run" {
        ArgsFromTopics(args, i + 1, c.(dryRun := true));
      } else if args[i] == "--use-search" {
        ArgsFromTopics(args, i + 1, c.(useSearch := true));
      } else {
        ArgsFromTopics(args, i + 1, c);
      }
    }
  }

  /** Whatever the arguments, every requested topic is trimmed, lower case
      and free of commas. */
  lemma ParsedTopicsNormal(args: seq<string>)
    ensures forall k :: 0 <= k < |Parsed(args).topics| ==> NormalTopic(Parsed(args).topics[k])
  {
    assert NormalTopic("all");
    ArgsFromTopics(args, 0, Defaults);
  }

  // ---------------------------------------------------------------------
  // Where the articles come from

  datatype SearchResult = SearchResult(title: string, url: string, date: string, summary: string, source: string)

  /** `searchNews(query, { daysBack, limit })`: results, or a thrown error. */
  type Searcher = (string, Option<int>, Option<int>) -> Option<seq<SearchResult>>

  /** The query `fetchWithGrokSearch` sends. */
  function SearchQuery(topics: seq<string>): string {
    if "all" in topics then "AI, Shopify, e-commerce, CRO, web performance" else Join(topics, ", ")
  }

  /** The record made from one search result. */
  function FromSearch(r: SearchResult): FeedItem {
    FeedItem(r.title, r.url, r.date, r.summary, r.summary, r.source, Classifier.Detected(r.title + " " + r.summary))
  }

  /** `config.articles * 2`; NaN stays NaN. */
  function Doubled(n: Option<int>): Option<int> {
    match n
    case None => None
    case Some(v) => Some(2 * v)
  }

  /** Everything a run takes from outside: feeds and clock, the search
      backend, the generation backend and its prompts (left opaque),
      `slugify`, and the time stamp of the mark for the `k`-th article. */
  datatype DailyEnv = DailyEnv(world: World, search: Searcher, gen: Generator,
                               blogPrompt: FeedItem -> string, linkedinPrompt: FeedItem -> string,
                               twitterPrompt: FeedItem -> string,
                               slugify: string -> string, stampAt: nat -> string)

  /** The candidate articles: the search results mapped to records, or
      the feed loop's result; `None` when the search throws. */
  function Gathered(config: DailyConfig, env: DailyEnv): Option<seq<FeedItem>> {
    if config.useSearch then
      match env.search(SearchQuery(config.topics), config.daysBack, Doubled(config.articles))
      case None => None
      case Some(rs) => Some(seq(|rs|, i requires 0 <= i < |rs| => FromSearch(rs[i])))
    else Some(FetchAll(config.topics, config.daysBack, env.world))
  }

  /** `fetchWithGrokSearch`. */
  method FetchWithSearch(config: DailyConfig, env: DailyEnv) returns (items: Option<seq<FeedItem>>)
    requires config.useSearch
    ensures items == Gathered(config, env)
  {
    var results := env.search(SearchQuery(config.topics), config.daysBack, Doubled(config.articles));
    if results.None? {
      return None;
    }
    var rs := results.value;
    var mapped: seq<FeedItem> := [];
    var i := 0;
    while i < |rs|
      invariant 0 <= i <= |rs|
      invariant |mapped| == i && forall k :: 0 <= k < i ==> mapped[k] == FromSearch(rs[k])
    {
      var topics := Classifier.DetectTopics(rs[i].title + " " + rs[i].summary);
      mapped := mapped + [FeedItem(rs[i].title, rs[i].url, rs[i].date, rs[i].summary, rs[i].summary, rs[i].source, topics)];
      i := i + 1;
    }
    assert mapped == seq(|rs|, k requires 0 <= k < |rs| => FromSearch(rs[k]));
    return Some(mapped);
  }

  // ---------------------------------------------------------------------
  // The cap

  /** The articles a run works on: `newItems.slice(0, config.articles)`. */
  function ToProcess(items: seq<FeedItem>, entries: seq<Ledger.Entry>, articles: Option<int>): seq<FeedItem> {
    SliceTo(NewItems(items, entries), articles)
  }

  /** The cap is applied after the duplicate filter: the run takes the
      first `n` articles not yet in the ledger, in listing order, and as
      many as there are when fewer remain. */
  lemma CapAfterDedupe(items: seq<FeedItem>, entries: seq<Ledger.Entry>, n: nat)
    ensures var chosen := ToProcess(items, entries, Some(n));
      |chosen| == (if n < |NewItems(items, entries)| then n else |NewItems(items, entries)|)
      && chosen <= NewItems(items, entries)
      && Subsequence(NewItems(items, entries), items)
      && forall x :: x in chosen ==> x in items && IsNew(x, entries)
  {
    NewItemsExactlyUnseen(items, entries);
  }

  // ---------------------------------------------------------------------
  // The per-item loop

  /** The state after one item, whether it succeeded, and the number of
      generation requests made so far. */
  datatype Step = Step(disk: Disk, ok: bool, calls: nat)

  /** One pass of the `try` block: generate and clean the post, write it,
      generate both social posts (both requests are issued together), write
      them, then record the article. A failed request ends the pass with
      whatever was written so far, and the article is not recorded. */
  function ProcessItem(d: Disk, item: FeedItem, k: nat, calls: nat, env: DailyEnv): Step {
    var blog := env.gen(calls, env.blogPrompt(item));
    if blog.Failure? then Step(d, false, calls + 1)
    else
      var d1 := d.(blog := d.blog[PostFile(BlogSlug(env.slugify, item.title)) := Validator.Cleaned(blog.text)]);
      var li := env.gen(calls + 1, env.linkedinPrompt(item));
      var tw := env.gen(calls + 2, env.twitterPrompt(item));
      if li.Failure? || tw.Failure? then Step(d1, false, calls + 3)
      else
        var ss := SocialSlug(env.slugify, item.title);
        var d2 := d1.(social := d1.social[LinkedinFile(ss) := Validator.Cleaned(li.text)]
                                         [TwitterFile(ss) := ReplaceFirst(Validator.Cleaned(tw.text), "[LINK]", item.link)]);
        Step(d2.(ledger := Ledger.Marked(d2.ledger, item.title, item.source, "all", env.stampAt(k))), true, calls + 3)
  }

  datatype Progress = Progress(disk: Disk, success: nat, errors: nat, calls: nat)

  /** The loop over the chosen articles, one pass each. */
  function ProcessAll(d: Disk, items: seq<FeedItem>, env: DailyEnv): Progress {
    if items == [] then Progress(d, 0, 0, 0)
    else
      var p := ProcessAll(d, items[..|items| - 1], env);
      var s := ProcessItem(p.disk, items[|items| - 1], |items| - 1, p.calls, env);
      Progress(s.disk, p.success + (if s.ok then 1 else 0), p.errors + (if s.ok then 0 else 1), s.calls)
  }

  /** How a run ends: the search threw, nothing was new, a dry run listed
      the chosen articles, or the loop ran with these counts. */
  datatype DailyOutcome = PipelineFailed | NothingNew | DryRun(toProcess: seq<FeedItem>) | Completed(success: nat, errors: nat)

  /** `main`. */
  function Daily(d: Disk, args: seq<string>, env: DailyEnv): (Disk, DailyOutcome) {
    var config := Parsed(args);
    match Gathered(config, env)
    case None => (d, PipelineFailed)
    case Some(all) =>
      var unseen := NewItems(all, Ledger.Load(d.ledger));
      if unseen == [] then (d, NothingNew)
      else
        var chosen := SliceTo(unseen, config.articles);
        if config.dryRun then (d, DryRun(chosen))
        else
          var p := ProcessAll(d, chosen, env);
          (p.disk, Completed(p.success, p.errors))
  }

  /** The body of the `try` block for one article. */
  method ProcessOne(ws: Workspace, item: FeedItem, k: nat, calls: nat, env: DailyEnv) returns (ok: bool, callsAfter: nat)
    modifies ws, ws.cache
    ensures Step(ws.State(), ok, callsAfter) == ProcessItem(old(ws.State()), item, k, calls, env)
  {
    var blog := env.gen(calls, env.blogPrompt(item));
    if blog.Failure? {
      return false, calls + 1;
    }
    var blogContent := Validator.CleanContent(blog.text);
    var slug := BlogSlug(env.slugify, item.title);
    ws.WriteBlog(slug + ".mdx", blogContent);
    var validation := Validator.ValidateContent(blogContent);
    var linkedin := env.gen(calls + 1, env.linkedinPrompt(item));
    var twitter := env.gen(calls + 2, env.twitterPrompt(item));
    if linkedin.Failure? || twitter.Failure? {
      return false, calls + 3;
    }
    var cleanLinkedin := Validator.CleanContent(linkedin.text);
    var cleanTwitter := Validator.CleanContent(twitter.text);
    var socialSlug := SocialSlug(env.slugify, item.title);
    ws.WriteSocial("linkedin-" + socialSlug + ".txt", cleanLinkedin);
    ws.WriteSocial("twitter-" + socialSlug + ".txt", ReplaceFirst(cleanTwitter, "[LINK]", item.link));
    ws.cache.MarkAsProcessed(item.title, item.source, "all", env.stampAt(k));
    return true, calls + 3;
  }

  /** The loop over the chosen articles; an error in one is counted and
      the loop goes on. */
  method ProcessItems(ws: Workspace, toProcess: seq<FeedItem>, env: DailyEnv) returns (successCount: nat, errorCount: nat)
    modifies ws, ws.cache
    ensures var p := ProcessAll(old(ws.State()), toProcess, env);
      ws.State() == p.disk && successCount == p.success && errorCount == p.errors
  {
    ghost var d0 := ws.State();
    successCount, errorCount := 0, 0;
    var calls := 0;
    var i := 0;
    while i < |toProcess|
      invariant 0 <= i <= |toProcess|
      invariant ProcessAll(d0, toProcess[..i], env) == Progress(ws.State(), successCount, errorCount, calls)
    {
      assert toProcess[..i + 1][..i] == toProcess[..i];
      var ok;
      ok, calls := ProcessOne(ws, toProcess[i], i, calls, env);
      if ok {
        successCount := successCount + 1;
      } else {
        errorCount := errorCount + 1;
      }
      i := i + 1;
    }
    assert toProcess[..i] == toProcess;
  }

  method Run(ws: Workspace, args: seq<string>, env: DailyEnv) returns (outcome: DailyOutcome)
    modifies ws, ws.cache
    ensures (ws.State(), outcome) == Daily(old(ws.State()), args, env)
  {
    var config := ParseArgs(args);
    var allItems: Option<seq<FeedItem>>;
    if config.useSearch {
      allItems := FetchWithSearch(config, env);
    } else {
      var fetched := FetchAllFeeds(config.topics, config.daysBack, env.world);
      allItems := Some(fetched);
    }
    if allItems.None? {
      return PipelineFailed;
    }
    var newItems := FilterNew(ws.cache, allItems.value);
    if |newItems| == 0 {
      return NothingNew;
    }
    var toProcess := SliceTo(newItems, config.articles);
    if config.dryRun {
      return DryRun(toProcess);
    }
    var successCount, errorCount := ProcessItems(ws, toProcess, env);
    return Completed(successCount, errorCount);
  }

  // ---------------------------------------------------------------------
  // Properties of a run

  /** Every chosen article is counted once, as a success or as an error:
      a failing article never stops the ones after it. */
  lemma {:induction false} CountsAddUp(d: Disk, items: seq<FeedItem>, env: DailyEnv)
    ensures ProcessAll(d, items, env).success + ProcessAll(d, items, env).errors == |items|
    decreases |items|
  {
    if items != [] {
      CountsAddUp(d, items[..|items| - 1], env);
    }
  }

  /** An article succeeds exactly when all three of its requests return
      text; it is then recorded, after its post and both social files are
      written, and the next duplicate check finds it. */
  lemma MarkedOnlyAfterWrites(d: Disk, item: FeedItem, k: nat, calls: nat, env: DailyEnv)
    ensures var s := ProcessItem(d, item, k, calls, env);
      s.ok <==> env.gen(calls, env.blogPrompt(item)).Text? && env.gen(calls + 1, env.linkedinPrompt(item)).Text?
                && env.gen(calls + 2, env.twitterPrompt(item)).Text?
    ensures var s := ProcessItem(d, item, k, calls, env);
      var ss := SocialSlug(env.slugify, item.title);
      s.ok ==>
        s.disk.blog[PostFile(BlogSlug(env.slugify, item.title))] == Validator.Cleaned(env.gen(calls, env.blogPrompt(item)).text)
        && s.disk.social[LinkedinFile(ss)] == Validator.Cleaned(env.gen(calls + 1, env.linkedinPrompt(item)).text)
        && s.disk.social[TwitterFile(ss)] ==
             ReplaceFirst(Validator.Cleaned(env.gen(calls + 2, env.twitterPrompt(item)).text), "[LINK]", item.link)
        && Ledger.HasHash(Ledger.Load(s.disk.ledger), Ledger.Fingerprint(item.title, item.source))
  {
    var s := ProcessItem(d, item, k, calls, env);
    if s.ok {
      var ss := SocialSlug(env.slugify, item.title);
      SocialFilesDistinct(ss, ss);
      var before := s.disk.(ledger := d.ledger);
      Ledger.MarkThenDuplicate(d.ledger, item.title, item.source, "all", env.stampAt(k));
    }
  }

  /** A failed article is not recorded, so a later run picks it up again;
      when its first request fails nothing at all is written. */
  lemma FailedItemNotMarked(d: Disk, item: FeedItem, k: nat, calls: nat, env: DailyEnv)
    ensures var s := ProcessItem(d, item, k, calls, env);
      !s.ok ==> s.disk.ledger == d.ledger && s.disk.social == d.social
    ensures env.gen(calls, env.blogPrompt(item)).Failure? ==> ProcessItem(d, item, k, calls, env).disk == d
  {
  }

  /** Only the first `[LINK]` of the tweet becomes the article's link; any
      later one stays as it is. */
  lemma TweetLinkFirstOnly(tweet: string, link: string)
    requires Contains(tweet, "[LINK]")
    ensures exists i ::
              OccursAt(tweet, "[LINK]", i) && (forall j :: 0 <= j < i ==> !OccursAt(tweet, "[LINK]", j))
              && ReplaceFirst(tweet, "[LINK]", link) == tweet[..i] + link + tweet[i + 6..]
  {
    ReplaceFirstSplits(tweet, "[LINK]", link);
  }

  /** A dry run, a run with nothing new and a failed search change no
      file. */
  lemma OnlyCompletedRunsWrite(d: Disk, args: seq<string>, env: DailyEnv)
    ensures !Daily(d, args, env).1.Completed? ==> Daily(d, args, env).0 == d
    ensures Parsed(args).dryRun ==> Daily(d, args, env).0 == d
  {
  }

  /** What a run that generates nothing reports does not depend on the
      generation backend. */
  lemma NoGenerationUnlessCompleted(d: Disk, args: seq<string>, env: DailyEnv, other: Generator)
    ensures !Daily(d, args, env).1.Completed? ==> Daily(d, args, env.(gen := other)) == Daily(d, args, env)
  {
    var config := Parsed(args);
    assert Gathered(config, env.(gen := other)) == Gathered(config, env);
  }
}
