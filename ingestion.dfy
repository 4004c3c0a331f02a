/** The feed loop that `run-daily.ts` (`fetchAllFeeds`) and `curate.ts`
    (`fetchFeeds`) both contain, and the argument helpers their
    `parseArgs` share. */
module Ingestion {
  import opened Wrappers
  import opened JsString
  import opened Sorting
  import opened Sources
  import Classifier
  import Ledger

  /** An item as `rss-parser` returns it. A missing field is the empty
      text: both are falsy for the `||` defaults the loop applies. */
  datatype RawItem = RawItem(title: string, link: string, pubDate: string, content: string, contentSnippet: string)

  datatype FeedItem = FeedItem(title: string, link: string, pubDate: string, content: string,
                               contentSnippet: string, source: string, topics: seq<string>)

  /** `parser.parseURL(url)`: the feed's items, or a thrown error. */
  datatype Fetch = Failed | Fetched(items: seq<RawItem>)

  /** What the loop takes from outside: the feed reader, the current time
      (in milliseconds and as an ISO text), and `Date` parsing of publish
      dates. */
  datatype World = World(fetch: string -> Fetch, now: int, nowIso: string, timeOf: string -> int)

  const DayMs: int := 86_400_000

  /** The cutoff of `cutoffDate.setDate(cutoffDate.getDate() - daysBack)`,
      taken as `daysBack` days of fixed length before now. A NaN day count
      (`None`) gives an invalid date. */
  function Cutoff(now: int, daysBack: Option<int>): Option<int> {
    match daysBack
    case None => None
    case Some(d) => Some(now - d * DayMs)
  }

  /** `pubDate < cutoffDate` is false. Every comparison with an invalid date
      is false, so an invalid cutoff drops nothing. */
  predicate Recent(t: int, cutoff: Option<int>) {
    cutoff.None? || t >= cutoff.value
  }

  /** `s || d` on texts. */
  function OrElse(s: string, d: string): string {
    if s != "" then s else d
  }

  /** `item.pubDate ? new Date(item.pubDate) : new Date()`. */
  function PubTime(r: RawItem, w: World): int {
    if r.pubDate != "" then w.timeOf(r.pubDate) else w.now
  }

  /** `${item.title || ''} ${item.contentSnippet || ''} ${item.content || ''}`. */
  function FullText(r: RawItem): string {
    r.title + " " + r.contentSnippet + " " + r.content
  }

  /** The item passes both the recency and the topic filter. */
  predicate Accepted(r: RawItem, topics: seq<string>, cutoff: Option<int>, w: World) {
    Recent(PubTime(r, w), cutoff) && Classifier.Matches(FullText(r), topics)
  }

  /** The record pushed for an accepted item of the feed named `source`. */
  function ItemOf(r: RawItem, source: string, w: World): FeedItem {
    FeedItem(OrElse(r.title, "Untitled"), r.link, OrElse(r.pubDate, w.nowIso),
             OrElse(r.content, r.contentSnippet), r.contentSnippet, source,
             Classifier.Detected(FullText(r)))
  }

  /** The feed is read: the filter asks for 'all', or shares a tag with it. */
  predicate Selected(f: FeedSource, topics: seq<string>) {
    "all" in topics || exists t :: t in f.topics && t in topics
  }

  /** The records one fetched feed contributes, in feed order. */
  function FromItems(raws: seq<RawItem>, source: string, topics: seq<string>, cutoff: Option<int>, w: World): seq<FeedItem> {
    if raws == [] then []
    else
      var last := raws[|raws| - 1];
      FromItems(raws[..|raws| - 1], source, topics, cutoff, w)
      + (if Accepted(last, topics, cutoff, w) then [ItemOf(last, source, w)] else [])
  }

  /** What one feed contributes: nothing when it is not selected or its
      fetch throws. */
  function FromFeed(f: FeedSource, topics: seq<string>, cutoff: Option<int>, w: World): seq<FeedItem> {
    if !Selected(f, topics) then []
    else
      match w.fetch(f.url)
      case Failed => []
      case Fetched(raws) => FromItems(raws, f.name, topics, cutoff, w)
  }

  /** What one feed contributes, as a function of the feed. */
  function Reader(topics: seq<string>, cutoff: Option<int>, w: World): FeedSource -> seq<FeedItem> {
    (f: FeedSource) => FromFeed(f, topics, cutoff, w)
  }

  /** The records of a list of feeds, feed after feed, before sorting. */
  function Collected(feeds: seq<FeedSource>, topics: seq<string>, cutoff: Option<int>, w: World): seq<FeedItem> {
    FlatMap(feeds, Reader(topics, cutoff, w))
  }

  /** The sort key `new Date(item.pubDate).getTime()`. */
  function ByPubDate(timeOf: string -> int): FeedItem -> int {
    (it: FeedItem) => timeOf(it.pubDate)
  }

  /** What `fetchAllFeeds` returns: every record of every feed, newest first. */
  function FetchAll(topics: seq<string>, daysBack: Option<int>, w: World): seq<FeedItem> {
    SortDesc(Collected(Feeds, topics, Cutoff(w.now, daysBack), w), ByPubDate(w.timeOf))
  }

  // ---------------------------------------------------------------------
  // The loop

  lemma CollectedSnoc(feeds: seq<FeedSource>, f: FeedSource, topics: seq<string>, cutoff: Option<int>, w: World)
    ensures Collected(feeds + [f], topics, cutoff, w) == Collected(feeds, topics, cutoff, w) + FromFeed(f, topics, cutoff, w)
  {
    FlatMapSnoc(feeds, f, Reader(topics, cutoff, w));
  }

  lemma FromItemsSnoc(raws: seq<RawItem>, r: RawItem, source: string, topics: seq<string>, cutoff: Option<int>, w: World)
    ensures FromItems(raws + [r], source, topics, cutoff, w) ==
      FromItems(raws, source, topics, cutoff, w) + (if Accepted(r, topics, cutoff, w) then [ItemOf(r, source, w)] else [])
  {
    assert (raws + [r])[..|raws|] == raws;
  }

  /** The item loop over one fetched feed. */
  method ReadFeed(raws: seq<RawItem>, source: string, topics: seq<string>, cutoff: Option<int>, w: World)
    returns (got: seq<FeedItem>)
    ensures got == FromItems(raws, source, topics, cutoff, w)
  {
    got := [];
    var i := 0;
    while i < |raws|
      invariant 0 <= i <= |raws|
      invariant got == FromItems(raws[..i], source, topics, cutoff, w)
    {
      var item := raws[i];
      FromItemsSnoc(raws[..i], item, source, topics, cutoff, w);
      assert raws[..i + 1] == raws[..i] + [item];
      i := i + 1;
      var pubDate := if item.pubDate != "" then w.timeOf(item.pubDate) else w.now;
      if !Recent(pubDate, cutoff) {
        continue;
      }
      var fullText := item.title + " " + item.contentSnippet + " " + item.content;
      var matches := Classifier.MatchesTopic(fullText, topics);
      if !matches {
        continue;
      }
      var detected := Classifier.DetectTopics(fullText);
      got := got + [FeedItem(OrElse(item.title, "Untitled"), item.link, OrElse(item.pubDate, w.nowIso),
                             OrElse(item.content, item.contentSnippet), item.contentSnippet, source, detected)];
    }
    assert raws[..i] == raws;
  }

  /** `fetchAllFeeds` (and the fetching part of `fetchFeeds`). */
  method FetchAllFeeds(topics: seq<string>, daysBack: Option<int>, w: World) returns (items: seq<FeedItem>)
    ensures items == FetchAll(topics, daysBack, w)
  {
    var cutoff := Cutoff(w.now, daysBack);
    var collected := ReadFeeds(Feeds, topics, cutoff, w);
    items := SortDesc(collected, ByPubDate(w.timeOf));
  }

  /** The loop over the feed list: each selected feed's accepted items, in
      feed order. */
  method ReadFeeds(feeds: seq<FeedSource>, topics: seq<string>, cutoff: Option<int>, w: World) returns (collected: seq<FeedItem>)
    ensures collected == Collected(feeds, topics, cutoff, w)
  {
    collected := [];
    var i := 0;
    while i < |feeds|
      invariant 0 <= i <= |feeds|
      invariant collected == Collected(feeds[..i], topics, cutoff, w)
    {
      var feedSource := feeds[i];
      CollectedSnoc(feeds[..i], feedSource, topics, cutoff, w);
      assert feeds[..i + 1] == feeds[..i] + [feedSource];
      i := i + 1;
      if !("all" in topics) {
        var hasMatchingTopic := exists t :: t in feedSource.topics && t in topics;
        if !hasMatchingTopic {
          continue;
        }
      }
      match w.fetch(feedSource.url)
      case Failed =>
      case Fetched(raws) =>
        var got := ReadFeed(raws, feedSource.name, topics, cutoff, w);
        collected := collected + got;
    }
    assert feeds[..i] == feeds;
  }

  // ---------------------------------------------------------------------
  // Properties of the loop

  /** The feed list splits: feeds contribute independently of each other. */
  lemma CollectedAppend(a: seq<FeedSource>, b: seq<FeedSource>, topics: seq<string>, cutoff: Option<int>, w: World)
    ensures Collected(a + b, topics, cutoff, w) == Collected(a, topics, cutoff, w) + Collected(b, topics, cutoff, w)
  {
    FlatMapAppend(a, b, Reader(topics, cutoff, w));
  }

  /** A feed whose fetch throws contributes nothing, and the feeds after it
      are still read. */
  lemma FailingFeedSkipped(feeds: seq<FeedSource>, i: nat, topics: seq<string>, cutoff: Option<int>, w: World)
    requires i < |feeds| && w.fetch(feeds[i].url).Failed?
    ensures Collected(feeds, topics, cutoff, w) == Collected(feeds[..i], topics, cutoff, w) + Collected(feeds[i + 1..], topics, cutoff, w)
  {
    assert feeds == feeds[..i] + [feeds[i]] + feeds[i + 1..];
    CollectedAppend(feeds[..i] + [feeds[i]], feeds[i + 1..], topics, cutoff, w);
    CollectedSnoc(feeds[..i], feeds[i], topics, cutoff, w);
  }

  /** A feed sharing no tag with the filter is not read, unless the filter
      asks for 'all'. */
  lemma UnselectedFeedSkipped(f: FeedSource, topics: seq<string>, cutoff: Option<int>, w: World)
    ensures !Selected(f, topics) <==> "all" !in topics && forall t :: t in f.topics ==> t !in topics
    ensures !Selected(f, topics) ==> FromFeed(f, topics, cutoff, w) == []
  {
  }

  lemma {:induction false} FromItemsMembers(raws: seq<RawItem>, source: string, topics: seq<string>, cutoff: Option<int>, w: World, x: FeedItem)
    ensures x in FromItems(raws, source, topics, cutoff, w) <==>
      exists r :: r in raws && Accepted(r, topics, cutoff, w) && x == ItemOf(r, source, w)
    decreases |raws|
  {
    if raws != [] {
      var init := raws[..|raws| - 1];
      FromItemsMembers(init, source, topics, cutoff, w, x);
      assert raws == init + [raws[|raws| - 1]];
      assert forall r :: r in raws <==> r in init || r == raws[|raws| - 1];
    }
  }

  lemma CollectedMembers(feeds: seq<FeedSource>, topics: seq<string>, cutoff: Option<int>, w: World, x: FeedItem)
    ensures x in Collected(feeds, topics, cutoff, w) <==>
      exists i :: 0 <= i < |feeds| && x in FromFeed(feeds[i], topics, cutoff, w)
  {
    FlatMapMembers(feeds, Reader(topics, cutoff, w), x);
  }

  /** Feed `f` yields the record `x` from its item `r`. */
  predicate Yields(f: FeedSource, r: RawItem, x: FeedItem, topics: seq<string>, cutoff: Option<int>, w: World) {
    Selected(f, topics) && w.fetch(f.url).Fetched? && r in w.fetch(f.url).items
    && Accepted(r, topics, cutoff, w) && x == ItemOf(r, f.name, w)
  }

  lemma FromFeedMembers(f: FeedSource, topics: seq<string>, cutoff: Option<int>, w: World, x: FeedItem)
    ensures x in FromFeed(f, topics, cutoff, w) <==> exists r :: Yields(f, r, x, topics, cutoff, w)
  {
    if Selected(f, topics) && w.fetch(f.url).Fetched? {
      var raws := w.fetch(f.url).items;
      FromItemsMembers(raws, f.name, topics, cutoff, w, x);
      if x in FromFeed(f, topics, cutoff, w) {
        var r :| r in raws && Accepted(r, topics, cutoff, w) && x == ItemOf(r, f.name, w);
        assert Yields(f, r, x, topics, cutoff, w);
      }
      if exists r :: Yields(f, r, x, topics, cutoff, w) {
        var r :| Yields(f, r, x, topics, cutoff, w);
        assert r in raws && Accepted(r, topics, cutoff, w) && x == ItemOf(r, f.name, w);
      }
    }
  }

  /** `fetchAllFeeds` returns exactly the records of the accepted items of
      the selected feeds that could be read: each labelled with its feed's
      name, its topics detected from its text. */
  lemma FetchAllMembers(topics: seq<string>, daysBack: Option<int>, w: World, x: FeedItem)
    ensures x in FetchAll(topics, daysBack, w) <==>
      exists i, r :: 0 <= i < |Feeds| && Yields(Feeds[i], r, x, topics, Cutoff(w.now, daysBack), w)
  {
    var cutoff := Cutoff(w.now, daysBack);
    SortDescPermutes(Collected(Feeds, topics, cutoff, w), ByPubDate(w.timeOf));
    CollectedMembers(Feeds, topics, cutoff, w, x);
    forall i | 0 <= i < |Feeds| {
      FromFeedMembers(Feeds[i], topics, cutoff, w, x);
    }
  }

  /** The result is newest first, and a permutation of what the feeds gave. */
  lemma FetchAllNewestFirst(topics: seq<string>, daysBack: Option<int>, w: World)
    ensures SortedDesc(FetchAll(topics, daysBack, w), ByPubDate(w.timeOf))
    ensures multiset(FetchAll(topics, daysBack, w)) == multiset(Collected(Feeds, topics, Cutoff(w.now, daysBack), w))
  {
    SortDescSorted(Collected(Feeds, topics, Cutoff(w.now, daysBack), w), ByPubDate(w.timeOf));
  }

  /** An item without a date counts as published now, so a non-negative
      day count never drops it; a NaN day count drops nothing. */
  lemma RecencyCases(r: RawItem, daysBack: Option<int>, w: World)
    ensures r.pubDate == "" && daysBack.Some? && daysBack.value >= 0 ==> Recent(PubTime(r, w), Cutoff(w.now, daysBack))
    ensures daysBack.None? ==> Recent(PubTime(r, w), Cutoff(w.now, daysBack))
    ensures daysBack.Some? && r.pubDate != "" ==>
      (Recent(PubTime(r, w), Cutoff(w.now, daysBack)) <==> w.timeOf(r.pubDate) >= w.now - daysBack.value * DayMs)
  {
  }

  // ---------------------------------------------------------------------
  // Arguments

  /** `args[i] === flag && args[i + 1]`: a value flag takes the next
      argument only when there is one and it is not empty. */
  predicate HasValue(args: seq<string>, i: nat) {
    i + 1 < |args| && args[i + 1] != ""
  }

  /** `s.split(',').map(t => t.trim().toLowerCase())`. */
  function TopicList(s: string): seq<string> {
    var parts := Split(s, ',');
    seq(|parts|, i requires 0 <= i < |parts| => ToLower(Trim(parts[i])))
  }

  /** `u` is the run of `s` that starts at `k`. */
  predicate RunOf(u: string, s: string, k: nat) {
    k + |u| <= |s| && forall j :: 0 <= j < |u| ==> u[j] == s[k + j]
  }

  /** Trimming keeps a run of the text's characters. */
  lemma TrimmedPiece(s: string)
    ensures RunOf(Trim(s), s, |s| - |TrimStart(s)|)
  {
    var m := TrimStart(s);
    PrefixChars(TrimEnd(m), m);
    SuffixChars(s, m, |s| - |m|);
  }

  lemma PrefixChars(t: string, m: string)
    requires t <= m
    ensures forall j :: 0 <= j < |t| ==> t[j] == m[j]
  {
  }

  lemma SuffixChars(s: string, m: string, k: nat)
    requires k <= |s| && m == s[k..]
    ensures k + |m| == |s| && forall j :: 0 <= j < |m| ==> m[j] == s[k + j]
  {
  }

  /** A trimmed text neither starts nor ends with white space. */
  lemma TrimmedEnds(s: string)
    ensures EndsNotSpace(Trim(s))
  {
    var m := TrimStart(s);
    var t := TrimEnd(m);
    if t != [] {
      assert t[0] == m[0];
    }
  }

  predicate EndsNotSpace(t: string) {
    t == [] || (!IsSpace(t[0]) && !IsSpace(t[|t| - 1]))
  }

  lemma TopicNormalised(part: string)
    requires ',' !in part
    ensures NormalTopic(ToLower(Trim(part)))
  {
    TrimmedPiece(part);
    TrimmedEnds(part);
    NormalOfRun(Trim(part), part, |part| - |TrimStart(part)|);
  }

  /** A run of a comma-free text that does not start or end with white
      space is a normal topic once lower-cased. */
  lemma NormalOfRun(u: string, s: string, k: nat)
    requires ',' !in s && RunOf(u, s, k) && EndsNotSpace(u)
    ensures NormalTopic(ToLower(u))
  {
    NoCommaLowered(u, s, k);
    ToLowerIdempotent(u);
    if u != [] {
      LowerKeepsPunctuation(u[0]);
      LowerKeepsPunctuation(u[|u| - 1]);
    }
  }

  /** A run of a comma-free text stays comma-free when lower-cased. */
  lemma NoCommaLowered(u: string, s: string, k: nat)
    requires ',' !in s && RunOf(u, s, k)
    ensures ',' !in ToLower(u)
  {
    var t := ToLower(u);
    forall j | 0 <= j < |t| ensures t[j] != ',' {
      assert u[j] == s[k + j];
    }
  }

  /** A requested topic as `parseArgs` leaves it: lower case, without a
      comma, without surrounding white space. */
  predicate NormalTopic(t: string) {
    IsLower(t) && ',' !in t && EndsNotSpace(t)
  }

  /** Each requested topic is one piece of the comma-separated list, in
      normal form. */
  lemma TopicListNormalised(s: string)
    ensures |TopicList(s)| == |Split(s, ',')| >= 1
    ensures forall i :: 0 <= i < |TopicList(s)| ==> NormalTopic(TopicList(s)[i])
  {
    var parts := Split(s, ',');
    forall i | 0 <= i < |parts| ensures NormalTopic(TopicList(s)[i]) {
      TopicNormalised(parts[i]);
    }
  }

  // ---------------------------------------------------------------------
  // The duplicate filter both scripts apply to what the feeds return

  predicate IsNew(x: FeedItem, entries: seq<Ledger.Entry>) {
    !Ledger.HasHash(entries, Ledger.Fingerprint(x.title, x.source))
  }

  /** `allItems.filter(item => !isDuplicate(item.title, item.source))`. */
  function NewItems(items: seq<FeedItem>, entries: seq<Ledger.Entry>): seq<FeedItem> {
    Filter(items, NotSeen(entries))
  }

  function NotSeen(entries: seq<Ledger.Entry>): FeedItem -> bool {
    (x: FeedItem) => IsNew(x, entries)
  }

  lemma NewItemsSnoc(items: seq<FeedItem>, i: nat, entries: seq<Ledger.Entry>)
    requires i < |items|
    ensures NewItems(items[..i + 1], entries)
            == NewItems(items[..i], entries) + (if IsNew(items[i], entries) then [items[i]] else [])
  {
    assert items[..i + 1] == items[..i] + [items[i]];
    FilterSnoc(items[..i], items[i], NotSeen(entries));
  }

  /** The duplicate filter, one ledger lookup per article. */
  method FilterNew(cache: Ledger.ContentCache, items: seq<FeedItem>) returns (unseen: seq<FeedItem>)
    ensures unseen == NewItems(items, Ledger.Load(cache.file))
  {
    unseen := [];
    var i := 0;
    while i < |items|
      invariant 0 <= i <= |items|
      invariant unseen == NewItems(items[..i], Ledger.Load(cache.file))
    {
      NewItemsSnoc(items, i, Ledger.Load(cache.file));
      var dup := cache.IsDuplicate(items[i].title, items[i].source);
      if !dup {
        unseen := unseen + [items[i]];
      }
      i := i + 1;
    }
    assert items[..i] == items;
  }


  /** The filter keeps exactly the articles the ledger does not hold, in
      their order, and never adds one. */
  lemma NewItemsExactlyUnseen(items: seq<FeedItem>, entries: seq<Ledger.Entry>)
    ensures forall x :: x in NewItems(items, entries) <==> x in items && IsNew(x, entries)
    ensures Subsequence(NewItems(items, entries), items) && |NewItems(items, entries)| <= |items|
  {
    forall x ensures x in NewItems(items, entries) <==> x in items && IsNew(x, entries) {
      FilterMembers(items, NotSeen(entries), x);
    }
    FilterKeepsOrder(items, NotSeen(entries));
    FilterShorter(items, NotSeen(entries));
  }
}
