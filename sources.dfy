/** The static feed registry and the topic keyword table
    (`feeds/sources.ts`). */
module Sources {
  import opened Wrappers
  import opened JsString

  datatype FeedSource = FeedSource(name: string, url: string, topics: seq<string>)

  const Feeds: seq<FeedSource> := [
    FeedSource("Shopify Blog", "https://www.shopify.com/blog/feed", ["shopify", "ecommerce", "development"]),
    FeedSource("Shopify Engineering", "https://shopify.engineering/feed", ["shopify", "development", "performance"]),
    FeedSource("Shopify Partners", "https://www.shopify.com/partners/blog/feed", ["shopify", "development", "business"]),
    FeedSource("BigCommerce Blog", "https://www.bigcommerce.com/blog/feed/", ["ecommerce", "cro"]),
    FeedSource("Practical Ecommerce", "https://www.practicalecommerce.com/feed", ["ecommerce", "shopify", "cro"]),
    FeedSource("Moz Blog", "https://moz.com/blog/feed", ["seo"]),
    FeedSource("Search Engine Journal", "https://www.searchenginejournal.com/feed/", ["seo"]),
    FeedSource("CXL", "https://cxl.com/blog/feed/", ["cro", "conversion"]),
    FeedSource("Baymard Institute", "https://baymard.com/blog.rss", ["cro", "ecommerce", "ux"]),
    FeedSource("Ahrefs Blog", "https://ahrefs.com/blog/feed/", ["seo"]),
    FeedSource("web.dev", "https://web.dev/feed.xml", ["speed", "performance", "development"]),
    FeedSource("Smashing Magazine", "https://www.smashingmagazine.com/feed/", ["development", "performance", "design"]),
    FeedSource("CSS-Tricks", "https://css-tricks.com/feed/", ["development", "performance"]),
    FeedSource("Anthropic News", "https://www.anthropic.com/feed.xml", ["ai", "llm"]),
    FeedSource("OpenAI Blog", "https://openai.com/blog/rss/", ["ai", "llm"]),
    FeedSource("Hugging Face Blog", "https://huggingface.co/blog/feed.xml", ["ai", "llm", "development"]),
    FeedSource("LangChain Blog", "https://blog.langchain.dev/rss/", ["ai", "llm", "development"]),
    FeedSource("Vercel Blog", "https://vercel.com/blog/rss.xml", ["ai", "development", "performance"]),
    FeedSource("The Rundown AI", "https://www.therundown.ai/rss", ["ai", "llm"]),
    FeedSource("AI News (Google)", "https://blog.google/technology/ai/rss/", ["ai", "llm"])
  ]

  /** The keyword record, its entries in declaration order (the order in
      which `Object.entries` yields them). */
  const TopicKeywords: seq<(string, seq<string>)> := [
    ("seo", SeoKeywords), ("cro", CroKeywords), ("speed", SpeedKeywords),
    ("ai", AiKeywords), ("shopify", ShopifyKeywords), ("development", DevelopmentKeywords)
  ]

  const SeoKeywords: seq<string> := ["seo", "search engine", "ranking", "google", "indexing", "keywords", "backlinks", "serp", "organic traffic"]
  const CroKeywords: seq<string> := ["conversion", "cro", "a/b test", "optimization", "checkout", "cart abandonment", "user experience", "bounce rate", "funnel"]
  const SpeedKeywords: seq<string> := ["speed", "performance", "pagespeed", "core web vitals", "lcp", "fid", "cls", "lighthouse", "load time", "ttfb", "tti"]
  const AiKeywords: seq<string> := ["ai", "artificial intelligence", "machine learning", "llm", "gpt", "claude", "automation", "chatbot", "langchain", "rag", "embeddings", "vector"]
  const ShopifyKeywords: seq<string> := ["shopify", "liquid", "theme", "storefront", "checkout", "ecommerce", "e-commerce", "store", "merchant", "headless"]
  const DevelopmentKeywords: seq<string> := ["javascript", "typescript", "react", "next.js", "api", "code", "developer", "frontend", "backend", "node"]

  /** The keys of a table of pairs, in order. */
  function KeyNames(table: seq<(string, seq<string>)>): (names: seq<string>)
    ensures |names| == |table|
    ensures forall i :: 0 <= i < |names| ==> names[i] == table[i].0
  {
    seq(|table|, i requires 0 <= i < |table| => table[i].0)
  }

  /** The topic names, in declaration order. */
  function TopicNames(): seq<string> {
    KeyNames(TopicKeywords)
  }

  function LookupIn(table: seq<(string, seq<string>)>, topic: string): (r: Option<seq<string>>)
    ensures r.None? <==> forall i :: 0 <= i < |table| ==> table[i].0 != topic
    ensures r.Some? ==> exists i :: 0 <= i < |table| && table[i] == (topic, r.value)
  {
    if table == [] then None
    else if table[0].0 == topic then Some(table[0].1)
    else
      var r := LookupIn(table[1..], topic);
      assert r.Some? ==> exists i :: 0 <= i < |table[1..]| && table[1..][i] == (topic, r.value);
      assert forall i :: 0 <= i < |table[1..]| ==> table[1..][i] == table[i + 1];
      r
  }

  /** `topicKeywords[topic]`: the keyword list of a declared topic, if any. */
  function KeywordsFor(topic: string): Option<seq<string>> {
    LookupIn(TopicKeywords, topic)
  }

  // ---------------------------------------------------------------------
  // Properties of the tables

  predicate WellFormedFeed(f: FeedSource) {
    f.name != [] && StartsWith(f.url, "https://") && f.topics != []
  }

  lemma FeedsWellFormedFrom0()
    ensures WellFormedFeed(Feeds[0])
    ensures WellFormedFeed(Feeds[1])
    ensures WellFormedFeed(Feeds[2])
    ensures WellFormedFeed(Feeds[3])
    ensures WellFormedFeed(Feeds[4])
  {
  }

  lemma FeedsWellFormedFrom5()
    ensures WellFormedFeed(Feeds[5])
    ensures WellFormedFeed(Feeds[6])
    ensures WellFormedFeed(Feeds[7])
    ensures WellFormedFeed(Feeds[8])
    ensures WellFormedFeed(Feeds[9])
  {
  }

  lemma FeedsWellFormedFrom10()
    ensures WellFormedFeed(Feeds[10])
    ensures WellFormedFeed(Feeds[11])
    ensures WellFormedFeed(Feeds[12])
    ensures WellFormedFeed(Feeds[13])
    ensures WellFormedFeed(Feeds[14])
  {
  }

  lemma FeedsWellFormedFrom15()
    ensures WellFormedFeed(Feeds[15])
    ensures WellFormedFeed(Feeds[16])
    ensures WellFormedFeed(Feeds[17])
    ensures WellFormedFeed(Feeds[18])
    ensures WellFormedFeed(Feeds[19])
  {
  }

  /** Every feed has a name, an https URL and at least one topic tag. */
  lemma FeedsWellFormed()
    ensures forall i :: 0 <= i < |Feeds| ==> WellFormedFeed(Feeds[i])
  {
    FeedsWellFormedFrom0();
    FeedsWellFormedFrom5();
    FeedsWellFormedFrom10();
    FeedsWellFormedFrom15();
  }

  /** Exactly six topics, in the order seo, cro, speed, ai, shopify, development. */
  lemma TopicOrder()
    ensures TopicNames() == ["seo", "cro", "speed", "ai", "shopify", "development"]
  {
  }

  /** Feed tags that have no keyword list of their own. */
  const UnlistedTags: seq<string> := ["ecommerce", "performance", "business", "conversion", "ux", "llm", "design"]

  lemma UnlistedTagsHaveNoKeywords()
    ensures forall t :: t in UnlistedTags ==> KeywordsFor(t).None?
  {
    TopicOrder();
    forall t | t in UnlistedTags ensures KeywordsFor(t).None? {
      assert t !in TopicNames();
    }
  }

  lemma UnlistedTagsAreFeedTags()
    ensures forall t :: t in UnlistedTags ==> exists i :: 0 <= i < |Feeds| && t in Feeds[i].topics
  {
    assert "ecommerce" in Feeds[0].topics && "performance" in Feeds[1].topics;
    assert "business" in Feeds[2].topics && "conversion" in Feeds[7].topics;
    assert "ux" in Feeds[8].topics && "llm" in Feeds[13].topics && "design" in Feeds[11].topics;
  }

  /** 'checkout' is a keyword of both cro and shopify. */
  lemma CheckoutListedTwice()
    ensures KeywordsFor("cro").Some? && "checkout" in KeywordsFor("cro").value
    ensures KeywordsFor("shopify").Some? && "checkout" in KeywordsFor("shopify").value
  {
    assert KeywordsFor("cro") == Some(CroKeywords) by {
      assert TopicKeywords[0].0 != "cro" && TopicKeywords[1] == ("cro", CroKeywords);
    }
    assert KeywordsFor("shopify") == Some(ShopifyKeywords) by {
      assert TopicKeywords[..4] == [("seo", SeoKeywords), ("cro", CroKeywords), ("speed", SpeedKeywords), ("ai", AiKeywords)];
      assert TopicKeywords[4] == ("shopify", ShopifyKeywords);
    }
    assert CroKeywords[4] == "checkout" && ShopifyKeywords[4] == "checkout";
  }

  predicate AllLower(ks: seq<string>) {
    forall j :: 0 <= j < |ks| ==> IsLower(ks[j])
  }

  lemma SeoKeywordsLower()
    ensures AllLower(SeoKeywords)
  {
    assert forall j :: 0 <= j < 5 ==> IsLower(SeoKeywords[j]);
    assert forall j :: 5 <= j < |SeoKeywords| ==> IsLower(SeoKeywords[j]);
  }

  lemma CroKeywordsLower()
    ensures AllLower(CroKeywords)
  {
    assert forall j :: 0 <= j < 5 ==> IsLower(CroKeywords[j]);
    assert forall j :: 5 <= j < |CroKeywords| ==> IsLower(CroKeywords[j]);
  }

  lemma SpeedKeywordsLower()
    ensures AllLower(SpeedKeywords)
  {
    assert forall j :: 0 <= j < 5 ==> IsLower(SpeedKeywords[j]);
    assert forall j :: 5 <= j < |SpeedKeywords| ==> IsLower(SpeedKeywords[j]);
  }

  lemma AiKeywordsLower()
    ensures AllLower(AiKeywords)
  {
    assert forall j :: 0 <= j < 5 ==> IsLower(AiKeywords[j]);
    assert forall j :: 5 <= j < |AiKeywords| ==> IsLower(AiKeywords[j]);
  }

  lemma ShopifyKeywordsLower()
    ensures AllLower(ShopifyKeywords)
  {
    assert forall j :: 0 <= j < 5 ==> IsLower(ShopifyKeywords[j]);
    assert forall j :: 5 <= j < |ShopifyKeywords| ==> IsLower(ShopifyKeywords[j]);
  }

  lemma DevelopmentKeywordsLower()
    ensures AllLower(DevelopmentKeywords)
  {
    assert forall j :: 0 <= j < 5 ==> IsLower(DevelopmentKeywords[j]);
    assert forall j :: 5 <= j < |DevelopmentKeywords| ==> IsLower(DevelopmentKeywords[j]);
  }

  /** Every keyword is already lower case, so lower-casing it changes nothing. */
  lemma KeywordsAreLower()
    ensures forall i :: 0 <= i < |TopicKeywords| ==> AllLower(TopicKeywords[i].1)
  {
    SeoKeywordsLower(); CroKeywordsLower(); SpeedKeywordsLower();
    AiKeywordsLower(); ShopifyKeywordsLower(); DevelopmentKeywordsLower();
  }
}
