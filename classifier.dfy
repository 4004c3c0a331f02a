/** Keyword-based topic filtering and detection: `matchesTopic` and
    `detectTopics`, which `run-daily.ts` and `curate.ts` define identically. */
module Classifier {
  import opened Wrappers
  import opened JsString
  import opened Sources

  /** `table[topic] || [topic]`: a topic without a keyword list is its own
      only keyword. */
  function KeywordsOrSelfIn(table: seq<(string, seq<string>)>, topic: string): seq<string> {
    LookupIn(table, topic).GetOr([topic])
  }

  /** `topicKeywords[topic] || [topic]`. */
  function KeywordsOrSelf(topic: string): seq<string> {
    KeywordsOrSelfIn(TopicKeywords, topic)
  }

  /** `lowerText.includes(keyword.toLowerCase())`. */
  predicate Hits(lowerText: string, keyword: string) {
    Contains(lowerText, ToLower(keyword))
  }

  predicate AnyHit(lowerText: string, keywords: seq<string>) {
    exists k :: k in keywords && Hits(lowerText, k)
  }

  /** The inner keyword loop of both functions: scans `keywords` in order
      and stops at the first one that occurs. */
  method FindHit(lowerText: string, keywords: seq<string>) returns (found: bool)
    ensures found == AnyHit(lowerText, keywords)
  {
    var j := 0;
    while j < |keywords|
      invariant 0 <= j <= |keywords|
      invariant forall k :: k in keywords[..j] ==> !Hits(lowerText, k)
    {
      if Contains(lowerText, ToLower(keywords[j])) {
        assert Hits(lowerText, keywords[j]);
        return true;
      }
      assert keywords[..j + 1] == keywords[..j] + [keywords[j]];
      j := j + 1;
    }
    assert keywords[..j] == keywords;
    return false;
  }

  /** The topic filter accepts `text`: it asks for 'all', or some keyword of
      some requested topic occurs in the text, ignoring case. */
  predicate Matches(text: string, topics: seq<string>) {
    "all" in topics || exists t :: t in topics && AnyHit(ToLower(text), KeywordsOrSelf(t))
  }

  /** The outer topic loop of `matchesTopic`, over any keyword table. */
  method MatchesIn(lowerText: string, topics: seq<string>, table: seq<(string, seq<string>)>) returns (b: bool)
    ensures b <==> exists t :: t in topics && AnyHit(lowerText, KeywordsOrSelfIn(table, t))
  {
    var i := 0;
    while i < |topics|
      invariant 0 <= i <= |topics|
      invariant forall t :: t in topics[..i] ==> !AnyHit(lowerText, KeywordsOrSelfIn(table, t))
    {
      var found := FindHit(lowerText, KeywordsOrSelfIn(table, topics[i]));
      if found {
        return true;
      }
      assert topics[..i + 1] == topics[..i] + [topics[i]];
      i := i + 1;
    }
    assert topics[..i] == topics;
    return false;
  }

  method MatchesTopic(text: string, topics: seq<string>) returns (b: bool)
    ensures b == Matches(text, topics)
  {
    if "all" in topics {
      return true;
    }
    b := MatchesIn(ToLower(text), topics, TopicKeywords);
  }

  // ---------------------------------------------------------------------
  // Detection

  /** A keyword table whose rows have pairwise different topic names. */
  predicate DistinctNames(table: seq<(string, seq<string>)>) {
    forall a, b :: 0 <= a < b < |table| ==> table[a].0 != table[b].0
  }

  /** The topics among the first `n` rows of `table` that `lowerText` hits,
      in table order. */
  function DetectedAmong(lowerText: string, table: seq<(string, seq<string>)>, n: nat): seq<string>
    requires n <= |table|
  {
    if n == 0 then []
    else
      DetectedAmong(lowerText, table, n - 1)
      + (if AnyHit(lowerText, table[n - 1].1) then [table[n - 1].0] else [])
  }

  /** What `detectTopics` reports. */
  function Detected(text: string): seq<string> {
    var d := DetectedAmong(ToLower(text), TopicKeywords, |TopicKeywords|);
    if d == [] then ["general"] else d
  }

  /** No two rows of the keyword table share a topic name, and none is
      'general' or 'all'. */
  lemma TopicNamesDistinct()
    ensures DistinctNames(TopicKeywords)
    ensures "general" !in TopicNames() && "all" !in TopicNames()
  {
    TopicOrder();
    assert forall a :: 0 <= a < |TopicKeywords| ==> TopicKeywords[a].0 == TopicNames()[a];
  }

  lemma {:induction false} DetectedAmongRows(lowerText: string, table: seq<(string, seq<string>)>, n: nat)
    requires n <= |table|
    ensures forall t :: t in DetectedAmong(lowerText, table, n) ==>
      exists m :: 0 <= m < n && table[m].0 == t && AnyHit(lowerText, table[m].1)
  {
    if n > 0 {
      DetectedAmongRows(lowerText, table, n - 1);
    }
  }

  /** The loop of `detectTopics` over any table with distinct names. */
  method DetectIn(lowerText: string, table: seq<(string, seq<string>)>) returns (detected: seq<string>)
    requires DistinctNames(table)
    ensures detected == DetectedAmong(lowerText, table, |table|)
  {
    detected := [];
    var i := 0;
    while i < |table|
      invariant 0 <= i <= |table|
      invariant detected == DetectedAmong(lowerText, table, i)
    {
      var (topic, keywords) := table[i];
      var found := FindHit(lowerText, keywords);
      if found {
        DetectedAmongRows(lowerText, table, i);
        if topic !in detected {
          detected := detected + [topic];
        }
      }
      i := i + 1;
    }
  }

  method DetectTopics(text: string) returns (detected: seq<string>)
    ensures detected == Detected(text)
  {
    TopicNamesDistinct();
    detected := DetectIn(ToLower(text), TopicKeywords);
    if |detected| == 0 {
      detected := ["general"];
    }
  }

  // ---------------------------------------------------------------------
  // Properties of detection

  lemma {:induction false} DetectedAmongPrefix(lowerText: string, table: seq<(string, seq<string>)>, n: nat, m: nat)
    requires n <= m <= |table|
    ensures DetectedAmong(lowerText, table, n) <= DetectedAmong(lowerText, table, m)
    decreases m - n
  {
    if n < m {
      DetectedAmongPrefix(lowerText, table, n, m - 1);
    }
  }

  lemma DetectedAmongIff(lowerText: string, table: seq<(string, seq<string>)>, i: nat)
    requires i < |table| && DistinctNames(table)
    ensures table[i].0 in DetectedAmong(lowerText, table, |table|) <==> AnyHit(lowerText, table[i].1)
  {
    DetectedAmongPrefix(lowerText, table, i + 1, |table|);
    DetectedAmongRows(lowerText, table, |table|);
    if AnyHit(lowerText, table[i].1) {
      assert table[i].0 in DetectedAmong(lowerText, table, i + 1);
    }
  }

  /** A declared topic is reported exactly when one of its keywords occurs
      in the text, ignoring case. */
  lemma DetectedIff(text: string, i: nat)
    requires i < |TopicKeywords|
    ensures TopicKeywords[i].0 in Detected(text) <==> AnyHit(ToLower(text), TopicKeywords[i].1)
  {
    TopicNamesDistinct();
    DetectedAmongIff(ToLower(text), TopicKeywords, i);
    assert TopicKeywords[i].0 != "general" by {
      assert TopicKeywords[i].0 == TopicNames()[i];
    }
  }

  lemma {:induction false} DetectedAmongEmpty(lowerText: string, table: seq<(string, seq<string>)>, n: nat)
    requires n <= |table|
    ensures DetectedAmong(lowerText, table, n) == [] <==>
      forall i :: 0 <= i < n ==> !AnyHit(lowerText, table[i].1)
  {
    if n > 0 {
      DetectedAmongEmpty(lowerText, table, n - 1);
    }
  }

  /** `['general']` is reported exactly when no keyword of any topic occurs. */
  lemma GeneralIffNothingHits(text: string)
    ensures Detected(text) == ["general"] <==>
      forall i :: 0 <= i < |TopicKeywords| ==> !AnyHit(ToLower(text), TopicKeywords[i].1)
  {
    var lt := ToLower(text);
    DetectedAmongEmpty(lt, TopicKeywords, |TopicKeywords|);
    TopicNamesDistinct();
    var d := DetectedAmong(lt, TopicKeywords, |TopicKeywords|);
    if d != [] {
      DetectedAmongRows(lt, TopicKeywords, |TopicKeywords|);
      assert d[0] in d;
      assert d[0] in TopicNames();
    }
  }

  lemma {:induction false} DetectedAmongOrdered(lowerText: string, table: seq<(string, seq<string>)>, n: nat)
    requires n <= |table|
    ensures Subsequence(DetectedAmong(lowerText, table, n), KeyNames(table)[..n])
  {
    if n > 0 {
      DetectedAmongOrdered(lowerText, table, n - 1);
      var ys := KeyNames(table)[..n];
      assert ys[..n - 1] == KeyNames(table)[..n - 1];
      var prev := DetectedAmong(lowerText, table, n - 1);
      var d := DetectedAmong(lowerText, table, n);
      if AnyHit(lowerText, table[n - 1].1) {
        assert d == prev + [ys[n - 1]];
        assert d[..|d| - 1] == prev;
      } else {
        assert d == prev;
      }
    }
  }

  lemma {:induction false} DetectedAmongDistinct(lowerText: string, table: seq<(string, seq<string>)>, n: nat)
    requires n <= |table| && DistinctNames(table)
    ensures forall a, b :: 0 <= a < b < |DetectedAmong(lowerText, table, n)| ==>
      DetectedAmong(lowerText, table, n)[a] != DetectedAmong(lowerText, table, n)[b]
  {
    if n > 0 {
      DetectedAmongDistinct(lowerText, table, n - 1);
      DetectedAmongRows(lowerText, table, n - 1);
      var prev := DetectedAmong(lowerText, table, n - 1);
      assert table[n - 1].0 !in prev;
    }
  }

  /** Reported topics come in declaration order, each at most once. */
  lemma DetectedOrderedAndDistinct(text: string)
    ensures Detected(text) == ["general"] || Subsequence(Detected(text), TopicNames())
    ensures forall a, b :: 0 <= a < b < |Detected(text)| ==> Detected(text)[a] != Detected(text)[b]
  {
    var lt := ToLower(text);
    TopicNamesDistinct();
    DetectedAmongOrdered(lt, TopicKeywords, |TopicKeywords|);
    assert KeyNames(TopicKeywords)[..|TopicKeywords|] == TopicNames();
    DetectedAmongDistinct(lt, TopicKeywords, |TopicKeywords|);
  }

  /** A text mentioning 'checkout' is classified as both cro and shopify. */
  lemma CheckoutIsCroAndShopify(text: string)
    requires Contains(ToLower(text), "checkout")
    ensures "cro" in Detected(text) && "shopify" in Detected(text)
  {
    TopicOrder();
    assert TopicKeywords[1].0 == "cro" && TopicKeywords[4].0 == "shopify";
    assert CroKeywords[4] == "checkout" && ShopifyKeywords[4] == "checkout";
    LowerOfLower("checkout");
    assert Hits(ToLower(text), "checkout");
    DetectedIff(text, 1);
    DetectedIff(text, 4);
  }

  // ---------------------------------------------------------------------
  // Properties of the filter

  /** A tag with no keyword list of its own (other than 'all') matches by
      its own text; the tags in `UnlistedTags` are such tags. */
  lemma UnlistedTagMatchesItself(text: string, t: string)
    requires KeywordsFor(t).None? && t != "all"
    ensures Matches(text, [t]) <==> Contains(ToLower(text), ToLower(t))
  {
    assert KeywordsOrSelf(t) == [t];
  }

  lemma {:induction false} LookupDistinct(table: seq<(string, seq<string>)>, i: nat)
    requires i < |table|
    requires DistinctNames(table)
    ensures LookupIn(table, table[i].0) == Some(table[i].1)
  {
    if i > 0 {
      assert table[0].0 != table[i].0;
      LookupDistinct(table[1..], i - 1);
    }
  }

  /** Filtering on a declared topic matches exactly when one of its
      keywords, as written, occurs in the lower-cased text. */
  lemma ListedTopicMatchesKeywords(text: string, i: nat)
    requires i < |TopicKeywords|
    ensures Matches(text, [TopicKeywords[i].0]) <==>
      exists k :: k in TopicKeywords[i].1 && Contains(ToLower(text), k)
  {
    TopicNamesDistinct();
    LookupDistinct(TopicKeywords, i);
    TopicOrder();
    assert TopicKeywords[i].0 in TopicNames();
    KeywordsAreLower();
    var ks := TopicKeywords[i].1;
    assert KeywordsOrSelf(TopicKeywords[i].0) == ks;
    forall k | k in ks ensures ToLower(k) == k {
      LowerOfLower(k);
    }
  }
}
