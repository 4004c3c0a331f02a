/** The processed-article ledger (`utils/deduplication.ts`): a versioned
    JSON file of article fingerprints, kept to the newest 500 entries. */
module Ledger {
  import opened Wrappers
  import opened JsString

  const CacheVersion: int := 1
  const MaxCacheEntries: nat := 500

  /** An md5 digest, kept symbolically as the text that was hashed: two
      digests are equal exactly when the hashed texts are. */
  datatype Digest = Md5(hashed: string)

  datatype Entry = Entry(hash: Digest, title: string, source: string, processedAt: string, outputType: string)

  /** The cache file as `JSON.parse` sees it: absent, unparsable, or an
      object with a version and a list of entries. */
  datatype CacheFile = Missing | Corrupt | Stored(version: int, entries: seq<Entry>)

  /** `${title.toLowerCase().trim()}|${source.toLowerCase().trim()}`. */
  function NormalisedKey(title: string, source: string): string {
    Trim(ToLower(title)) + "|" + Trim(ToLower(source))
  }

  /** `generateHash`. */
  function Fingerprint(title: string, source: string): Digest {
    Md5(NormalisedKey(title, source))
  }

  /** `loadCache`: the stored entries when the file holds version 1, and an
      empty ledger in every other case; it never fails. */
  function Load(f: CacheFile): (entries: seq<Entry>)
    ensures f.Stored? && f.version == CacheVersion ==> entries == f.entries
    ensures f.Missing? || f.Corrupt? || f.version != CacheVersion ==> entries == []
  {
    match f
    case Stored(v, es) => if v == CacheVersion then es else []
    case _ => []
  }

  predicate HasHash(entries: seq<Entry>, h: Digest) {
    exists i :: 0 <= i < |entries| && entries[i].hash == h
  }

  /** No two entries share a fingerprint. */
  predicate UniqueHashes(entries: seq<Entry>) {
    forall i, j :: 0 <= i < j < |entries| ==> entries[i].hash != entries[j].hash
  }

  /** The eviction of `saveCache`: `entries.slice(-500)` when over the bound. */
  function Trimmed(entries: seq<Entry>): (r: seq<Entry>)
    ensures |r| == if |entries| <= MaxCacheEntries then |entries| else MaxCacheEntries
    ensures r == entries[|entries| - |r|..]
  {
    if |entries| > MaxCacheEntries then entries[|entries| - MaxCacheEntries..] else entries
  }

  /** The file after recording `e` unless its fingerprint is already there. */
  function Record(f: CacheFile, e: Entry): CacheFile {
    if HasHash(Load(f), e.hash) then f
    else Stored(CacheVersion, Trimmed(Load(f) + [e]))
  }

  /** The file after `markAsProcessed(title, source, outputType)` at time `stamp`. */
  function Marked(f: CacheFile, title: string, source: string, outputType: string, stamp: string): CacheFile {
    Record(f, Entry(Fingerprint(title, source), title, source, stamp, outputType))
  }

  // ---------------------------------------------------------------------
  // Statistics

  /** `bySource`: source names with their counts, in the model's own order
      (first appearance). */
  type Tally = seq<(string, nat)>

  /** `bySource[src] = (bySource[src] || 0) + 1`. */
  function Bump(tally: Tally, src: string): Tally {
    if tally == [] then [(src, 1)]
    else if tally[0].0 == src then [(src, tally[0].1 + 1)] + tally[1..]
    else [tally[0]] + Bump(tally[1..], src)
  }

  /** The count recorded for `src` (every row for it, summed). */
  function CountIn(tally: Tally, src: string): nat {
    if tally == [] then 0
    else (if tally[0].0 == src then tally[0].1 else 0) + CountIn(tally[1..], src)
  }

  function Total(tally: Tally): nat {
    if tally == [] then 0 else tally[0].1 + Total(tally[1..])
  }

  function Sources(tally: Tally): seq<string> {
    if tally == [] then [] else [tally[0].0] + Sources(tally[1..])
  }

  /** Each source has one row. */
  predicate DistinctSources(tally: Tally) {
    tally == [] || (tally[0].0 !in Sources(tally[1..]) && DistinctSources(tally[1..]))
  }

  /** The counts of a whole ledger. */
  function TallyOf(entries: seq<Entry>): Tally {
    if entries == [] then []
    else Bump(TallyOf(entries[..|entries| - 1]), entries[|entries| - 1].source)
  }

  /** The number of entries from `src`. */
  function EntriesFrom(entries: seq<Entry>, src: string): nat {
    if entries == [] then 0
    else EntriesFrom(entries[..|entries| - 1], src) + (if entries[|entries| - 1].source == src then 1 else 0)
  }

  datatype Stats = Stats(totalProcessed: nat, lastProcessedAt: Option<string>, bySource: Tally)

  /** `lastEntry?.processedAt || null`. */
  function LastProcessedAt(entries: seq<Entry>): (r: Option<string>)
    ensures r.Some? <==> entries != [] && entries[|entries| - 1].processedAt != ""
    ensures r.Some? ==> r.value == entries[|entries| - 1].processedAt
  {
    if entries == [] || entries[|entries| - 1].processedAt == "" then None
    else Some(entries[|entries| - 1].processedAt)
  }

  function StatsOf(entries: seq<Entry>): Stats {
    Stats(|entries|, LastProcessedAt(entries), TallyOf(entries))
  }

  lemma {:induction false} BumpCounts(tally: Tally, src: string, x: string)
    ensures CountIn(Bump(tally, src), x) == CountIn(tally, x) + (if x == src then 1 else 0)
    ensures Total(Bump(tally, src)) == Total(tally) + 1
    decreases |tally|
  {
    if tally != [] && tally[0].0 != src {
      BumpCounts(tally[1..], src, x);
      assert Bump(tally, src)[1..] == Bump(tally[1..], src);
    } else if tally != [] {
      assert Bump(tally, src)[1..] == tally[1..];
    }
  }

  lemma {:induction false} BumpSources(tally: Tally, src: string)
    ensures forall y :: y in Sources(Bump(tally, src)) <==> y == src || y in Sources(tally)
    decreases |tally|
  {
    if tally != [] && tally[0].0 != src {
      BumpSources(tally[1..], src);
      assert Bump(tally, src)[1..] == Bump(tally[1..], src);
    } else if tally != [] {
      assert Bump(tally, src)[1..] == tally[1..];
    }
  }

  lemma {:induction false} BumpDistinct(tally: Tally, src: string)
    requires DistinctSources(tally)
    ensures DistinctSources(Bump(tally, src))
    decreases |tally|
  {
    if tally != [] && tally[0].0 != src {
      BumpDistinct(tally[1..], src);
      BumpSources(tally[1..], src);
      assert Bump(tally, src)[1..] == Bump(tally[1..], src);
    } else if tally != [] {
      assert Bump(tally, src)[1..] == tally[1..];
    }
  }

  /** The per-source counts are exact, name each source once, and add up
      to the number of entries. */
  lemma {:induction false} TallyExact(entries: seq<Entry>)
    ensures forall src :: CountIn(TallyOf(entries), src) == EntriesFrom(entries, src)
    ensures Total(TallyOf(entries)) == |entries|
    ensures DistinctSources(TallyOf(entries))
    decreases |entries|
  {
    if entries != [] {
      var init := entries[..|entries| - 1];
      var last := entries[|entries| - 1].source;
      TallyExact(init);
      forall src ensures CountIn(TallyOf(entries), src) == EntriesFrom(entries, src) {
        BumpCounts(TallyOf(init), last, src);
      }
      BumpCounts(TallyOf(init), last, last);
      BumpDistinct(TallyOf(init), last);
    }
  }

  /** `getCacheStats`: the total is the number of entries, the per-source
      counts add up to it, and the last timestamp is the newest entry's. */
  lemma StatsConsistent(entries: seq<Entry>)
    ensures StatsOf(entries).totalProcessed == |entries|
    ensures Total(StatsOf(entries).bySource) == StatsOf(entries).totalProcessed
    ensures forall src :: CountIn(StatsOf(entries).bySource, src) == EntriesFrom(entries, src)
    ensures entries == [] ==> StatsOf(entries).lastProcessedAt.None?
  {
    TallyExact(entries);
  }

  // ---------------------------------------------------------------------
  // The ledger file, changed in place

  class ContentCache {
    /** The contents of `.content-cache.json` in the cache directory. */
    var file: CacheFile

    constructor(initial: CacheFile)
      ensures file == initial
    {
      file := initial;
    }

    /** `cache.entries.some(entry => entry.hash === hash)`. */
    static method AnyHash(entries: seq<Entry>, hash: Digest) returns (found: bool)
      ensures found == HasHash(entries, hash)
    {
      var i := 0;
      while i < |entries|
        invariant 0 <= i <= |entries|
        invariant forall k :: 0 <= k < i ==> entries[k].hash != hash
      {
        if entries[i].hash == hash {
          return true;
        }
        i := i + 1;
      }
      return false;
    }

    /** `isDuplicate`. */
    method IsDuplicate(title: string, source: string) returns (b: bool)
      ensures b == HasHash(Load(file), Fingerprint(title, source))
    {
      b := AnyHash(Load(file), Fingerprint(title, source));
    }

    /** `saveCache`: trims to the newest 500 and rewrites the file. */
    method SaveCache(entries: seq<Entry>)
      modifies this
      ensures file == Stored(CacheVersion, Trimmed(entries))
    {
      var kept := entries;
      if |kept| > MaxCacheEntries {
        kept := kept[|kept| - MaxCacheEntries..];
      }
      file := Stored(CacheVersion, kept);
    }

    /** `markAsProcessed`; `stamp` is `new Date().toISOString()`. */
    method MarkAsProcessed(title: string, source: string, outputType: string, stamp: string)
      modifies this
      ensures file == Marked(old(file), title, source, outputType, stamp)
    {
      var entries := Load(file);
      var hash := Fingerprint(title, source);
      var seen := AnyHash(entries, hash);
      if seen {
        return;
      }
      entries := entries + [Entry(hash, title, source, stamp, outputType)];
      SaveCache(entries);
    }

    /** `getCacheStats`. */
    method GetCacheStats() returns (stats: Stats)
      ensures stats == StatsOf(Load(file))
    {
      var entries := Load(file);
      var bySource: Tally := [];
      var i := 0;
      while i < |entries|
        invariant 0 <= i <= |entries|
        invariant bySource == TallyOf(entries[..i])
      {
        assert entries[..i + 1][..i] == entries[..i];
        bySource := Bump(bySource, entries[i].source);
        i := i + 1;
      }
      assert entries[..i] == entries;
      var last: Option<string> := None;
      if |entries| > 0 && entries[|entries| - 1].processedAt != "" {
        last := Some(entries[|entries| - 1].processedAt);
      }
      stats := Stats(|entries|, last, bySource);
    }

    /** `clearCache`: removes the file. */
    method ClearCache()
      modifies this
      ensures file == Missing
    {
      file := Missing;
    }
  }

  // ---------------------------------------------------------------------
  // Properties

  lemma LowerOfSpaces(w: string)
    requires AllSpace(w)
    ensures ToLower(w) == w
  {
    assert forall i :: 0 <= i < |w| ==> IsSpace(w[i]) && !IsUpper(w[i]);
  }

  /** Surrounding whitespace never changes a fingerprint. */
  lemma FingerprintIgnoresPadding(w1: string, title: string, w2: string, w3: string, source: string, w4: string)
    requires AllSpace(w1) && AllSpace(w2) && AllSpace(w3) && AllSpace(w4)
    ensures Fingerprint(w1 + title + w2, w3 + source + w4) == Fingerprint(title, source)
  {
    LowerOfSpaces(w1); LowerOfSpaces(w2); LowerOfSpaces(w3); LowerOfSpaces(w4);
    ToLowerAppend(w1, title); ToLowerAppend(w1 + title, w2);
    ToLowerAppend(w3, source); ToLowerAppend(w3 + source, w4);
    TrimSurrounded(w1, ToLower(title), w2);
    TrimSurrounded(w3, ToLower(source), w4);
  }

  /** Letter case never changes a fingerprint: texts that agree once
      lower-cased have the same fingerprint. */
  lemma FingerprintIgnoresCase(t1: string, s1: string, t2: string, s2: string)
    requires ToLower(t1) == ToLower(t2) && ToLower(s1) == ToLower(s2)
    ensures Fingerprint(t1, s1) == Fingerprint(t2, s2)
  {
  }

  /** Marking an already-recorded article writes nothing: the first write wins. */
  lemma MarkExistingIsNoOp(f: CacheFile, title: string, source: string, outputType: string, stamp: string)
    requires HasHash(Load(f), Fingerprint(title, source))
    ensures Marked(f, title, source, outputType, stamp) == f
  {
  }

  lemma RecordThenPresent(f: CacheFile, e: Entry)
    ensures HasHash(Load(Record(f, e)), e.hash)
    ensures !HasHash(Load(f), e.hash) ==>
      var es := Load(Record(f, e));
      es != [] && es[|es| - 1] == e
  {
    if !HasHash(Load(f), e.hash) {
      var all := Load(f) + [e];
      var es := Trimmed(all);
      assert es[|es| - 1] == all[|all| - 1];
    }
  }

  /** After marking, the article is a duplicate: a new entry is appended
      last, so the same save never evicts it. */
  lemma MarkThenDuplicate(f: CacheFile, title: string, source: string, outputType: string, stamp: string)
    ensures HasHash(Load(Marked(f, title, source, outputType, stamp)), Fingerprint(title, source))
    ensures !HasHash(Load(f), Fingerprint(title, source)) ==>
      var es := Load(Marked(f, title, source, outputType, stamp));
      es != [] && es[|es| - 1] == Entry(Fingerprint(title, source), title, source, stamp, outputType)
  {
    var e := Entry(Fingerprint(title, source), title, source, stamp, outputType);
    RecordThenPresent(f, e);
    assert Marked(f, title, source, outputType, stamp) == Record(f, e);
  }

  /** Marking twice is marking once. */
  lemma MarkIdempotent(f: CacheFile, title: string, source: string, o1: string, s1: string, o2: string, s2: string)
    ensures var g := Marked(f, title, source, o1, s1);
      Marked(g, title, source, o2, s2) == g
  {
    RecordThenPresent(f, Entry(Fingerprint(title, source), title, source, s1, o1));
  }

  /** After any save the ledger holds `min(n, 500)` entries: the newest
      ones, in insertion order. */
  lemma SaveKeepsNewest(entries: seq<Entry>)
    ensures var kept := Load(Stored(CacheVersion, Trimmed(entries)));
      |kept| == (if |entries| < MaxCacheEntries then |entries| else MaxCacheEntries)
      && kept == entries[|entries| - |kept|..]
  {
  }

  lemma RecordKeepsHashesUnique(f: CacheFile, e: Entry)
    requires UniqueHashes(Load(f))
    ensures UniqueHashes(Load(Record(f, e)))
  {
    if !HasHash(Load(f), e.hash) {
      var all := Load(f) + [e];
      assert UniqueHashes(all);
      var es := Trimmed(all);
      var d := |all| - |es|;
      forall i, j | 0 <= i < j < |es| ensures es[i].hash != es[j].hash {
        assert es[i] == all[d + i] && es[j] == all[d + j];
      }
    }
  }

  /** When every write goes through `markAsProcessed`, fingerprints stay unique. */
  lemma MarkKeepsHashesUnique(f: CacheFile, title: string, source: string, outputType: string, stamp: string)
    requires UniqueHashes(Load(f))
    ensures UniqueHashes(Load(Marked(f, title, source, outputType, stamp)))
  {
    RecordKeepsHashesUnique(f, Entry(Fingerprint(title, source), title, source, stamp, outputType));
  }

  /** After `clearCache` the next load is empty, and the empty ledger has
      unique fingerprints. */
  lemma ClearThenEmpty()
    ensures Load(Missing) == [] && UniqueHashes(Load(Missing))
    ensures StatsOf(Load(Missing)) == Stats(0, None, [])
  {
  }
}
