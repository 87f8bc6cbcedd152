/** The price catalog: three layers of prices, each indexed by lookup key and by model id. */
module Catalog {
  import opened Domain
  import Text

  const CACHE_SOURCE := "openrouter_cache"
  const OPEN_ROUTER := "openrouter"

  datatype Price = Price(provider: string, modelId: string, lookupKey: string, input: real, output: real,
                         cacheRead: real, cacheWrite: real, tool: real)
  {
    predicate NonNegative() {
      input >= 0.0 && output >= 0.0 && cacheRead >= 0.0 && cacheWrite >= 0.0 && tool >= 0.0
    }
  }

  datatype Key = Key(provider: string, lookup: string)

  /** Keys ignore case and surrounding white space. */
  function KeyOf(provider: string, raw: string): Key {
    Key(provider, Lower(Text.Trim(raw)))
  }

  datatype Snapshot = Snapshot(source: string, version: string, syncedAt: Time, entries: seq<Price>)

  // ------------------------------------------------------------------ normalization

  function NewEntry(p: Price): Result<Price> {
    if Text.Trim(p.provider) == "" then Err(Required("provider"))
    else match NewProviderName(p.provider)
      case Err(x) => Err(x)
      case Ok(provider) =>
        var model := Text.Trim(p.modelId);
        if model == "" then Err(Required("model_id"))
        else if !p.NonNegative() then Err(NegativeCost("price"))
        else
          var lookup := Text.Trim(p.lookupKey);
          Ok(p.(provider := provider, modelId := model, lookupKey := if lookup == "" then model else lookup))
  }

  function NewEntries(prices: seq<Price>): Result<seq<Price>> {
    if prices == [] then Ok([])
    else
      match NewEntries(prices[..|prices| - 1])
      case Err(x) => Err(x)
      case Ok(entries) =>
        match NewEntry(prices[|prices| - 1])
        case Err(x) => Err(x)
        case Ok(entry) => Ok(entries + [entry])
  }

  /** documentFromSnapshot, and the snapshot of that document. */
  function Normalized(s: Snapshot): Result<Snapshot> {
    if Text.Trim(s.source) == "" then Err(Required("source"))
    else if Text.Trim(s.version) == "" then Err(Required("version"))
    else
      match NewEntries(s.entries)
      case Err(x) => Err(x)
      case Ok(entries) => Ok(Snapshot(Text.Trim(s.source), Text.Trim(s.version), s.syncedAt, entries))
  }

  /** Exactly these prices are accepted; names are trimmed, and the model id stands in for a missing lookup key. */
  lemma PriceAcceptedIff(p: Price)
    ensures NewEntry(p).Ok? <==>
      && Text.Trim(p.provider) != "" && NewProviderName(p.provider).Ok? && Text.Trim(p.modelId) != ""
      && 0.0 <= p.input && 0.0 <= p.output && 0.0 <= p.cacheRead && 0.0 <= p.cacheWrite && 0.0 <= p.tool
    ensures NewEntry(p).Ok? ==>
      NewEntry(p).value == p.(provider := NewProviderName(p.provider).value, modelId := Text.Trim(p.modelId),
                              lookupKey := if Text.Trim(p.lookupKey) != "" then Text.Trim(p.lookupKey)
                                           else Text.Trim(p.modelId))
  {
    hide Text.Trim, NewProviderName;
  }

  /** A snapshot is accepted when it names source and version and every price is. */
  lemma SnapshotAcceptedIff(s: Snapshot)
    ensures Normalized(s).Ok? <==>
      Text.Trim(s.source) != "" && Text.Trim(s.version) != "" && forall p <- s.entries :: NewEntry(p).Ok?
    ensures Normalized(s).Ok? ==>
      var n := Normalized(s).value;
      && n.source == Text.Trim(s.source) && n.version == Text.Trim(s.version) && n.syncedAt == s.syncedAt
      && |n.entries| == |s.entries| && forall i :: 0 <= i < |s.entries| ==> NewEntry(s.entries[i]) == Ok(n.entries[i])
  {
    hide NewEntry, NewEntries, Text.Trim;
    EntriesAccepted(s.entries);
  }

  lemma {:induction false} EntriesAccepted(prices: seq<Price>)
    ensures NewEntries(prices).Ok? <==> forall p <- prices :: NewEntry(p).Ok?
    ensures NewEntries(prices).Ok? ==>
      var entries := NewEntries(prices).value;
      |entries| == |prices| && forall i :: 0 <= i < |prices| ==> NewEntry(prices[i]) == Ok(entries[i])
  {
    hide NewEntry;
    if prices != [] {
      var n := |prices| - 1;
      EntriesAccepted(prices[..n]);
      assert prices == prices[..n] + [prices[n]];
    }
  }

  /** Two keys are one when the providers are the same and the names agree but for case and surrounding white space. */
  lemma SameKeyIff(provider: string, raw: string, provider': string, raw': string)
    ensures KeyOf(provider, raw) == KeyOf(provider', raw') <==>
      && provider == provider' && |Text.Trim(raw)| == |Text.Trim(raw')|
      && forall i :: 0 <= i < |Text.Trim(raw)| ==> LowerChar(Text.Trim(raw)[i]) == LowerChar(Text.Trim(raw')[i])
  {
    hide Text.Trim, LowerChar;
    var s, s' := Text.Trim(raw), Text.Trim(raw');
    assert forall i :: 0 <= i < |s| ==> Lower(s)[i] == LowerChar(s[i]);
    assert forall i :: 0 <= i < |s'| ==> Lower(s')[i] == LowerChar(s'[i]);
    if KeyOf(provider, raw) == KeyOf(provider', raw') {
      assert Lower(s) == Lower(s');
      assert forall i :: 0 <= i < |s| ==> Lower(s)[i] == Lower(s')[i];
    } else if |s| == |s'| && forall i :: 0 <= i < |s| ==> LowerChar(s[i]) == LowerChar(s'[i]) {
      assert Lower(s) == Lower(s');
    }
  }

  lemma EntryIsStable(p: Price)
    requires NewEntry(p).Ok?
    ensures NewEntry(NewEntry(p).value) == NewEntry(p)
  {
    hide *;
    EntryIsNormal(p);
    NormalEntryIsKept(NewEntry(p).value);
  }

  /** What NewEntry leaves as it is. */
  predicate NormalEntry(p: Price) {
    && Text.Trim(p.provider) != "" && NewProviderName(p.provider) == Ok(p.provider)
    && Text.Trim(p.modelId) == p.modelId != ""
    && Text.Trim(p.lookupKey) == p.lookupKey != ""
    && p.NonNegative()
  }

  lemma EntryIsNormal(p: Price)
    requires NewEntry(p).Ok?
    ensures NormalEntry(NewEntry(p).value)
  {
    hide NewProviderName, Text.Trim;
    SlugIsStable(p.provider);
    ProviderIsVisible(p.provider);
    Text.TrimIdempotent(p.modelId);
    Text.TrimIdempotent(p.lookupKey);
  }

  lemma NormalEntryIsKept(p: Price)
    requires NormalEntry(p)
    ensures NewEntry(p) == Ok(p)
  {
    hide NewProviderName, Text.Trim;
  }

  lemma ProviderIsVisible(raw: string)
    requires NewProviderName(raw).Ok?
    ensures Text.Trim(NewProviderName(raw).value) != ""
  {
    SlugIsStable(raw);
    assert NewProviderName(NewProviderName(raw).value).Ok?;
  }

  lemma {:induction false} EntriesAreStable(prices: seq<Price>)
    requires NewEntries(prices).Ok?
    ensures NewEntries(NewEntries(prices).value) == NewEntries(prices)
  {
    hide NewEntry;
    if prices != [] {
      var n := |prices| - 1;
      EntriesAreStable(prices[..n]);
      EntryIsStable(prices[n]);
      var entries := NewEntries(prices).value;
      assert entries[..|entries| - 1] == NewEntries(prices[..n]).value;
    }
  }

  /** A catalog that was accepted is accepted again as it stands. */
  lemma NormalizedIsStable(s: Snapshot)
    requires Normalized(s).Ok?
    ensures Normalized(Normalized(s).value) == Normalized(s)
  {
    hide NewEntries, Text.Trim;
    Text.TrimIdempotent(s.source);
    Text.TrimIdempotent(s.version);
    EntriesAreStable(s.entries);
  }

  // ------------------------------------------------------------------ an index against a scan

  predicate FiledUnder(p: Price, k: Key) {
    KeyOf(p.provider, p.lookupKey) == k || KeyOf(p.provider, p.modelId) == k
  }

  /** The last of the entries that is filed under a key. */
  function LastFiled(entries: seq<Price>, k: Key): Option<Price> {
    if entries == [] then None
    else if FiledUnder(entries[|entries| - 1], k) then Some(entries[|entries| - 1])
    else LastFiled(entries[..|entries| - 1], k)
  }

  /** The index holds, under every key, what a scan of the entries would find. */
  ghost predicate Indexes(index: map<Key, Price>, entries: seq<Price>) {
    forall k: Key :: LastFiled(entries, k) == if k in index then Some(index[k]) else None
  }

  method AddToIndex(index: map<Key, Price>, entries: seq<Price>, ghost before: seq<Price>)
    returns (extended: map<Key, Price>)
    requires Indexes(index, before)
    ensures Indexes(extended, before + entries)
  {
    extended := index;
    assert before + entries[..0] == before;
    for i := 0 to |entries|
      invariant Indexes(extended, before + entries[..i])
    {
      IndexOne(extended, before + entries[..i], entries[i]);
      assert before + entries[..i + 1] == before + entries[..i] + [entries[i]];
      extended := extended[KeyOf(entries[i].provider, entries[i].lookupKey) := entries[i]];
      extended := extended[KeyOf(entries[i].provider, entries[i].modelId) := entries[i]];
    }
    assert entries[..|entries|] == entries;
  }

  lemma IndexOne(index: map<Key, Price>, entries: seq<Price>, p: Price)
    requires Indexes(index, entries)
    ensures Indexes(index[KeyOf(p.provider, p.lookupKey) := p][KeyOf(p.provider, p.modelId) := p], entries + [p])
  {
    hide KeyOf;
    assert (entries + [p])[..|entries|] == entries;
  }

  // ------------------------------------------------------------------ lookup

  /** The first key that finds something. */
  function FirstFiled(entries: seq<Price>, k: Key, k': Key): Option<Price> {
    if LastFiled(entries, k).Some? then LastFiled(entries, k) else LastFiled(entries, k')
  }

  /** Overrides, then the embedded catalogs, then, for OpenRouter only, the cache. */
  function Scan(overrides: seq<Price>, embedded: seq<Price>, cache: seq<Price>, ref: PricingRef): Option<Price> {
    var k, k' := KeyOf(ref.provider, ref.lookupKey), KeyOf(ref.provider, ref.modelId);
    if FirstFiled(overrides, k, k').Some? then FirstFiled(overrides, k, k')
    else if FirstFiled(embedded, k, k').Some? then FirstFiled(embedded, k, k')
    else if ref.provider == OPEN_ROUTER then FirstFiled(cache, k, k')
    else None
  }

  /** The embedded documents that are not the cache, one after the other. */
  function EmbeddedEntries(docs: seq<Snapshot>): seq<Price> {
    if docs == [] then []
    else
      EmbeddedEntries(docs[..|docs| - 1])
      + if docs[|docs| - 1].source == CACHE_SOURCE then [] else docs[|docs| - 1].entries
  }

  ghost predicate AtMostOneCache(docs: seq<Snapshot>) {
    forall i, j :: 0 <= i < j < |docs| && docs[i].source == CACHE_SOURCE ==> docs[j].source != CACHE_SOURCE
  }

  const NO_SNAPSHOT := Snapshot("", "", ZERO_TIME, [])

  class PriceCatalog {
    var overrides: map<Key, Price>
    var embedded: map<Key, Price>
    var cache: map<Key, Price>
    var cacheSnapshot: Snapshot
    ghost var overrideEntries: seq<Price>
    ghost var embeddedEntries: seq<Price>

    ghost predicate Valid()
      reads this
    {
      && Indexes(overrides, overrideEntries)
      && Indexes(embedded, embeddedEntries)
      && Indexes(cache, cacheSnapshot.entries)
    }

    /** The embedded documents in order; the override is absent when its file is missing or malformed. */
    constructor (docs: seq<Snapshot>, override: Option<Snapshot>)
      requires AtMostOneCache(docs)
      ensures Valid()
      ensures overrideEntries == if override.Some? then override.value.entries else []
      ensures embeddedEntries == EmbeddedEntries(docs)
      ensures cacheSnapshot == NO_SNAPSHOT || (cacheSnapshot in docs && cacheSnapshot.source == "openrouter_cache")
      ensures forall d <- docs :: d.source == "openrouter_cache" ==> cacheSnapshot == d
    {
      overrides, embedded, cache, cacheSnapshot := map[], map[], map[], NO_SNAPSHOT;
      overrideEntries, embeddedEntries := [], [];
      new;
      hide Indexes, EmbeddedEntries, IsCache, AtMostOneCache;
      NothingIndexed();
      NoDocuments(docs);
      for i := 0 to |docs|
        invariant Valid() && overrideEntries == [] && embeddedEntries == EmbeddedEntries(docs[..i])
        invariant IsCache(docs[..i], cacheSnapshot)
      {
        EmbeddedStep(docs, i);
        CacheStep(docs, i, cacheSnapshot);
        if docs[i].source == CACHE_SOURCE {
          cache := AddToIndex(cache, docs[i].entries, []);
          assert [] + docs[i].entries == docs[i].entries;
          cacheSnapshot := docs[i];
        } else {
          embedded := AddToIndex(embedded, docs[i].entries, embeddedEntries);
          embeddedEntries := embeddedEntries + docs[i].entries;
        }
      }
      assert docs[..|docs|] == docs;
      CacheIs(docs, cacheSnapshot);
      if override.Some? {
        overrides := AddToIndex(overrides, override.value.entries, []);
        overrideEntries := override.value.entries;
        assert [] + override.value.entries == override.value.entries;
      }
    }

    /** A lookup in the maps finds what a scan of the three lists would. */
    method LookupModelPrice(ref: PricingRef) returns (r: Option<Price>)
      requires Valid()
      ensures r == Scan(overrideEntries, embeddedEntries, cacheSnapshot.entries, ref)
    {
      hide KeyOf, LastFiled;
      var k, k' := KeyOf(ref.provider, ref.lookupKey), KeyOf(ref.provider, ref.modelId);
      if k in overrides {
        return Some(overrides[k]);
      }
      if k' in overrides {
        return Some(overrides[k']);
      }
      if k in embedded {
        return Some(embedded[k]);
      }
      if k' in embedded {
        return Some(embedded[k']);
      }
      if ref.provider == OPEN_ROUTER {
        if k in cache {
          return Some(cache[k]);
        }
        if k' in cache {
          return Some(cache[k']);
        }
      }
      return None;
    }

    /** A snapshot replaces the whole cache, or nothing at all. */
    method ReplaceCatalog(snapshot: Snapshot) returns (r: Result<()>)
      requires Valid()
      modifies this`cache, this`cacheSnapshot
      ensures Valid()
      ensures r.Ok? <==> Normalized(snapshot).Ok?
      ensures r.Ok? ==> cacheSnapshot == Normalized(snapshot).value
      ensures r.Err? ==> cache == old(cache) && cacheSnapshot == old(cacheSnapshot)
    {
      hide Normalized, Indexes;
      match Normalized(snapshot) {
        case Err(x) =>
          return Err(x);
        case Ok(doc) =>
          NothingIndexed();
          var index := AddToIndex(map[], doc.entries, []);
          assert [] + doc.entries == doc.entries;
          cache, cacheSnapshot := index, doc;
          return Ok(());
      }
    }
  }

  /** The cache document among the documents, if there is one. */
  ghost predicate IsCache(docs: seq<Snapshot>, s: Snapshot) {
    if forall d <- docs :: d.source != CACHE_SOURCE then s == NO_SNAPSHOT else s in docs && s.source == CACHE_SOURCE
  }

  lemma NoDocuments(docs: seq<Snapshot>)
    ensures EmbeddedEntries(docs[..0]) == [] && IsCache(docs[..0], NO_SNAPSHOT)
  {
  }

  lemma EmbeddedStep(docs: seq<Snapshot>, i: nat)
    requires i < |docs|
    ensures EmbeddedEntries(docs[..i + 1])
         == EmbeddedEntries(docs[..i]) + if docs[i].source == CACHE_SOURCE then [] else docs[i].entries
  {
    assert docs[..i + 1][..i] == docs[..i];
  }

  lemma CacheStep(docs: seq<Snapshot>, i: nat, s: Snapshot)
    requires AtMostOneCache(docs) && i < |docs| && IsCache(docs[..i], s)
    ensures docs[i].source == CACHE_SOURCE ==> s == NO_SNAPSHOT
    ensures IsCache(docs[..i + 1], if docs[i].source == CACHE_SOURCE then docs[i] else s)
  {
    assert docs[..i + 1] == docs[..i] + [docs[i]];
    if docs[i].source == CACHE_SOURCE {
      assert forall d <- docs[..i] :: d.source != CACHE_SOURCE;
      assert docs[i] in docs[..i + 1];
    }
  }

  lemma CacheIs(docs: seq<Snapshot>, s: Snapshot)
    requires AtMostOneCache(docs) && IsCache(docs, s)
    ensures s == NO_SNAPSHOT || (s in docs && s.source == CACHE_SOURCE)
    ensures forall d <- docs :: d.source == CACHE_SOURCE ==> s == d
  {
  }

  lemma NothingIndexed()
    ensures Indexes(map[], [])
  {
  }

  // ------------------------------------------------------------------ what a lookup finds

  lemma {:induction false} FiledIsEntry(entries: seq<Price>, k: Key)
    ensures var r := LastFiled(entries, k);
      r.Some? ==> r.value in entries && FiledUnder(r.value, k)
    ensures LastFiled(entries, k).Some? <==> exists p :: p in entries && FiledUnder(p, k)
  {
    hide FiledUnder;
    if entries != [] {
      var n := |entries| - 1;
      FiledIsEntry(entries[..n], k);
      assert entries == entries[..n] + [entries[n]];
    }
  }

  /** The layer has an entry under one of the two keys. */
  ghost predicate Offers(entries: seq<Price>, k: Key, k': Key) {
    exists p :: p in entries && (FiledUnder(p, k) || FiledUnder(p, k'))
  }

  lemma {:induction false} FirstFiledIs(entries: seq<Price>, k: Key, k': Key)
    ensures FirstFiled(entries, k, k').Some? <==> Offers(entries, k, k')
    ensures var r := FirstFiled(entries, k, k');
      r.Some? ==>
        && r.value in entries
        && (FiledUnder(r.value, k) || (FiledUnder(r.value, k') && forall p <- entries :: !FiledUnder(p, k)))
  {
    hide LastFiled, FiledUnder;
    FiledIsEntry(entries, k);
    FiledIsEntry(entries, k');
  }

  /**
    * A price is found exactly when some layer that applies has one under the lookup key or the model id. It comes from
    * the overrides if they have one, else from the embedded catalogs if they have one, and from the cache only for
    * OpenRouter; and it has the provider asked for.
    */
  lemma LookupFinds(overrides: seq<Price>, embedded: seq<Price>, cache: seq<Price>, ref: PricingRef)
    ensures var k, k' := KeyOf(ref.provider, ref.lookupKey), KeyOf(ref.provider, ref.modelId);
      var r := Scan(overrides, embedded, cache, ref);
      && (r.Some? <==> Offers(overrides, k, k') || Offers(embedded, k, k')
                       || (ref.provider == "openrouter" && Offers(cache, k, k')))
      && (r.Some? ==>
            && r.value.provider == ref.provider && (FiledUnder(r.value, k) || FiledUnder(r.value, k'))
            && if Offers(overrides, k, k') then r.value in overrides
               else if Offers(embedded, k, k') then r.value in embedded
               else r.value in cache && ref.provider == "openrouter")
  {
    hide FirstFiled, Offers;
    var k, k' := KeyOf(ref.provider, ref.lookupKey), KeyOf(ref.provider, ref.modelId);
    FirstFiledIs(overrides, k, k');
    FirstFiledIs(embedded, k, k');
    FirstFiledIs(cache, k, k');
  }
}
