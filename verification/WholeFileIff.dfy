/**
 * Which lists survive every run of a target that is read whole: exactly those with distinct markers in which the events
 * of a session are alike.
 */
module WholeFileIff {
  import opened Bytes
  import opened Domain
  import opened ExactlyOnce
  import opened Normalizer
  import NT = NormalizerTheorems
  import Text
  import opened Watcher
  import opened WholeFileTargets

  // ------------------------------------------------------------------ the statement

  /** Every run that completes leaves the usage table that a single ingestion of the list gives. */
  ghost predicate AlwaysOnce(path: string, final: seq<SessionEvent>) {
    forall run: seq<SourceState>, view, once: Batch | Completes(path, run, view, final) && IsBatch(final, once) ::
      run[|run| - 1].usage == Upsert(map[], once.entries)
  }

  /** The normalizer accepts every event, and no id is used twice. */
  ghost predicate Storable(events: seq<SessionEvent>) {
    && (forall e <- events :: NormalizeIncoming(e).Ok?) && NT.ValidAmounts(events)
    && DistinctEntries(events)
  }

  lemma PartIsStorable(events: seq<SessionEvent>, part: seq<SessionEvent>, lo: nat, hi: nat)
    requires Storable(events) && lo <= hi <= |events| && part == events[lo..hi]
    ensures Storable(part) && Acceptable(part)
  {
    hide NormalizeIncoming, DistinctEntries, Acceptable;
    EntriesOfPart(events, lo, hi);
    assert forall e <- part :: e in events;
    NT.AcceptableIff(part);
  }

  // ------------------------------------------------------------------ building runs

  /** What the file system shows does not matter. */
  const VIEW := File("i", [])

  /** What an ingestion of the list hands on when it finds a marker. */
  function Left(events: seq<SessionEvent>, marker: string): seq<SessionEvent> {
    if marker != "" then Unprocessed(events, marker) else events
  }

  lemma Starts(path: string)
    ensures SourceRun(path, [SourceState([], NO_CHECKPOINT, map[])])
  {
  }

  /** One more ingestion of the list as far as it has grown, which completes. */
  lemma Ingests(path: string, run: seq<SourceState>, final: seq<SessionEvent>, n: nat, lo: nat) returns (s: SourceState)
    requires |run| > 0 && SourceRun(path, run) && Storable(final) && lo <= n <= |final|
    requires run[|run| - 1].events <= final[..n]
    requires Left(final[..n], run[|run| - 1].checkpoint.marker) == final[lo..n]
    ensures s.events == final[..n] && SourceRun(path, run + [s])
    ensures Completes(path, run + [s], VIEW, final[..n])
    ensures s.checkpoint.marker == LastMarker(final[..n], run[|run| - 1].checkpoint.marker)
    ensures Stores(final[lo..n], run[|run| - 1].usage, s.usage)
  {
    hide *;
    var events, batch, before := final[..n], final[lo..n], run[|run| - 1];
    PartIsStorable(final, batch, lo, n);
    var usage := SomeTable(batch, before.usage);
    var cp := SomeCheckpoint(path, before.checkpoint, events, batch);
    s := SourceState(events, cp, usage);
    IsCompleted(path, before, s, batch);
    RunGoesOn(path, run, s);
    StorableParts(batch);
    NormalizedStores(batch, before.usage, usage);
  }

  lemma StorableParts(events: seq<SessionEvent>)
    requires Storable(events)
    ensures DistinctEntries(events)
  {
  }

  lemma SomeTable(batch: seq<SessionEvent>, usage: map<string, UsageEntry>) returns (usage': map<string, UsageEntry>)
    requires Acceptable(batch)
    ensures Normalized(batch, usage, usage')
  {
    hide Acceptable, IsBatch, Upsert;
    if batch == [] {
      usage' := usage;
    } else {
      var b := NT.SomeBatch(batch);
      usage' := Upsert(usage, b.entries);
    }
  }

  lemma SomeCheckpoint(path: string, cp: Checkpoint, events: seq<SessionEvent>, batch: seq<SessionEvent>)
    returns (next: Checkpoint)
    requires Left(events, cp.marker) == batch
    ensures var parse: Parser := (c: Bytes) => Parsed(events, |c|);
      PlanFor(WholeFile, parse, path, cp, VIEW, VIEW) == Ingest(batch, next)
    ensures next.marker == LastMarker(events, cp.marker)
  {
    hide PlanFor, Unprocessed, EventMarker;
    PlanOfList(path, cp, VIEW, events);
    var parse: Parser := (c: Bytes) => Parsed(events, |c|);
    next := PlanFor(WholeFile, parse, path, cp, VIEW, VIEW).next;
  }

  lemma IsCompleted(path: string, s: SourceState, s': SourceState, batch: seq<SessionEvent>)
    requires s.events <= s'.events && Normalized(batch, s.usage, s'.usage)
    requires var parse: Parser := (c: Bytes) => Parsed(s'.events, |c|);
      PlanFor(WholeFile, parse, path, s.checkpoint, VIEW, VIEW) == Ingest(batch, s'.checkpoint)
    ensures SourceIngestion(path, VIEW, s, s', CheckpointSaved)
  {
    hide PlanFor, Normalized;
  }

  lemma RunGoesOn(path: string, run: seq<SourceState>, s: SourceState)
    requires SourceRun(path, run) && SourceIngestion(path, VIEW, run[|run| - 1], s, CheckpointSaved)
    ensures SourceRun(path, run + [s]) && Completes(path, run + [s], VIEW, s.events)
  {
    hide SourceIngestion, SourceInit;
    var all := run + [s];
    forall i | 0 <= i < |all| - 1
      ensures SourceStep(path, all[i], all[i + 1])
    {
      assert i < |run| - 1 ==> SourceStep(path, run[i], run[i + 1]);
    }
  }

  lemma NotAlwaysOnce(path: string, run: seq<SourceState>, final: seq<SessionEvent>, once: Batch)
    requires Completes(path, run, VIEW, final) && IsBatch(final, once)
    requires run[|run| - 1].usage != Upsert(map[], once.entries)
    ensures !AlwaysOnce(path, final)
  {
    hide Completes, IsBatch, Upsert;
  }

  /** What is left of a list with distinct markers behind its first n events. */
  lemma LeftOfPrefix(final: seq<SessionEvent>, n: nat, m: nat)
    requires DistinctMarkers(final) && n <= m <= |final|
    ensures Left(final[..m], LastMarker(final[..n], "")) == final[n..m]
  {
    hide EventMarker, Unprocessed, DistinctMarkers;
    if n > 0 {
      MarkersOfPrefix(final[..m], final);
      assert final[..n] <= final[..m];
      SomeMarker(final[..m], final[..n]);
      LeftBehind(final[..m], final[..n]);
      assert final[..n] + final[n..m] == final[..m];
    } else {
      assert final[..m] == final[0..m];
    }
  }

  // ------------------------------------------------------------------ a session whose events are not alike

  /** Ingested up to an event, with it alone, and then to the end, the list keeps the entry the event has alone. */
  lemma StoredAlone(path: string, final: seq<SessionEvent>, i: nat)
    requires Storable(final) && DistinctMarkers(final) && i < |final|
    requires EntryIn(final, final[i]) != EntryIn([final[i]], final[i])
    ensures !AlwaysOnce(path, final)
  {
    hide *;
    var s0 := SourceState([], NO_CHECKPOINT, map[]);
    Starts(path);
    NoMarker(final);
    LeftOfPrefix(final, 0, i);
    var s1 := Ingests(path, [s0], final, i, 0);
    LeftOfPrefix(final, i, i + 1);
    assert final[..i] <= final[..i + 1];
    var s2 := Ingests(path, [s0] + [s1], final, i + 1, i);
    LeftOfPrefix(final, i + 1, |final|);
    MarkerStays(final, i, i + 1);
    assert final[..|final|] == final;
    var run := [s0] + [s1] + [s2];
    assert run[|run| - 1] == s2;
    var s3 := Ingests(path, run, final, |final|, i + 1);
    assert final[i..i + 1] == [final[i]];
    StorableParts(final);
    KeepsEntry(final, i, s1.usage, s2.usage, s3.usage);
    var once := NT.SomeBatch(final);
    BatchStores(final, once, map[]);
    EntryOfList(final, final[i], Upsert(map[], once.entries));
    assert (run + [s3])[|run|] == s3;
    NotAlwaysOnce(path, run + [s3], final, once);
  }

  lemma NoMarker(final: seq<SessionEvent>)
    ensures LastMarker(final[..0], "") == "" == NO_CHECKPOINT.marker
  {
  }

  lemma MarkerStays(final: seq<SessionEvent>, n: nat, m: nat)
    requires n < m <= |final|
    ensures LastMarker(final[..m], LastMarker(final[..n], "")) == LastMarker(final[..m], "")
  {
    hide EventMarker;
  }

  lemma KeepsEntry(final: seq<SessionEvent>, i: nat, t1: map<string, UsageEntry>, t2: map<string, UsageEntry>,
                   t3: map<string, UsageEntry>)
    requires DistinctEntries(final) && i < |final|
    requires Stores([final[i]], t1, t2) && Stores(final[i + 1..|final|], t2, t3)
    ensures EntryId(final[i]) in t3 && t3[EntryId(final[i])] == EntryIn([final[i]], final[i])
  {
    hide EntryIn, EntryId, DistinctEntries;
    assert final[i] in [final[i]];
    OtherIds(final, i + 1, |final|, i);
  }

  lemma EntryOfList(final: seq<SessionEvent>, e: SessionEvent, t: map<string, UsageEntry>)
    requires Stores(final, map[], t) && e in final
    ensures EntryId(e) in t && t[EntryId(e)] == EntryIn(final, e)
  {
    hide EntryIn, EntryId;
  }

  // ------------------------------------------------------------------ a marker that is used twice

  /** Ingested up to the first of two events with one marker, the list never has the second stored. */
  lemma NeverStored(path: string, final: seq<SessionEvent>, i: nat, j: nat)
    requires Storable(final) && i < j < |final| && EventMarker(final[i]) == EventMarker(final[j])
    ensures !AlwaysOnce(path, final)
  {
    hide *;
    var s0 := SourceState([], NO_CHECKPOINT, map[]);
    Starts(path);
    NoMarker(final);
    FromStart(final, i + 1);
    var s1 := Ingests(path, [s0], final, i + 1, 0);
    var run := [s0] + [s1];
    assert run[|run| - 1] == s1;
    assert final[..|final|] == final;
    MarkerAt(final, i);
    var l := LeftBehindMarker(final, EventMarker(final[i]), j);
    var s2 := Ingests(path, run, final, |final|, l);
    StorableParts(final);
    Misses(final, i, j, l, s1.usage, s2.usage);
    var once := NT.SomeBatch(final);
    BatchStores(final, once, map[]);
    assert final[j] in final;
    EntryOfList(final, final[j], Upsert(map[], once.entries));
    assert (run + [s2])[|run|] == s2;
    NotAlwaysOnce(path, run + [s2], final, once);
  }

  lemma FromStart(final: seq<SessionEvent>, n: nat)
    requires n <= |final|
    ensures Left(final[..n], NO_CHECKPOINT.marker) == final[0..n]
  {
    assert final[..n] == final[0..n];
  }

  lemma MarkerAt(final: seq<SessionEvent>, i: nat)
    requires Storable(final) && i < |final|
    ensures LastMarker(final[..i + 1], "") == EventMarker(final[i]) != ""
  {
    hide EventMarker, NormalizeIncoming;
    assert final[i] in final;
    HasMarker(final[i]);
  }

  lemma HasMarker(e: SessionEvent)
    requires NormalizeIncoming(e).Ok?
    ensures EventMarker(e) != ""
  {
    hide Text.Trim, NormalizeIncoming, NewProviderName, AcceptableMetadata;
    NT.AcceptedEvents(e);
  }

  /** Everything up to the last carrier of a marker is passed over. */
  lemma LeftBehindMarker(final: seq<SessionEvent>, marker: string, j: nat) returns (l: nat)
    requires j < |final| && EventMarker(final[j]) == marker != ""
    ensures j < l <= |final| && Left(final, marker) == final[l..|final|]
  {
    hide EventMarker, Unprocessed;
    var last: int := |final| - 1;
    while EventMarker(final[last]) != marker
      invariant j <= last < |final|
      invariant forall i :: last < i < |final| ==> EventMarker(final[i]) != marker
      decreases last
    {
      last := last - 1;
    }
    UnprocessedIs(final, marker, last);
    l := last + 1;
    assert final[l..] == final[l..|final|];
  }

  lemma Misses(final: seq<SessionEvent>, i: nat, j: nat, l: nat, t1: map<string, UsageEntry>,
               t2: map<string, UsageEntry>)
    requires DistinctEntries(final) && i < j < l <= |final|
    requires Stores(final[0..i + 1], map[], t1) && Stores(final[l..|final|], t1, t2)
    ensures EntryId(final[j]) !in t2
  {
    hide EntryIn, EntryId, DistinctEntries;
    OtherIds(final, 0, i + 1, j);
    OtherIds(final, l, |final|, j);
  }

  lemma OtherIds(final: seq<SessionEvent>, lo: nat, hi: nat, j: nat)
    requires DistinctEntries(final) && lo <= hi <= |final| && j < |final| && !(lo <= j < hi)
    ensures forall f <- final[lo..hi] :: EntryId(f) != EntryId(final[j])
  {
    hide EntryId;
    forall f <- final[lo..hi]
      ensures EntryId(f) != EntryId(final[j])
    {
      var k :| 0 <= k < hi - lo && final[lo..hi][k] == f;
      assert f == final[lo + k];
    }
  }

  // ------------------------------------------------------------------ the exact condition

  /**
   * For lists of accepted events with distinct ids: every run that completes leaves the table of a single ingestion if
   * and only if no two events share a marker, and the events of each session agree in their hint and in whether they
   * name the project and the agent.
   */
  lemma ListStoredOnceIff(path: string, final: seq<SessionEvent>)
    requires Storable(final)
    ensures AlwaysOnce(path, final) <==> DistinctMarkers(final) && NT.Steady(final)
  {
    hide *;
    if DistinctMarkers(final) {
      if NT.Steady(final) {
        SteadyIsOnce(path, final);
      } else {
        var i := UnlikeAt(final);
        StoredAlone(path, final, i);
      }
    } else {
      var i, j := SharedMarker(final);
      NeverStored(path, final, i, j);
    }
  }

  lemma SteadyIsOnce(path: string, final: seq<SessionEvent>)
    requires Storable(final) && DistinctMarkers(final) && NT.Steady(final)
    ensures AlwaysOnce(path, final)
  {
    hide SourceRun, SourceIngestion, IsBatch, Upsert, DistinctMarkers, DistinctEntries, NT.Steady;
    forall run: seq<SourceState>, view, once: Batch | Completes(path, run, view, final) && IsBatch(final, once)
      ensures run[|run| - 1].usage == Upsert(map[], once.entries)
    {
      ListStoredOnce(path, run, view, final, once);
    }
  }

  lemma UnlikeAt(final: seq<SessionEvent>) returns (i: nat)
    requires !NT.Steady(final)
    ensures i < |final| && EntryIn(final, final[i]) != EntryIn([final[i]], final[i])
  {
    hide EntryIn, NT.Steady;
    NT.SteadyIff(final);
    var e :| e in final && EntryIn(final, e) != EntryIn([e], e);
    i :| 0 <= i < |final| && final[i] == e;
  }

  lemma SharedMarker(final: seq<SessionEvent>) returns (i: nat, j: nat)
    requires Storable(final) && !DistinctMarkers(final)
    ensures i < j < |final| && EventMarker(final[i]) == EventMarker(final[j])
  {
    hide Storable, EventMarker;
    forall e <- final
      ensures EventMarker(e) != ""
    {
      var k :| 0 <= k < |final| && final[k] == e;
      MarkerAt(final, k);
    }
    i, j :| 0 <= i < j < |final| && EventMarker(final[i]) == EventMarker(final[j]);
  }

  /** A message of a session that is read from a database; its hint is that of its own provider. */
  function Message(id: string, hint: BillingMode): SessionEvent {
    SessionEvent(id, id, "s", SECOND, CliSession, "c", hint, "p", "a", None, NO_TOKENS, NO_COSTS, map[])
  }

  /** A session that changes its provider: some run stores another billing mode than a single ingestion. */
  lemma ChangedProvider(path: string)
    ensures var list := [Message("m", OpenRouterMode), Message("n", UnknownMode)];
      Storable(list) && DistinctMarkers(list) && !AlwaysOnce(path, list)
  {
    hide *;
    var list := [Message("m", OpenRouterMode), Message("n", UnknownMode)];
    MessagesAreStorable(OpenRouterMode, UnknownMode);
    HintsDiffer();
    ListStoredOnceIff(path, list);
  }

  lemma MessagesAreStorable(a: BillingMode, b: BillingMode)
    ensures var list := [Message("m", a), Message("n", b)];
      Storable(list) && DistinctMarkers(list)
  {
    hide *;
    LettersAreVisible();
    MessageIsAccepted("m", a);
    MessageIsAccepted("n", b);
    MessageParts("m", a);
    MessageParts("n", b);
    MessageCosts("m", a);
    MessageCosts("n", b);
    PairIsStorable(Message("m", a), Message("n", b));
  }

  lemma MessageIsAccepted(id: string, hint: BillingMode)
    requires Text.Trim(id) == id != ""
    ensures NormalizeIncoming(Message(id, hint)).Ok?
  {
    hide NormalizeIncoming, Text.Trim, NewProviderName;
    LettersAreVisible();
    NT.AcceptedEvents(Message(id, hint));
  }

  lemma MessageParts(id: string, hint: BillingMode)
    requires Text.Trim(id) == id != ""
    ensures EntryId(Message(id, hint)) == id && EventMarker(Message(id, hint)) == id
  {
    hide Text.Trim;
  }

  lemma MessageCosts(id: string, hint: BillingMode)
    ensures Message(id, hint).tokens.Valid() && Message(id, hint).costs.Valid()
  {
  }

  lemma PairIsStorable(e: SessionEvent, f: SessionEvent)
    requires NormalizeIncoming(e).Ok? && e.tokens.Valid() && e.costs.Valid()
    requires NormalizeIncoming(f).Ok? && f.tokens.Valid() && f.costs.Valid()
    requires EntryId(e) != EntryId(f) && EventMarker(e) != EventMarker(f)
    requires EventMarker(e) != "" && EventMarker(f) != ""
    ensures Storable([e, f]) && DistinctMarkers([e, f])
  {
    hide NormalizeIncoming, Tokens.Valid, Costs.Valid, EntryId, EventMarker;
  }

  lemma LettersAreVisible()
    ensures Text.Trim("m") == "m" && Text.Trim("n") == "n" && Text.Trim("s") == "s" && NewProviderName("c").Ok?
  {
    assert Text.Trim("c") == "c" && Lower("c") == "c";
  }

  lemma HintsDiffer()
    ensures !NT.Steady([Message("m", OpenRouterMode), Message("n", UnknownMode)])
  {
    var e, f := Message("m", OpenRouterMode), Message("n", UnknownMode);
    assert e in [e, f] && f in [e, f];
    assert Byok in HintOf(e) && Byok !in HintOf(f);
    assert !NT.Alike(e, f);
  }
}
