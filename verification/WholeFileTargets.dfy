/**
 * Targets that are read whole every time: the marker alone keeps the events that were handed on apart from the
 * new ones.
 */
module WholeFileTargets {
  import opened Bytes
  import opened Domain
  import opened ExactlyOnce
  import opened Normalizer
  import NT = NormalizerTheorems
  import Sums
  import Text
  import opened Watcher

  /** The events the source holds, its checkpoint, and what was handed to the normalizer and recorded as such. */
  datatype Target = Target(events: seq<SessionEvent>, checkpoint: Checkpoint, handed: seq<SessionEvent>)

  ghost predicate Init(t: Target) {
    t.checkpoint == NO_CHECKPOINT && t.handed == []
  }

  /** The source gains events, and is left alone, cannot be parsed, or its batch is not recorded. */
  ghost predicate Idle(t: Target, t': Target) {
    t.events <= t'.events && t' == t.(events := t'.events)
  }

  /** The source may have gained events; it is parsed, its batch handed on and its checkpoint saved. */
  ghost predicate Ingested(path: string, view: FileView, t: Target, t': Target) {
    var parse: Parser := (c: Bytes) => Parsed(t'.events, |c|);
    var plan := PlanFor(WholeFile, parse, path, t.checkpoint, view, view);
    && (view.File? || view.Directory?)
    && t.events <= t'.events
    && plan.Ingest? && t'.checkpoint == plan.next && t'.handed == t.handed + plan.batch
  }

  ghost predicate Step(path: string, t: Target, t': Target) {
    Idle(t, t') || exists view :: Ingested(path, view, t, t')
  }

  ghost predicate Run(path: string, run: seq<Target>) {
    run != [] && Init(run[0]) && forall i :: 0 <= i < |run| - 1 ==> Step(path, run[i], run[i + 1])
  }

  ghost predicate DistinctMarkers(events: seq<SessionEvent>) {
    && (forall e <- events :: EventMarker(e) != "")
    && (forall i, j :: 0 <= i < j < |events| ==> EventMarker(events[i]) != EventMarker(events[j]))
  }

  /** What was handed on is the front of the list, and the marker is that of its last event. */
  ghost predicate Inv(t: Target) {
    && t.handed <= t.events
    && t.checkpoint.marker == if t.handed == [] then "" else EventMarker(t.handed[|t.handed| - 1])
  }

  /** With distinct markers exactly the events behind the last handed one are left. */
  lemma LeftBehind(events: seq<SessionEvent>, handed: seq<SessionEvent>)
    requires DistinctMarkers(events) && handed <= events && handed != []
    ensures handed + Unprocessed(events, EventMarker(handed[|handed| - 1])) == events
  {
    hide EventMarker;
    var n := |handed|;
    assert events[n - 1] == handed[n - 1];
    UnprocessedIs(events, EventMarker(events[n - 1]), n - 1);
    assert events == events[..n] + events[n..];
  }

  lemma IngestedAll(path: string, view: FileView, t: Target, t': Target)
    requires Inv(t) && Ingested(path, view, t, t') && DistinctMarkers(t'.events)
    ensures Inv(t') && t'.handed == t'.events
  {
    hide EventMarker, Unprocessed, PlanFor, DistinctMarkers;
    PlanOfList(path, t.checkpoint, view, t'.events);
    if t.handed != [] {
      LeftBehind(t'.events, t.handed);
      SomeMarker(t'.events, t.handed);
    } else {
      assert [] + t'.events == t'.events;
    }
  }

  lemma SomeMarker(events: seq<SessionEvent>, handed: seq<SessionEvent>)
    requires DistinctMarkers(events) && handed <= events && handed != []
    ensures EventMarker(handed[|handed| - 1]) != ""
  {
    hide EventMarker;
    assert handed[|handed| - 1] in events;
  }

  /** What the coordinator plans for a source that is read whole. */
  lemma PlanOfList(path: string, cp: Checkpoint, view: FileView, events: seq<SessionEvent>)
    requires view.File? || view.Directory?
    ensures var parse: Parser := (c: Bytes) => Parsed(events, |c|);
      var plan := PlanFor(WholeFile, parse, path, cp, view, view);
      && plan.Ingest?
      && plan.batch == (if cp.marker != "" then Unprocessed(events, cp.marker) else events)
      && plan.next.marker == if events == [] then cp.marker else EventMarker(events[|events| - 1])
  {
    hide EventMarker, Unprocessed, PlanFor;
    var identity, base, offset := ListIsRead(path, cp, view, events);
  }

  /** It is read from its start. */
  lemma ListIsRead(path: string, cp: Checkpoint, view: FileView, events: seq<SessionEvent>)
    returns (identity: string, base: int, offset: nat)
    requires view.File? || view.Directory?
    ensures var parse: Parser := (c: Bytes) => Parsed(events, |c|);
      PlanFor(WholeFile, parse, path, cp, view, view)
      == Conclude(WholeFile, path, cp, identity, base, true, events, offset)
  {
    hide Conclude;
    match view {
      case Directory(id) =>
        identity, base, offset := id, 0, 0;
      case File(id, bytes) =>
        identity, base, offset := id, |bytes|, |bytes|;
    }
  }

  lemma MarkersOfPrefix(a: seq<SessionEvent>, b: seq<SessionEvent>)
    requires a <= b && DistinctMarkers(b)
    ensures DistinctMarkers(a)
  {
    hide EventMarker;
    assert forall i :: 0 <= i < |a| ==> a[i] == b[i];
  }

  lemma {:induction false} ListsGrow(path: string, run: seq<Target>, i: nat)
    requires Run(path, run) && i < |run|
    ensures run[i].events <= run[|run| - 1].events
    decreases |run| - i
  {
    hide PlanFor;
    if i < |run| - 1 {
      ListsGrow(path, run, i + 1);
      assert Step(path, run[i], run[i + 1]);
    }
  }

  lemma {:induction false} InvAlways(path: string, run: seq<Target>, i: nat)
    requires Run(path, run) && i < |run| && DistinctMarkers(run[|run| - 1].events)
    ensures Inv(run[i])
    decreases i
  {
    hide PlanFor, EventMarker;
    if i > 0 {
      InvAlways(path, run, i - 1);
      ListsGrow(path, run, i);
      MarkersOfPrefix(run[i].events, run[|run| - 1].events);
      assert Step(path, run[i - 1], run[i]);
      if !Idle(run[i - 1], run[i]) {
        var view :| Ingested(path, view, run[i - 1], run[i]);
        IngestedAll(path, view, run[i - 1], run[i]);
      }
    }
  }

  /**
   * For a source whose list only grows, through stutters, parse failures and unrecorded batches: after a
   * recorded ingestion the batches add up to the whole list, each event handed on exactly once.
   */
  lemma HandedOnce(path: string, run: seq<Target>, view: FileView)
    requires Run(path, run) && |run| >= 2
    requires DistinctMarkers(run[|run| - 1].events)
    requires Ingested(path, view, run[|run| - 2], run[|run| - 1])
    ensures run[|run| - 1].handed == run[|run| - 1].events
    ensures Sums.Distinct(run[|run| - 1].handed)
  {
    hide PlanFor, EventMarker;
    InvAlways(path, run, |run| - 2);
    IngestedAll(path, view, run[|run| - 2], run[|run| - 1]);
  }

  // ------------------------------------------------------------------ the usage table

  /** The events the source holds, its checkpoint, and the usage table. */
  datatype SourceState = SourceState(events: seq<SessionEvent>, checkpoint: Checkpoint, usage: map<string, UsageEntry>)

  ghost predicate SourceInit(s: SourceState) {
    s.checkpoint == NO_CHECKPOINT && s.usage == map[]
  }

  /** One ingestion of the list as it is now, which may stop before the batch is stored or before the checkpoint is. */
  ghost predicate SourceIngestion(path: string, view: FileView, s: SourceState, s': SourceState, progress: Progress) {
    var parse: Parser := (c: Bytes) => Parsed(s'.events, |c|);
    var plan := PlanFor(WholeFile, parse, path, s.checkpoint, view, view);
    && (view.File? || view.Directory?)
    && s.events <= s'.events
    && match progress
       case NothingDone => s' == s.(events := s'.events)
       case BatchStored =>
         plan.Ingest? && s'.checkpoint == s.checkpoint && Normalized(plan.batch, s.usage, s'.usage)
       case CheckpointSaved =>
         plan.Ingest? && s'.checkpoint == plan.next && Normalized(plan.batch, s.usage, s'.usage)
  }

  ghost predicate SourceStep(path: string, s: SourceState, s': SourceState) {
    exists view, progress :: SourceIngestion(path, view, s, s', progress)
  }

  ghost predicate SourceRun(path: string, run: seq<SourceState>) {
    run != [] && SourceInit(run[0]) && forall i :: 0 <= i < |run| - 1 ==> SourceStep(path, run[i], run[i + 1])
  }

  function EntryId(e: SessionEvent): string {
    Text.Trim(e.entryId)
  }

  ghost predicate DistinctEntries(events: seq<SessionEvent>) {
    forall i, j :: 0 <= i < j < |events| ==> EntryId(events[i]) != EntryId(events[j])
  }

  /** What is assumed of the final list: distinct markers and entry ids. */
  ghost predicate GoodList(events: seq<SessionEvent>) {
    DistinctMarkers(events) && DistinctEntries(events)
  }

  /** The event's entry in a batch that is some part of the list. */
  ghost predicate Held(final: seq<SessionEvent>, e: SessionEvent, u: UsageEntry) {
    exists lo: nat, hi: nat | lo <= hi <= |final| :: e in final[lo..hi] && u == EntryIn(final[lo..hi], e)
  }

  ghost predicate EventsStored(final: seq<SessionEvent>, events: seq<SessionEvent>, usage: map<string, UsageEntry>) {
    forall e <- events :: EntryId(e) in usage && Held(final, e, usage[EntryId(e)])
  }

  ghost predicate OnlyEvents(final: seq<SessionEvent>, usage: map<string, UsageEntry>) {
    forall id <- usage :: exists e <- final :: id == EntryId(e) && Held(final, e, usage[id])
  }

  /** The first n events are stored, the marker is that of the last of them, and nothing but the list is stored. */
  ghost predicate UpTo(final: seq<SessionEvent>, s: SourceState, n: nat) {
    && n <= |s.events| && s.events <= final
    && EventsStored(final, s.events[..n], s.usage) && OnlyEvents(final, s.usage)
    && s.checkpoint.marker == if n == 0 then "" else EventMarker(s.events[n - 1])
  }

  ghost predicate SourceInv(final: seq<SessionEvent>, s: SourceState) {
    exists n: nat :: UpTo(final, s, n)
  }

  /** Storing a batch gives each of its events its entry, and leaves all other rows as they were. */
  ghost predicate Stores(batch: seq<SessionEvent>, usage: map<string, UsageEntry>, usage': map<string, UsageEntry>) {
    && (forall e <- batch :: EntryId(e) in usage' && usage'[EntryId(e)] == EntryIn(batch, e))
    && (forall id <- usage' :: id in usage || exists e <- batch :: id == EntryId(e))
    && (forall id <- usage :: id in usage' && (usage'[id] == usage[id] || exists e <- batch :: id == EntryId(e)))
  }

  lemma BatchStores(batch: seq<SessionEvent>, b: Batch, usage: map<string, UsageEntry>)
    requires DistinctEntries(batch) && IsBatch(batch, b)
    ensures Stores(batch, usage, Upsert(usage, b.entries))
  {
    hide IsBatch, Upsert, EntryIn, EntryId, DistinctEntries;
    NT.EntriesAre(batch, b);
    EntryIds(batch);
    forall x, y | x in b.entries && y in b.entries && x.entryId == y.entryId
      ensures x == y
    {
      var e :| e in batch && x == EntryIn(batch, e);
      var f :| f in batch && y == EntryIn(batch, f);
      OneEventAnId(batch, e, f);
    }
    UpsertEffect(usage, b.entries);
    forall e <- batch
      ensures EntryIn(batch, e) in b.entries && EntryIn(batch, e).entryId == EntryId(e)
    {
    }
  }

  lemma EntryIds(batch: seq<SessionEvent>)
    ensures forall e :: EntryIn(batch, e).entryId == EntryId(e)
  {
  }

  /** Entry ids tell the events of the list apart. */
  lemma OneEventAnId(final: seq<SessionEvent>, e: SessionEvent, f: SessionEvent)
    requires DistinctEntries(final) && e in final && f in final
    ensures EntryId(e) == EntryId(f) ==> e == f
  {
    hide EntryId;
    var i :| 0 <= i < |final| && final[i] == e;
    var j :| 0 <= j < |final| && final[j] == f;
  }

  lemma NormalizedStores(batch: seq<SessionEvent>, usage: map<string, UsageEntry>, usage': map<string, UsageEntry>)
    requires DistinctEntries(batch) && Normalized(batch, usage, usage')
    ensures Stores(batch, usage, usage')
  {
    hide Acceptable, IsBatch, Upsert, DistinctEntries, EntryIn;
    if batch != [] {
      var b :| IsBatch(batch, b) && usage' == Upsert(usage, b.entries);
      BatchStores(batch, b, usage);
    }
  }

  /** Storing a part of the list keeps what is stored, adds the part, and adds nothing else. */
  lemma PartStored(final: seq<SessionEvent>, done: seq<SessionEvent>, lo: nat, hi: nat, usage: map<string, UsageEntry>,
                   usage': map<string, UsageEntry>)
    requires DistinctEntries(final) && lo <= hi <= |final| && forall e <- done :: e in final
    requires Stores(final[lo..hi], usage, usage') && EventsStored(final, done, usage) && OnlyEvents(final, usage)
    ensures EventsStored(final, done, usage') && EventsStored(final, final[lo..hi], usage') && OnlyEvents(final, usage')
  {
    hide EntryIn, EntryId, DistinctEntries, Held;
    var batch := final[lo..hi];
    forall e <- batch
      ensures e in final && Held(final, e, usage'[EntryId(e)])
    {
      PartIsHeld(final, lo, hi, e);
    }
    forall e <- done
      ensures Held(final, e, usage'[EntryId(e)])
    {
      if f :| f in batch && EntryId(e) == EntryId(f) {
        OneEventAnId(final, e, f);
      }
    }
  }

  lemma PartIsHeld(final: seq<SessionEvent>, lo: nat, hi: nat, e: SessionEvent)
    requires lo <= hi <= |final| && e in final[lo..hi]
    ensures Held(final, e, EntryIn(final[lo..hi], e))
  {
    hide EntryIn;
  }

  lemma NoneStored(final: seq<SessionEvent>, usage: map<string, UsageEntry>)
    ensures EventsStored(final, [], usage)
    ensures OnlyEvents(final, map[])
  {
  }

  lemma EntriesOfPart(final: seq<SessionEvent>, lo: nat, hi: nat)
    requires DistinctEntries(final) && lo <= hi <= |final|
    ensures DistinctEntries(final[lo..hi])
  {
    hide EntryId;
  }

  /** The batch of an ingestion holds, with the first n events, the whole list; and it holds events of the list only. */
  lemma BatchOfList(path: string, view: FileView, s: SourceState, events: seq<SessionEvent>, n: nat)
    requires view.File? || view.Directory?
    requires DistinctMarkers(events) && s.events <= events && n <= |s.events|
    requires s.checkpoint.marker == if n == 0 then "" else EventMarker(s.events[n - 1])
    ensures var parse: Parser := (c: Bytes) => Parsed(events, |c|);
      var plan := PlanFor(WholeFile, parse, path, s.checkpoint, view, view);
      && plan.Ingest? && s.events[..n] + plan.batch == events
      && plan.next.marker == if |events| == 0 then "" else EventMarker(events[|events| - 1])
  {
    hide EventMarker, Unprocessed, PlanFor, DistinctMarkers;
    PlanOfList(path, s.checkpoint, view, events);
    if n > 0 {
      var handed := s.events[..n];
      LeftBehind(events, handed);
      SomeMarker(events, handed);
    } else {
      assert s.events[..0] + events == events;
    }
  }

  /** Every step keeps the invariant, wherever it stops; and a completed one stores the whole list. */
  lemma SourceStepKeepsInv(path: string, view: FileView, final: seq<SessionEvent>, s: SourceState, s': SourceState,
                           progress: Progress)
    requires GoodList(final) && SourceInv(final, s)
    requires SourceIngestion(path, view, s, s', progress) && s'.events <= final
    ensures SourceInv(final, s')
    ensures progress == CheckpointSaved ==> UpTo(final, s', |s'.events|)
  {
    hide *;
    var n := DoneUpTo(final, s);
    if progress == NothingDone {
      StillUpTo(path, view, final, s, s', n);
    } else {
      BatchStep(path, view, final, s, s', progress, n);
    }
  }

  lemma DoneUpTo(final: seq<SessionEvent>, s: SourceState) returns (n: nat)
    requires SourceInv(final, s)
    ensures UpTo(final, s, n)
  {
    n :| UpTo(final, s, n);
  }

  lemma StillUpTo(path: string, view: FileView, final: seq<SessionEvent>, s: SourceState, s': SourceState, n: nat)
    requires UpTo(final, s, n) && SourceIngestion(path, view, s, s', NothingDone) && s'.events <= final
    ensures UpTo(final, s', n) && SourceInv(final, s')
  {
    hide PlanFor, Normalized, EventsStored, OnlyEvents, EventMarker;
    assert s'.events[..n] == s.events[..n];
  }

  lemma BatchStep(path: string, view: FileView, final: seq<SessionEvent>, s: SourceState, s': SourceState,
                  progress: Progress, n: nat)
    requires GoodList(final) && UpTo(final, s, n) && SourceIngestion(path, view, s, s', progress) && s'.events <= final
    requires progress != NothingDone
    ensures SourceInv(final, s')
    ensures progress == CheckpointSaved ==> UpTo(final, s', |s'.events|)
  {
    hide PlanFor, Normalized, EventsStored, OnlyEvents, EventMarker, DistinctMarkers, DistinctEntries, Stores,
         SourceInv;
    var parse: Parser := (c: Bytes) => Parsed(s'.events, |c|);
    var batch := PlanFor(WholeFile, parse, path, s.checkpoint, view, view).batch;
    var done, hi := s.events[..n], |s'.events|;
    MarkersOfPrefix(s'.events, final);
    BatchOfList(path, view, s, s'.events, n);
    assert batch == final[n..hi] && done == final[..n];
    EntriesOfPart(final, n, hi);
    NormalizedStores(batch, s.usage, s'.usage);
    PartStored(final, done, n, hi, s.usage, s'.usage);
    BatchIsIn(final, s', done, batch);
  }

  lemma BatchIsIn(final: seq<SessionEvent>, s: SourceState, done: seq<SessionEvent>, batch: seq<SessionEvent>)
    requires done + batch == s.events <= final
    requires EventsStored(final, done, s.usage) && EventsStored(final, batch, s.usage) && OnlyEvents(final, s.usage)
    requires
      || s.checkpoint.marker == (if done == [] then "" else EventMarker(done[|done| - 1]))
      || s.checkpoint.marker == if s.events == [] then "" else EventMarker(s.events[|s.events| - 1])
    ensures SourceInv(final, s)
    ensures s.checkpoint.marker == (if s.events == [] then "" else EventMarker(s.events[|s.events| - 1])) ==>
      UpTo(final, s, |s.events|)
  {
    hide EventsStored, OnlyEvents, EventMarker;
    var n := |done|;
    assert s.events[..n] == done && s.events[..|s.events|] == s.events;
    StoredBoth(final, done, batch, s.usage);
    if s.checkpoint.marker == if done == [] then "" else EventMarker(done[n - 1]) {
      assert UpTo(final, s, n);
    } else {
      assert UpTo(final, s, |s.events|);
    }
  }

  lemma StoredBoth(final: seq<SessionEvent>, a: seq<SessionEvent>, b: seq<SessionEvent>, usage: map<string, UsageEntry>)
    requires EventsStored(final, a, usage) && EventsStored(final, b, usage)
    ensures EventsStored(final, a + b, usage)
  {
    hide EntryId, Held;
  }

  lemma {:induction false} SourcesGrow(path: string, run: seq<SourceState>, i: nat)
    requires SourceRun(path, run) && i < |run|
    ensures run[i].events <= run[|run| - 1].events
    decreases |run| - i
  {
    hide PlanFor, Normalized;
    if i < |run| - 1 {
      SourcesGrow(path, run, i + 1);
      assert SourceStep(path, run[i], run[i + 1]);
    }
  }

  /** In every state of every run, what lies before the marker is stored, and nothing but events of the list. */
  lemma {:induction false} SourceInvAlways(path: string, run: seq<SourceState>, i: nat)
    requires SourceRun(path, run) && i < |run| && GoodList(run[|run| - 1].events)
    ensures SourceInv(run[|run| - 1].events, run[i])
    decreases i
  {
    hide SourceInv, GoodList, SourceIngestion, SourceInit;
    SourcesGrow(path, run, i);
    if i == 0 {
      NothingStoredYet(run[|run| - 1].events, run[0]);
    } else {
      SourceInvAlways(path, run, i - 1);
      assert SourceStep(path, run[i - 1], run[i]);
      var view, progress :| SourceIngestion(path, view, run[i - 1], run[i], progress);
      SourceStepKeepsInv(path, view, run[|run| - 1].events, run[i - 1], run[i], progress);
    }
  }

  lemma NothingStoredYet(final: seq<SessionEvent>, s: SourceState)
    requires SourceInit(s) && s.events <= final
    ensures SourceInv(final, s)
  {
    assert UpTo(final, s, 0);
  }

  // ------------------------------------------------------------------ after a completed ingestion

  /** A run that ends with a completed ingestion of the list. */
  ghost predicate Completes(path: string, run: seq<SourceState>, view: FileView, final: seq<SessionEvent>) {
    && SourceRun(path, run) && |run| >= 2
    && SourceIngestion(path, view, run[|run| - 2], run[|run| - 1], CheckpointSaved)
    && run[|run| - 1].events == final
  }

  /** All but the fields that an entry may take from other events of its session. */
  function Core(u: UsageEntry): UsageEntry {
    u.(mode := UnknownMode, project := "", agent := "")
  }

  /** The same ids, and under each the same entry but for billing mode, project and agent. */
  ghost predicate SameCores(t: map<string, UsageEntry>, u: map<string, UsageEntry>) {
    t.Keys == u.Keys && forall id <- t :: Core(t[id]) == Core(u[id])
  }

  lemma HeldCore(final: seq<SessionEvent>, e: SessionEvent, u: UsageEntry)
    requires Held(final, e, u)
    ensures Core(u) == Core(NT.SteadyEntry(e))
    ensures NT.Steady(final) ==> u == NT.SteadyEntry(e)
  {
    hide Held, EntryIn, NT.Steady, NT.SteadyEntry, Core;
    var lo, hi := PartOf(final, e, u);
    CoreOfEntry(final[lo..hi], e);
    if NT.Steady(final) {
      assert forall x <- final[lo..hi] :: x in final;
      NT.EntryIsSteady(final, final[lo..hi], e);
    }
  }

  lemma PartOf(final: seq<SessionEvent>, e: SessionEvent, u: UsageEntry) returns (lo: nat, hi: nat)
    requires Held(final, e, u)
    ensures lo <= hi <= |final| && e in final[lo..hi] && u == EntryIn(final[lo..hi], e)
  {
    hide EntryIn;
    lo, hi :| lo <= hi <= |final| && e in final[lo..hi] && u == EntryIn(final[lo..hi], e);
  }

  lemma CoreOfEntry(batch: seq<SessionEvent>, e: SessionEvent)
    ensures Core(EntryIn(batch, e)) == Core(NT.SteadyEntry(e))
  {
    hide Session, Mode, Text.Trim, LastName, Lower, ResolveMode, HintOf, Projects, Agents;
  }

  /** Two tables that hold the list and nothing else. */
  lemma SameList(final: seq<SessionEvent>, t: map<string, UsageEntry>, u: map<string, UsageEntry>)
    requires DistinctEntries(final)
    requires EventsStored(final, final, t) && OnlyEvents(final, t)
    requires EventsStored(final, final, u) && OnlyEvents(final, u)
    ensures SameCores(t, u)
    ensures NT.Steady(final) ==> t == u
  {
    hide EntryId, NT.SteadyEntry, NT.Steady, DistinctEntries, Held, Core;
    forall id <- t
      ensures id in u && Core(t[id]) == Core(u[id]) && (NT.Steady(final) ==> t[id] == u[id])
    {
      var e :| e in final && id == EntryId(e) && Held(final, e, t[id]);
      HeldCore(final, e, t[id]);
      HeldCore(final, e, u[id]);
    }
    forall id <- u
      ensures id in t
    {
      var e :| e in final && id == EntryId(e) && Held(final, e, u[id]);
    }
  }

  /** A completed ingestion leaves the whole list stored, and nothing else. */
  lemma CompletedIsStored(path: string, run: seq<SourceState>, view: FileView, final: seq<SessionEvent>)
    requires Completes(path, run, view, final) && GoodList(final)
    ensures run != [] && EventsStored(final, final, run[|run| - 1].usage) && OnlyEvents(final, run[|run| - 1].usage)
  {
    hide GoodList, SourceInv, SourceIngestion, EventsStored, OnlyEvents;
    SourceInvAlways(path, run, |run| - 2);
    SourceStepKeepsInv(path, view, final, run[|run| - 2], run[|run| - 1], CheckpointSaved);
    assert final[..|final|] == final;
  }

  lemma BatchIsStored(final: seq<SessionEvent>, once: Batch)
    requires DistinctEntries(final) && IsBatch(final, once)
    ensures var t := Upsert(map[], once.entries);
      EventsStored(final, final, t) && OnlyEvents(final, t)
  {
    hide *;
    BatchStores(final, once, map[]);
    NoneStored(final, map[]);
    assert final[0..|final|] == final;
    PartStored(final, [], 0, |final|, map[], Upsert(map[], once.entries));
  }

  /**
   * Through growth, failures and stops between storing a batch and saving its checkpoint: after a completed ingestion
   * the usage table has the ids of the list, and under each id the entry that a single ingestion of the whole list
   * gives, but for the fields that depend on other events of its session: billing mode, and names it does not give.
   */
  lemma ListCoresStoredOnce(path: string, run: seq<SourceState>, view: FileView, final: seq<SessionEvent>, once: Batch)
    requires Completes(path, run, view, final) && GoodList(final) && IsBatch(final, once)
    ensures SameCores(run[|run| - 1].usage, Upsert(map[], once.entries))
  {
    hide *;
    ListIsGood(final);
    CompletedIsStored(path, run, view, final);
    BatchIsStored(final, once);
    SameList(final, run[|run| - 1].usage, Upsert(map[], once.entries));
  }

  /** When the events of each session are alike, it is the table of a single ingestion. */
  lemma ListStoredOnce(path: string, run: seq<SourceState>, view: FileView, final: seq<SessionEvent>, once: Batch)
    requires Completes(path, run, view, final) && GoodList(final) && NT.Steady(final) && IsBatch(final, once)
    ensures run[|run| - 1].usage == Upsert(map[], once.entries)
  {
    hide *;
    ListIsGood(final);
    CompletedIsStored(path, run, view, final);
    BatchIsStored(final, once);
    SameList(final, run[|run| - 1].usage, Upsert(map[], once.entries));
  }

  lemma ListIsGood(final: seq<SessionEvent>)
    requires GoodList(final)
    ensures DistinctMarkers(final) && DistinctEntries(final)
  {
  }
}
