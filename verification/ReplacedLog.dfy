/**
 * Claude logs whose file is replaced or truncated: the checkpoint no longer fits, the new content is read from its
 * start, and from there on the log is ingested exactly once.
 */
module ReplacedLog {
  import opened Bytes
  import opened ClaudeCut
  import opened ClaudeLog
  import opened Domain
  import opened ExactlyOnce
  import opened Normalizer
  import Text
  import opened Watcher

  /** The checkpoint is that of another path or file, or lies outside this one. */
  predicate Outdated(cp: Checkpoint, path: string, identity: string, size: nat) {
    cp.path != path || cp.identity == "" || cp.identity != identity || cp.offset < 0 || size < cp.offset
  }

  /** The events behind the last one that carries a marker, as UnprocessedIs says; all of them without a marker. */
  function Behind(events: seq<SessionEvent>, marker: string): seq<SessionEvent> {
    if marker != "" then Unprocessed(events, marker) else events
  }

  // ------------------------------------------------------------------ calls of the coordinator

  /**
   * A file that replaces the one of the checkpoint, or was cut short: a saved ingestion reads it from the start, saves
   * the offset of that parse, and keeps the entries of others. It stores every row of the file if none carries the old
   * marker; otherwise it stores what lies behind the last that does.
   */
  method IngestReplaced(c: WatchCoordinator, log: Log, file: Bytes, identity: string, faults: Faults)
    returns (status: Status)
    requires Outdated(c.Load(Text.Trim("claude_code") + ":" + log.path), log.path, identity, |file|)
    modifies c`checkpoints, c.normalizer
    ensures var source, rows := Text.Trim("claude_code") + ":" + log.path, Rows(log.decode, file);
      && (status != Saved ==> c.checkpoints == old(c.checkpoints))
      && (status == Saved ==>
            && source in c.checkpoints
            && c.checkpoints[source].(marker := "")
               == Checkpoint(log.path, identity, NextOffset(log.decode, file), "")
            && Normalized(Behind(Events(log.decode, file), old(c.Load(source).marker)), old(c.normalizer.usage),
                          c.normalizer.usage)
            && (Faithful(rows) && Unmarked(rows, old(c.Load(source).marker)) ==>
                  AllStored(rows, c.normalizer.usage)
                  && OnlyStored(rows, old(c.normalizer.usage), c.normalizer.usage)))
  {
    hide Text.Trim, PlanFor, Normalized, Outdated, Unmarked, Faithful, AllStored, OnlyStored, NextOffset, Events, Rows;
    ghost var source := Text.Trim("claude_code") + ":" + log.path;
    ghost var cp, usage := c.Load(source), c.normalizer.usage;
    ReplacementPlan(log, cp, file, file, Identities(identity, identity));
    status := c.IngestPath("claude_code", IncrementalTail, ClaudeParser(log.decode), log.path, File(identity, file),
                           File(identity, file), faults);
    if status == Saved && Unmarked(Rows(log.decode, file), cp.marker) {
      NothingSuppressed(log.decode, file, cp.marker);
      FileIsStored(log, file, usage, c.normalizer.usage);
    }
  }

  /** Otherwise a saved ingestion stores the rows behind the offset, and looks at nothing before it. */
  method IngestTail(c: WatchCoordinator, log: Log, file: Bytes, identity: string, faults: Faults)
    returns (status: Status)
    requires var cp := c.Load(Text.Trim("claude_code") + ":" + log.path);
      && !Outdated(cp, log.path, identity, |file|)
      && (cp.offset == |file| || Events(log.decode, file[cp.offset..]) != [])
    modifies c`checkpoints, c.normalizer
    ensures var source := Text.Trim("claude_code") + ":" + log.path;
      && (status != Saved ==> c.checkpoints == old(c.checkpoints))
      && (status == Saved ==>
            var cp := old(c.Load(source));
            && source in c.checkpoints
            && c.checkpoints[source].(marker := "")
               == Checkpoint(log.path, identity, cp.offset + NextOffset(log.decode, file[cp.offset..]), "")
            && Normalized(Events(log.decode, file[cp.offset..]), old(c.normalizer.usage), c.normalizer.usage))
  {
    hide Text.Trim, PlanFor, Normalized, Outdated, NextOffset, Events;
    ghost var source := Text.Trim("claude_code") + ":" + log.path;
    TailPlan(log, c.Load(source), file, file, Identities(identity, identity));
    status := c.IngestPath("claude_code", IncrementalTail, ClaudeParser(log.decode), log.path, File(identity, file),
                           File(identity, file), faults);
  }

  lemma ReplacementPlan(log: Log, cp: Checkpoint, file: Bytes, file': Bytes, ids: Identities)
    requires Outdated(cp, log.path, ids.first, |file|)
    ensures var events := Events(log.decode, file);
      PlanOf(log, cp, file, file', ids)
      == Ingest(Behind(events, cp.marker), Checkpoint(log.path, ids.first, NextOffset(log.decode, file),
                                                      LastMarker(events, cp.marker)))
  {
    hide Events, NextOffset, EventMarker, Unprocessed;
  }

  lemma OutdatedPlan(log: Log, cp: Checkpoint, file: Bytes, file': Bytes, ids: Identities)
    requires Outdated(cp, log.path, ids.first, |file|) && Unmarked(Rows(log.decode, file), cp.marker)
    ensures var events := Events(log.decode, file);
      PlanOf(log, cp, file, file', ids)
      == Ingest(events, Checkpoint(log.path, ids.first, NextOffset(log.decode, file), LastMarker(events, cp.marker)))
  {
    hide Events, NextOffset, EventMarker, Unprocessed, Rows, Unmarked, PlanOf, Outdated;
    ReplacementPlan(log, cp, file, file', ids);
    NothingSuppressed(log.decode, file, cp.marker);
  }

  lemma TailPlan(log: Log, cp: Checkpoint, file: Bytes, file': Bytes, ids: Identities)
    requires !Outdated(cp, log.path, ids.first, |file|)
    requires cp.offset == |file| || Events(log.decode, file[cp.offset..]) != []
    ensures var tail := file[cp.offset..];
      var events := Events(log.decode, tail);
      PlanOf(log, cp, file, file', ids)
      == Ingest(events, Checkpoint(log.path, ids.first, cp.offset + NextOffset(log.decode, tail),
                                   LastMarker(events, cp.marker)))
  {
    hide Events, NextOffset, EventMarker, Unprocessed;
  }

  /** A batch of all events of a file stores all of its rows. */
  lemma FileIsStored(log: Log, file: Bytes, usage: map<string, UsageEntry>, usage': map<string, UsageEntry>)
    requires Normalized(Events(log.decode, file), usage, usage')
    ensures var rows := Rows(log.decode, file);
      Faithful(rows) ==> AllStored(rows, usage') && OnlyStored(rows, usage, usage')
  {
    hide Normalized, Faithful, AllStored, OnlyStored, Rows, Dedup, EventsOf, FromRows, Holds;
    var rows := Rows(log.decode, file);
    if Faithful(rows) {
      EventsAreRows(rows, rows);
      NothingElse(rows, usage);
      BatchIsStored(rows, usage, [], Events(log.decode, file), usage, usage');
      AllHeld(rows, Events(log.decode, file), usage');
    }
  }

  lemma NothingElse(rows: seq<Row>, usage: map<string, UsageEntry>)
    ensures AllStored([], usage) && OnlyStored(rows, usage, usage)
  {
  }

  lemma AllHeld(rows: seq<Row>, batch: seq<SessionEvent>, usage: map<string, UsageEntry>)
    requires forall r <- rows :: Holds(batch, r)
    requires forall r <- rows :: Holds(batch, r) ==> Id(r) in usage && usage[Id(r)] == Own(r)
    ensures AllStored(rows, usage)
  {
    hide Holds, Id, Own;
  }

  // ------------------------------------------------------------------ runs after a replacement

  /** The log as ExactlyOnce sees it, and the identity of its file. */
  datatype FileState = FileState(log: State, identity: string)

  predicate IsOutdated(log: Log, s: FileState) {
    Outdated(s.log.checkpoint, log.path, s.identity, |s.log.file|)
  }

  /**
   * An append or an ingestion of the file, which keeps its identity. A file that was cut short is not written past the
   * old offset before an ingestion has seen it; for a file with another identity this says nothing.
   */
  ghost predicate Step(log: Log, s: FileState, s': FileState) {
    && s'.identity == s.identity
    && (Append(s.log, s'.log)
        || exists progress :: Ingestion(log, s.log, s'.log, progress, Identities(s.identity, s.identity)))
    && (IsOutdated(log, s) && s'.log.checkpoint == s.log.checkpoint ==> IsOutdated(log, s'))
  }

  /** The file has just been replaced: from any checkpoint and table, as long as the checkpoint shows it. */
  ghost predicate Run(log: Log, run: seq<FileState>) {
    && run != [] && IsOutdated(log, run[0])
    && forall i :: 0 <= i < |run| - 1 ==> Step(log, run[i], run[i + 1])
  }

  /** Not yet noticed: the old checkpoint, and nothing stored but what was there and rows of the new file. */
  ghost predicate Unnoticed(log: Log, final: Bytes, base: map<string, UsageEntry>, s: FileState) {
    && IsOutdated(log, s) && s.log.file <= final
    && Unmarked(Rows(log.decode, final), s.log.checkpoint.marker)
    && OnlyStored(Rows(log.decode, final), base, s.log.usage)
  }

  ghost predicate FileInv(log: Log, final: Bytes, base: map<string, UsageEntry>, s: FileState) {
    Unnoticed(log, final, base, s) || Inv(log, final, base, s.log)
  }

  lemma StepKeepsFileInv(log: Log, final: Bytes, base: map<string, UsageEntry>, s: FileState, s': FileState)
    requires GoodLog(log, final) && FileInv(log, final, base, s) && Step(log, s, s') && s'.log.file <= final
    ensures FileInv(log, final, base, s')
  {
    hide Inv, GoodLog, OnlyStored, Unmarked, Rows, Ingestion, IsOutdated;
    if Inv(log, final, base, s.log) {
      assert ExactlyOnce.Step(log, s.log, s'.log);
      StepKeepsInv(log, final, base, s.log, s'.log);
    } else if Append(s.log, s'.log) {
      StillUnnoticed(log, final, base, s, s');
    } else {
      var progress :| Ingestion(log, s.log, s'.log, progress, Identities(s.identity, s.identity));
      NoticedOrNot(log, final, base, s, s', progress);
    }
  }

  lemma StillUnnoticed(log: Log, final: Bytes, base: map<string, UsageEntry>, s: FileState, s': FileState)
    requires Unnoticed(log, final, base, s) && IsOutdated(log, s') && s'.log.file <= final
    requires s'.log.checkpoint == s.log.checkpoint && s'.log.usage == s.log.usage
    ensures Unnoticed(log, final, base, s')
  {
    hide OnlyStored, Unmarked, Rows, IsOutdated;
  }

  lemma NoticedOrNot(log: Log, final: Bytes, base: map<string, UsageEntry>, s: FileState, s': FileState,
                     progress: Progress)
    requires GoodLog(log, final) && Unnoticed(log, final, base, s) && s'.log.file <= final
    requires Ingestion(log, s.log, s'.log, progress, Identities(s.identity, s.identity))
    requires s'.log.checkpoint == s.log.checkpoint ==> IsOutdated(log, s')
    ensures FileInv(log, final, base, s')
    ensures progress == CheckpointSaved ==> Inv(log, final, base, s'.log)
  {
    hide OnlyStored, Unmarked, Rows, Inv, GoodLog, PlanOf, Normalized, Events, NextOffset, EventMarker, Outdated;
    if progress == NothingDone {
      StillUnnoticed(log, final, base, s, s');
    } else {
      UnmarkedPrefix(log, final, s.log.file, s.log.checkpoint.marker);
      OutdatedPlan(log, s.log.checkpoint, s.log.file, s'.log.file, Identities(s.identity, s.identity));
      ReplacementStored(log, final, base, s.log, s'.log, s.identity);
    }
  }

  lemma UnmarkedPrefix(log: Log, final: Bytes, file: Bytes, marker: string)
    requires GoodLog(log, final) && file <= final && Unmarked(Rows(log.decode, final), marker)
    ensures Unmarked(Rows(log.decode, file), marker)
  {
    hide Rows, JsonRows, CleanLog, Faithful, Marker;
    RowsArePrefix(log.decode, file, final);
  }

  /** Storing all events of the file as it is read leads to the invariant of a log that is not replaced. */
  lemma ReplacementStored(log: Log, final: Bytes, base: map<string, UsageEntry>, s: State, s': State, id: string)
    requires GoodLog(log, final) && s.file <= s'.file <= final && OnlyStored(Rows(log.decode, final), base, s.usage)
    requires Unmarked(Rows(log.decode, final), s.checkpoint.marker)
    requires Normalized(Events(log.decode, s.file), s.usage, s'.usage)
    ensures OnlyStored(Rows(log.decode, final), base, s'.usage)
    ensures var events := Events(log.decode, s.file);
      s'.checkpoint
      == Checkpoint(log.path, id, NextOffset(log.decode, s.file), LastMarker(events, s.checkpoint.marker)) ==>
        Inv(log, final, base, s')
  {
    hide GoodLog, OnlyStored, Unmarked, Rows, Normalized, Events, NextOffset, Safe, Advances, EventMarker;
    var events, start := Events(log.decode, s.file), s.(checkpoint := Checkpoint("", "", 0, s.checkpoint.marker));
    StartsSafe(log, final, base, start);
    UnmarkedPrefix(log, final, s.file, s.checkpoint.marker);
    NothingSuppressed(log.decode, s.file, s.checkpoint.marker);
    ReplayAdvances(log, final, base, start, s.file, s'.file, [], id);
    var next := Checkpoint(log.path, id, NextOffset(log.decode, s.file), LastMarker(events, s.checkpoint.marker));
    SafeAfter(log, final, base, start, s'.(checkpoint := next), [], events, next, Rows(log.decode, s.file));
    SafeAfter(log, final, base, start, s'.(checkpoint := start.checkpoint), [], events, next,
              Rows(log.decode, s.file));
    SafeHolds(log, final, base, s'.(checkpoint := start.checkpoint), []);
  }

  /** Before anything of the file is read. */
  lemma StartsSafe(log: Log, final: Bytes, base: map<string, UsageEntry>, s: State)
    requires s.file <= final && OnlyStored(Rows(log.decode, final), base, s.usage)
    requires s.checkpoint.offset == 0 && Unmarked(Rows(log.decode, final), s.checkpoint.marker)
    ensures Safe(log, final, base, s, [])
  {
    hide SafeCut, OnlyStored, Unmarked, Rows;
    SafeStart(log.decode, s.file);
  }

  lemma SafeHolds(log: Log, final: Bytes, base: map<string, UsageEntry>, s: State, done: seq<Row>)
    requires Safe(log, final, base, s, done)
    ensures OnlyStored(Rows(log.decode, final), base, s.usage)
  {
  }

  lemma {:induction false} ReplacementsGrow(log: Log, run: seq<FileState>, i: nat)
    requires Run(log, run) && i < |run|
    ensures run[i].log.file <= run[|run| - 1].log.file
    decreases |run| - i
  {
    hide PlanOf, Normalized, IsOutdated;
    if i < |run| - 1 {
      ReplacementsGrow(log, run, i + 1);
      assert Step(log, run[i], run[i + 1]);
    }
  }

  /**
   * In every state after a replacement the new file has not been noticed, or the saved offset is a safe cut of it and
   * everything before it is stored.
   */
  lemma {:induction false} FileInvAlways(log: Log, run: seq<FileState>, i: nat)
    requires Run(log, run) && i < |run| && GoodLog(log, run[|run| - 1].log.file)
    requires Unmarked(Rows(log.decode, run[|run| - 1].log.file), run[0].log.checkpoint.marker)
    ensures FileInv(log, run[|run| - 1].log.file, run[0].log.usage, run[i])
    decreases i
  {
    hide FileInv, GoodLog, Step, IsOutdated, Unmarked, Rows;
    var final := run[|run| - 1].log.file;
    ReplacementsGrow(log, run, i);
    if i == 0 {
      NotNoticedYet(log, final, run[0]);
    } else {
      FileInvAlways(log, run, i - 1);
      StepKeepsFileInv(log, final, run[0].log.usage, run[i - 1], run[i]);
    }
  }

  lemma NotNoticedYet(log: Log, final: Bytes, s: FileState)
    requires IsOutdated(log, s) && s.log.file <= final && Unmarked(Rows(log.decode, final), s.log.checkpoint.marker)
    ensures FileInv(log, final, s.log.usage, s)
  {
    hide IsOutdated, Unmarked, Rows, Inv;
    NothingElse(Rows(log.decode, final), s.log.usage);
  }

  /**
   * Whatever was stored before the replacement, and whatever was appended, missed or interrupted after it: when an
   * ingestion of the new file as it finally is completes, every one of its rows is stored, and the table is the one
   * that a single parse of the new file makes of the table before.
   */
  lemma ReplacedExactlyOnce(log: Log, run: seq<FileState>, once: Batch)
    requires Run(log, run) && |run| >= 2
    requires var s, s' := run[|run| - 2], run[|run| - 1];
      && GoodLog(log, s'.log.file) && s.log.file == s'.log.file
      && Ingestion(log, s.log, s'.log, CheckpointSaved, Identities(s.identity, s.identity))
      && Unmarked(Rows(log.decode, s'.log.file), run[0].log.checkpoint.marker)
      && IsBatch(Events(log.decode, s'.log.file), once)
    ensures run[|run| - 1].log.usage == Upsert(run[0].log.usage, once.entries)
    ensures AllStored(Rows(log.decode, run[|run| - 1].log.file), run[|run| - 1].log.usage)
  {
    hide GoodLog, Run, Ingestion, Unmarked, Rows, Events, IsBatch, Upsert, AllStored, Inv, Unnoticed;
    var s, s', base := run[|run| - 2], run[|run| - 1], run[0].log.usage;
    FileInvAlways(log, run, |run| - 2);
    SingleParse(log, s'.log.file, base, once);
    if Inv(log, s'.log.file, base, s.log) {
      CompletedIsExact(log, base, s.log, s'.log, Identities(s.identity, s.identity), once);
    } else {
      FirstCompleted(log, base, s, s', once);
    }
  }

  lemma FirstCompleted(log: Log, base: map<string, UsageEntry>, s: FileState, s': FileState, once: Batch)
    requires GoodLog(log, s'.log.file) && Unnoticed(log, s'.log.file, base, s) && s.log.file == s'.log.file
    requires Ingestion(log, s.log, s'.log, CheckpointSaved, Identities(s.identity, s.identity))
    requires IsBatch(Events(log.decode, s'.log.file), once)
    ensures s'.log.usage == Upsert(base, once.entries)
  {
    hide GoodLog, OnlyStored, Unmarked, Rows, PlanOf, Normalized, Events, NextOffset, EventMarker, Outdated, Upsert,
         IsBatch, AllStored, Inv;
    var file, rows := s'.log.file, Rows(log.decode, s'.log.file);
    OutdatedPlan(log, s.log.checkpoint, file, file, Identities(s.identity, s.identity));
    FileIsStored(log, file, s.log.usage, s'.log.usage);
    ReplacementStored(log, file, base, s.log, s'.log, s.identity);
    IsFaithful(log, file);
    SingleParse(log, file, base, once);
    SameTable(rows, base, s'.log.usage, Upsert(base, once.entries));
  }

  lemma IsFaithful(log: Log, file: Bytes)
    requires GoodLog(log, file)
    ensures Faithful(Rows(log.decode, file))
  {
  }
}
