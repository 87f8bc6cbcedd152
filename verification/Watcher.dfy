/** The watch coordinator's ingestion step: read a tail or replay the file, normalize, save the checkpoint. */
module Watcher {
  import opened Bytes
  import opened Domain
  import opened Normalizer
  import Text

  datatype Checkpoint = Checkpoint(path: string, identity: string, offset: int, marker: string)

  /** What the repository returns for a source it does not know. */
  const NO_CHECKPOINT := Checkpoint("", "", 0, "")

  datatype ReadMode = IncrementalTail | WholeFile

  /** What the file system shows at one moment. */
  datatype FileView = Missing | Unreadable | Directory(identity: string) | File(identity: string, bytes: Bytes)

  datatype ParseOutcome = ParseFailed | Parsed(events: seq<SessionEvent>, nextOffset: nat)

  type Parser = Bytes -> ParseOutcome

  function EventMarker(e: SessionEvent): string {
    if Text.Trim(e.externalId) != "" then Text.Trim(e.externalId) else Text.Trim(e.entryId)
  }

  // ------------------------------------------------------------------ specification

  /** The events behind the last one that carries the marker; all of them when none does. */
  function Unprocessed(events: seq<SessionEvent>, marker: string): seq<SessionEvent> {
    if events == [] || EventMarker(events[|events| - 1]) == marker then []
    else if forall e <- events :: EventMarker(e) != marker then events
    else Unprocessed(events[..|events| - 1], marker) + [events[|events| - 1]]
  }

  /** What is read first: the content, the offset it starts at, and whether it is the file from its start. */
  datatype Reading = Reading(content: Bytes, identity: string, base: int, replay: bool) | Gone | ReadError

  predicate MustReplay(cp: Checkpoint, path: string, identity: string, size: nat) {
    cp.path != path || cp.identity == "" || cp.identity != identity || cp.offset < 0 || size < cp.offset
  }

  function ReadForParse(mode: ReadMode, path: string, cp: Checkpoint, view: FileView): Reading {
    match view
    case Missing => Gone
    case Unreadable => ReadError
    case Directory(identity) => if mode == WholeFile then Reading([], identity, 0, true) else ReadError
    case File(identity, bytes) =>
      if mode == WholeFile then Reading(bytes, identity, |bytes|, true)
      else if MustReplay(cp, path, identity, |bytes|) then Reading(bytes, identity, 0, true)
      else Reading(bytes[cp.offset..], identity, cp.offset, false)
  }

  /** Nothing to do, an error, or a batch to normalize followed by a checkpoint to save. */
  datatype Plan = Skip | Abort | Ingest(batch: seq<SessionEvent>, next: Checkpoint)

  function NewOffset(mode: ReadMode, base: int, replay: bool, nextOffset: nat): int {
    if mode == WholeFile then base else if replay then nextOffset else base + nextOffset
  }

  function LastMarker(events: seq<SessionEvent>, marker: string): string {
    if events == [] then marker else EventMarker(events[|events| - 1])
  }

  /** What a result means once it is known whether the file was read from its start. */
  function Conclude(mode: ReadMode, path: string, cp: Checkpoint, identity: string, base: int, replay: bool,
                    events: seq<SessionEvent>, nextOffset: nat): Plan
  {
    var batch := if replay && cp.marker != "" then Unprocessed(events, cp.marker) else events;
    Ingest(batch, Checkpoint(path, identity, NewOffset(mode, base, replay, nextOffset), LastMarker(events, cp.marker)))
  }

  /** The whole decision, from what is seen at the first read and, if the file is read again, at the second. */
  function PlanFor(mode: ReadMode, parse: Parser, path: string, cp: Checkpoint, first: FileView,
                   second: FileView): Plan
  {
    match ReadForParse(mode, path, cp, first)
    case Gone => Skip
    case ReadError => Abort
    case Reading(content, identity, base, replay) =>
      match parse(content)
      case ParseFailed => Skip
      case Parsed(events, nextOffset) =>
        if mode == IncrementalTail && !replay && content != [] && events == [] then
          match ReadForParse(WholeFile, path, cp, second)
          case Reading(whole, newIdentity, _, _) => (
            match parse(whole)
            case ParseFailed => Skip
            case Parsed(all, offset) => Conclude(mode, path, cp, newIdentity, base, true, all, offset))
          case _ => Abort
        else Conclude(mode, path, cp, identity, base, replay, events, nextOffset)
  }

  /** What the file system shows decides before anything is parsed. */
  lemma PlanOfView(mode: ReadMode, parse: Parser, path: string, cp: Checkpoint, first: FileView, second: FileView)
    ensures var plan := PlanFor(mode, parse, path, cp, first, second);
      && (first.Missing? ==> plan == Skip)
      && (first.Unreadable? || (first.Directory? && mode == IncrementalTail) ==> plan == Abort)
      && (first.Directory? && mode == WholeFile && parse([]).Parsed? ==>
            plan.Ingest? && plan.next.identity == first.identity && plan.next.offset == 0)
      && (first.File? && mode == WholeFile && parse(first.bytes).Parsed? ==>
            plan.Ingest? && plan.next.identity == first.identity && plan.next.offset == |first.bytes|)
  {
    hide Unprocessed, EventMarker;
  }

  /** The marker of an event is its external id, and the id of its entry where that is blank. */
  lemma MarkerIs(e: SessionEvent)
    ensures EventMarker(e) == "" <==> Text.Trim(e.externalId) == "" && Text.Trim(e.entryId) == ""
    ensures Text.Trim(e.externalId) != "" ==> EventMarker(e) == Text.Trim(e.externalId)
    ensures Text.Trim(e.externalId) == "" ==> EventMarker(e) == Text.Trim(e.entryId)
  {
  }

  /** The first parse decides unless a tail was read and held no event. */
  lemma PlanOfFirst(mode: ReadMode, parse: Parser, path: string, cp: Checkpoint, first: FileView, second: FileView)
    ensures var r, plan := ReadForParse(mode, path, cp, first), PlanFor(mode, parse, path, cp, first, second);
      && (r.Gone? ==> plan == Skip)
      && (r.ReadError? ==> plan == Abort)
      && (r.Reading? && parse(r.content).ParseFailed? ==> plan == Skip)
      && (r.Reading? && parse(r.content).Parsed?
          && !(mode == IncrementalTail && !r.replay && r.content != [] && parse(r.content).events == []) ==>
            plan == Conclude(mode, path, cp, r.identity, r.base, r.replay, parse(r.content).events,
                             parse(r.content).nextOffset))
  {
    hide ReadForParse, Conclude;
  }

  lemma PlanOfSecond(mode: ReadMode, parse: Parser, path: string, cp: Checkpoint, first: FileView, second: FileView)
    requires var r := ReadForParse(mode, path, cp, first);
      && r.Reading? && parse(r.content).Parsed?
      && mode == IncrementalTail && !r.replay && r.content != [] && parse(r.content).events == []
    ensures var plan := PlanFor(mode, parse, path, cp, first, second);
      var base, r := ReadForParse(mode, path, cp, first).base, ReadForParse(WholeFile, path, cp, second);
      && (!r.Reading? ==> plan == Abort)
      && (r.Reading? && parse(r.content).ParseFailed? ==> plan == Skip)
      && (r.Reading? && parse(r.content).Parsed? ==>
            plan == Conclude(mode, path, cp, r.identity, base, true, parse(r.content).events,
                             parse(r.content).nextOffset))
  {
    hide ReadForParse, Conclude;
  }

  /** The usage table after a batch went through the normalizer. */
  ghost predicate Normalized(batch: seq<SessionEvent>, before: map<string, UsageEntry>,
                             after: map<string, UsageEntry>)
  {
    if batch == [] then after == before
    else Acceptable(batch) && exists b :: IsBatch(batch, b) && after == Upsert(before, b.entries)
  }

  lemma NormalizedNothing(usage: map<string, UsageEntry>)
    ensures Normalized([], usage, usage)
  {
  }

  lemma NormalizedBy(batch: seq<SessionEvent>, before: map<string, UsageEntry>, after: map<string, UsageEntry>,
                     b: Batch)
    requires batch != [] && Acceptable(batch) && IsBatch(batch, b) && after == Upsert(before, b.entries)
    ensures Normalized(batch, before, after)
  {
  }

  // ------------------------------------------------------------------ the coordinator

  datatype Status = Saved | Ignored | Failed

  /** The repository calls that fail. */
  datatype Faults = Faults(load: bool, sessions: bool, usage: bool, save: bool)

  /** What a plan comes to: the batch is stored before the checkpoint, and a failure may come between the two. */
  ghost predicate Outcome(plan: Plan, faults: Faults, status: Status, before: map<string, UsageEntry>,
                          after: map<string, UsageEntry>)
  {
    // nothing is stored unless there is something to ingest
    && (faults.load || !plan.Ingest? ==> after == before)
    && (status == Ignored <==> !faults.load && plan.Skip?)
    && (faults.load || plan.Abort? ==> status == Failed)
    && (!faults.load && plan.Ingest? ==>
          && (if status == Saved then Normalized(plan.batch, before, after)
              else status == Failed && (after == before || Normalized(plan.batch, before, after)))
          && (status == Saved <==>
                !faults.save && (plan.batch == [] || (Acceptable(plan.batch) && !faults.sessions && !faults.usage))))
  }

  lemma NothingToStore(plan: Plan, faults: Faults, usage: map<string, UsageEntry>)
    ensures faults.load || plan.Abort? ==> Outcome(plan, faults, Failed, usage, usage)
    ensures !faults.load && plan.Skip? ==> Outcome(plan, faults, Ignored, usage, usage)
  {
    hide Normalized, Acceptable;
  }

  lemma BatchRefused(plan: Plan, faults: Faults, usage: map<string, UsageEntry>)
    requires !faults.load && plan.Ingest? && plan.batch != []
    requires !Acceptable(plan.batch) || faults.sessions || faults.usage
    ensures Outcome(plan, faults, Failed, usage, usage)
  {
    hide Normalized, Acceptable;
  }

  lemma BatchStored(plan: Plan, faults: Faults, before: map<string, UsageEntry>, after: map<string, UsageEntry>)
    requires !faults.load && plan.Ingest? && Normalized(plan.batch, before, after)
    requires plan.batch == [] || (Acceptable(plan.batch) && !faults.sessions && !faults.usage)
    ensures Outcome(plan, faults, if faults.save then Failed else Saved, before, after)
  {
    hide Normalized, Acceptable;
  }

  class WatchCoordinator {
    const normalizer: SessionNormalizer
    var checkpoints: map<string, Checkpoint>

    constructor (normalizer: SessionNormalizer)
      ensures this.normalizer == normalizer && checkpoints == map[]
    {
      this.normalizer := normalizer;
      checkpoints := map[];
    }

    function Load(source: string): Checkpoint
      reads this
    {
      if source in checkpoints then checkpoints[source] else NO_CHECKPOINT
    }

    method IngestPath(target: string, mode: ReadMode, parse: Parser, path: string, first: FileView, second: FileView,
                      faults: Faults) returns (status: Status)
      modifies this`checkpoints, normalizer
      ensures var source := Text.Trim(target) + ":" + path;
        var plan := PlanFor(mode, parse, path, old(Load(source)), first, second);
        && (faults.load || !plan.Ingest? ==> checkpoints == old(checkpoints))
        && (status == Saved ==> plan.Ingest? && checkpoints == old(checkpoints)[source := plan.next])
        && (status != Saved ==> checkpoints == old(checkpoints))
        && Outcome(plan, faults, status, old(normalizer.usage), normalizer.usage)
    {
      hide Text.Trim, EventMarker, IsBatch, Acceptable, Upsert, Unprocessed, SummariesOf, UpsertSessions, Normalized,
           PlanFor, Outcome, Load;
      var source := Text.Trim(target) + ":" + path;
      ghost var plan := PlanFor(mode, parse, path, Load(source), first, second);
      NothingToStore(plan, faults, normalizer.usage);
      if faults.load {
        return Failed;
      }
      var checkpoint := Load(source);
      var read := ReadSource(mode, parse, path, checkpoint, first, second);
      if read.NoResult? {
        return read.status;
      }
      var result, replayFromStart := read.result, read.replay;

      var events := result.events;
      if replayFromStart && checkpoint.marker != "" {
        events := SuppressProcessedEvents(events, checkpoint.marker);
      }
      assert plan == Ingest(events, plan.next);
      NormalizedNothing(normalizer.usage);
      ghost var before := normalizer.usage;
      if |events| > 0 {
        var normalized := normalizer.Normalize(events, faults.sessions, faults.usage);
        if normalized.Err? {
          BatchRefused(plan, faults, before);
          return Failed;
        }
        NormalizedBy(events, before, normalizer.usage, normalized.value);
      }
      BatchStored(plan, faults, before, normalizer.usage);

      var newOffset := read.base;
      if mode == IncrementalTail && !replayFromStart {
        newOffset := read.base + result.nextOffset;
      }
      if mode == IncrementalTail && replayFromStart {
        newOffset := result.nextOffset;
      }
      var lastMarker := checkpoint.marker;
      if |result.events| > 0 {
        lastMarker := EventMarker(result.events[|result.events| - 1]);
      }
      assert plan.next == Checkpoint(path, read.identity, newOffset, lastMarker);
      if faults.save {
        return Failed;
      }
      checkpoints := checkpoints[source := Checkpoint(path, read.identity, newOffset, lastMarker)];
      return Saved;
    }
  }

  /** The result that counts, or the status to stop with. */
  datatype ReadResult = NoResult(status: Status) | Read(result: ParseOutcome, identity: string, base: int, replay: bool)

  method ReadSource(mode: ReadMode, parse: Parser, path: string, checkpoint: Checkpoint, first: FileView,
                    second: FileView) returns (r: ReadResult)
    ensures var plan := PlanFor(mode, parse, path, checkpoint, first, second);
      match r
      case NoResult(status) => (plan.Skip? && status == Ignored) || (plan.Abort? && status == Failed)
      case Read(result, identity, base, replay) =>
        && result.Parsed?
        && plan == Conclude(mode, path, checkpoint, identity, base, replay, result.events, result.nextOffset)
  {
    hide PlanFor, ReadForParse, Conclude;
    PlanOfFirst(mode, parse, path, checkpoint, first, second);
    var content, identity, nextOffsetBase, replayFromStart;
    match ReadForParse(mode, path, checkpoint, first) {
      case Gone =>
        return NoResult(Ignored);
      case ReadError =>
        return NoResult(Failed);
      case Reading(c, i, b, r) =>
        content, identity, nextOffsetBase, replayFromStart := c, i, b, r;
    }

    var result := parse(content);
    if result.ParseFailed? {
      return NoResult(Ignored);
    }
    if mode == IncrementalTail && !replayFromStart && |content| > 0 && |result.events| == 0 {
      PlanOfSecond(mode, parse, path, checkpoint, first, second);
      match ReadForParse(WholeFile, path, checkpoint, second) {
        case Gone =>
          return NoResult(Failed);
        case ReadError =>
          return NoResult(Failed);
        case Reading(c, i, _, _) =>
          content, identity := c, i;
      }
      replayFromStart := true;
      result := parse(content);
      if result.ParseFailed? {
        return NoResult(Ignored);
      }
    }
    return Read(result, identity, nextOffsetBase, replayFromStart);
  }

  method SuppressProcessedEvents(events: seq<SessionEvent>, lastMarker: string) returns (rest: seq<SessionEvent>)
    ensures rest == Unprocessed(events, lastMarker)
  {
    var lastIndex := -1;
    for index := 0 to |events|
      invariant -1 <= lastIndex < index
      invariant lastIndex >= 0 ==> EventMarker(events[lastIndex]) == lastMarker
      invariant forall i :: lastIndex < i < index ==> EventMarker(events[i]) != lastMarker
    {
      if EventMarker(events[index]) == lastMarker {
        lastIndex := index;
      }
    }
    UnprocessedIs(events, lastMarker, lastIndex);
    if lastIndex < 0 {
      return events;
    }
    return events[lastIndex + 1..];
  }

  /** What is left is what follows the last carrier of the marker. */
  lemma {:induction false} UnprocessedIs(events: seq<SessionEvent>, marker: string, last: int)
    requires -1 <= last < |events|
    requires last >= 0 ==> EventMarker(events[last]) == marker
    requires forall i :: last < i < |events| ==> EventMarker(events[i]) != marker
    ensures Unprocessed(events, marker) == events[last + 1..]
    decreases |events|
  {
    hide EventMarker;
    if last < 0 {
    } else if last == |events| - 1 {
    } else {
      assert events[last] in events;
      UnprocessedIs(events[..|events| - 1], marker, last);
      assert events[last + 1..] == events[..|events| - 1][last + 1..] + [events[|events| - 1]];
    }
  }
}
