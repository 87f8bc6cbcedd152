/**
 * Exactly-once ingestion of a growing Claude log, over every interleaving of appends, ingestions, failures and
 * stops between storing a batch and saving the checkpoint.
 */
module ExactlyOnce {
  import opened Bytes
  import opened Domain
  import opened Normalizer
  import opened ClaudeLog
  import opened ClaudeCut
  import opened Watcher
  import NT = NormalizerTheorems
  import Text

  // ------------------------------------------------------------------ the state machine

  /** One log, its checkpoint, and the usage table. */
  datatype State = State(file: Bytes, checkpoint: Checkpoint, usage: map<string, UsageEntry>)

  /** The log under watch: its path, and how its lines decode. */
  datatype Log = Log(path: string, decode: Decoder)

  function ClaudeParser(decode: Decoder): Parser {
    (c: Bytes) => Parsed(Events(decode, c), NextOffset(decode, c))
  }

  ghost predicate Init(s: State) {
    s.checkpoint == NO_CHECKPOINT
  }

  ghost predicate Append(s: State, s': State) {
    s.file <= s'.file && s' == s.(file := s'.file)
  }

  /** How far an ingestion gets before it stops, fails, or is killed. */
  datatype Progress = NothingDone | BatchStored | CheckpointSaved

  /** The identity of the file at the two reads; where it is size and time of change it changes as the file grows. */
  datatype Identities = Identities(first: string, second: string)

  function PlanOf(log: Log, checkpoint: Checkpoint, file: Bytes, file': Bytes, ids: Identities): Plan {
    PlanFor(IncrementalTail, ClaudeParser(log.decode), log.path, checkpoint, File(ids.first, file),
            File(ids.second, file'))
  }

  /** One ingestion; the file may grow between the two reads, from s.file to s'.file. */
  ghost predicate Ingestion(log: Log, s: State, s': State, progress: Progress, ids: Identities) {
    var plan := PlanOf(log, s.checkpoint, s.file, s'.file, ids);
    && s.file <= s'.file
    && match progress
       case NothingDone => s' == s.(file := s'.file)
       case BatchStored =>
         plan.Ingest? && s'.checkpoint == s.checkpoint && Normalized(plan.batch, s.usage, s'.usage)
       case CheckpointSaved =>
         plan.Ingest? && s'.checkpoint == plan.next && Normalized(plan.batch, s.usage, s'.usage)
  }

  ghost predicate Step(log: Log, s: State, s': State) {
    Append(s, s') || exists progress, ids :: Ingestion(log, s, s', progress, ids)
  }

  /** A run: it starts without a checkpoint, and every step is an append or an ingestion. */
  ghost predicate Run(log: Log, run: seq<State>) {
    && run != [] && Init(run[0])
    && forall i :: 0 <= i < |run| - 1 ==> Step(log, run[i], run[i + 1])
  }

  // ------------------------------------------------------------------ what is assumed of the rows

  function Id(r: Row): string {
    Text.Trim(r.event.entryId)
  }

  /** The entry of a row: every Claude Code event names its project and agent, so it does not depend on the batch. */
  function Own(r: Row): UsageEntry {
    NT.OwnEntry(r.event)
  }

  function Marker(r: Row): string {
    EventMarker(r.event)
  }

  /**
   * What the parser makes of a log: the entry id is a digest of path, key and time, so rows with the same id have the
   * same key; the key is built from message and request id, or else from the line, and the marker is the request id,
   * the message id or the key, so rows with the same key have the same marker.
   */
  ghost predicate Identified(rows: seq<Row>) {
    && (forall r <- rows :: NT.SelfContained(r.event) && Marker(r) != "")
    && (forall a, b | a in rows && b in rows :: SameNames(a, b))
  }

  predicate SameNames(a: Row, b: Row) {
    (Id(a) == Id(b) ==> a.key == b.key) && (a.key == b.key ==> Marker(a) == Marker(b))
  }

  /** What not every log meets: rows with the same key make one entry, and rows with the same marker have one key. */
  ghost predicate Unambiguous(rows: seq<Row>) {
    forall a, b | a in rows && b in rows :: Agree(a, b)
  }

  predicate Agree(a: Row, b: Row) {
    (a.key == b.key ==> Own(a) == Own(b)) && (Marker(a) == Marker(b) ==> a.key == b.key)
  }

  ghost predicate Faithful(rows: seq<Row>) {
    Identified(rows) && Unambiguous(rows)
  }

  /** Faithful, read at two rows. */
  lemma Same(rows: seq<Row>, a: Row, b: Row)
    requires Faithful(rows) && a in rows && b in rows
    ensures a.key == b.key ==> Own(a) == Own(b)
    ensures Id(a) == Id(b) ==> a.key == b.key && Own(a) == Own(b)
    ensures Marker(a) == Marker(b) ==> a.key == b.key
  {
    hide Id, Own, Marker;
    assert SameNames(a, b) && Agree(a, b);
  }

  // ------------------------------------------------------------------ the invariant

  /** Every one of these rows is stored. */
  ghost predicate AllStored(rows: seq<Row>, usage: map<string, UsageEntry>) {
    forall r <- rows :: Id(r) in usage && usage[Id(r)] == Own(r)
  }

  /** Nothing but these rows and what was there before is stored. */
  ghost predicate OnlyStored(rows: seq<Row>, base: map<string, UsageEntry>, usage: map<string, UsageEntry>) {
    && (forall id <- usage ::
          (id in base && usage[id] == base[id]) || exists r <- rows :: id == Id(r) && usage[id] == Own(r))
    && (forall id <- base :: id in usage)
  }

  /**
   * Whatever a clean log goes on with, reading on from the offset yields exactly the rows behind these: an
   * incomplete row is never consumed, and a complete one is consumed once.
   */
  ghost predicate SafeCut(decode: Decoder, file: Bytes, offset: int, done: seq<Row>) {
    && 0 <= offset <= |file|
    && forall more: Bytes :: CleanLog(decode, file + more) ==>
         && CleanLog(decode, (file + more)[offset..])
         && Rows(decode, file + more) == done + Rows(decode, (file + more)[offset..])
  }

  /**
   * The checkpoint's offset is a safe cut, every row before it is stored, its marker is that of one of them or of none,
   * and nothing is stored but what was there before and what the final file holds.
   */
  ghost predicate Safe(log: Log, final: Bytes, base: map<string, UsageEntry>, s: State, done: seq<Row>) {
    && s.file <= final
    && SafeCut(log.decode, s.file, s.checkpoint.offset, done)
    && AllStored(done, s.usage)
    && OnlyStored(Rows(log.decode, final), base, s.usage)
    && MarkerFits(done, Rows(log.decode, final), s.checkpoint.marker)
  }

  /** No row carries the marker. */
  ghost predicate Unmarked(rows: seq<Row>, marker: string) {
    forall r <- rows :: Marker(r) != marker
  }

  /** The marker is that of a row that was done, or suppresses none. */
  ghost predicate MarkerFits(done: seq<Row>, rows: seq<Row>, marker: string) {
    marker == "" || Unmarked(rows, marker) || exists r <- done :: Marker(r) == marker
  }

  ghost predicate Inv(log: Log, final: Bytes, base: map<string, UsageEntry>, s: State) {
    exists done :: Safe(log, final, base, s, done)
  }

  /** What must hold of the log as it finally is. */
  ghost predicate GoodLog(log: Log, final: Bytes) {
    && JsonRows(log.decode)
    && CleanLog(log.decode, final)
    && Faithful(Rows(log.decode, final))
  }

  // ------------------------------------------------------------------ storing a batch

  /** The batch is made of rows of the file. */
  ghost predicate FromRows(batch: seq<SessionEvent>, rows: seq<Row>) {
    forall e <- batch :: exists r <- rows :: r.event == e
  }

  /** The batch has an event that makes the entry of the row. */
  ghost predicate Holds(batch: seq<SessionEvent>, r: Row) {
    exists e <- batch :: NT.OwnEntry(e) == Own(r)
  }

  lemma {:induction false} UpsertEffect(table: map<string, UsageEntry>, entries: seq<UsageEntry>)
    requires forall a, b | a in entries && b in entries :: a.entryId == b.entryId ==> a == b
    ensures var t := Upsert(table, entries);
      && (forall x <- entries :: x.entryId in t && t[x.entryId] == x)
      && (forall id <- t ::
            (id in table && t[id] == table[id]) || (exists x <- entries :: x.entryId == id && t[id] == x))
      && (forall id <- table :: id in t && (t[id] == table[id] || exists x <- entries :: x.entryId == id && t[id] == x))
    decreases |entries|
  {
    if entries != [] {
      var x, rest := entries[0], entries[1..];
      UpsertEffect(table[x.entryId := x], rest);
      assert forall y :: y in entries <==> y == x || y in rest;
    }
  }

  /** Storing a batch of the file's rows keeps what was stored, adds the batch, and adds nothing else. */
  lemma BatchIsStored(rows: seq<Row>, base: map<string, UsageEntry>, done: seq<Row>, batch: seq<SessionEvent>,
                      usage: map<string, UsageEntry>, usage': map<string, UsageEntry>)
    requires Faithful(rows) && FromRows(batch, rows) && Normalized(batch, usage, usage')
    requires (forall r <- done :: r in rows) && AllStored(done, usage) && OnlyStored(rows, base, usage)
    ensures AllStored(done, usage') && OnlyStored(rows, base, usage')
    ensures forall r <- rows :: Holds(batch, r) ==> Id(r) in usage' && usage'[Id(r)] == Own(r)
  {
    hide Acceptable, IsBatch, Upsert, NT.OwnEntry, FromRows, Faithful, AllStored, OnlyStored;
    if batch != [] {
      var b :| IsBatch(batch, b) && usage' == Upsert(usage, b.entries);
      EntriesAreStored(rows, base, done, batch, b, usage);
    }
  }

  lemma EntriesAreStored(rows: seq<Row>, base: map<string, UsageEntry>, done: seq<Row>, batch: seq<SessionEvent>,
                         b: Batch, usage: map<string, UsageEntry>)
    requires Faithful(rows) && FromRows(batch, rows) && IsBatch(batch, b)
    requires (forall r <- done :: r in rows) && AllStored(done, usage) && OnlyStored(rows, base, usage)
    ensures var usage' := Upsert(usage, b.entries);
      && AllStored(done, usage') && OnlyStored(rows, base, usage')
      && forall r <- rows :: Holds(batch, r) ==> Id(r) in usage' && usage'[Id(r)] == Own(r)
  {
    hide IsBatch, Upsert, NT.OwnEntry, Faithful, FromRows, Own, Id;
    var usage' := Upsert(usage, b.entries);
    OwnEntries(rows, batch, b);
    UpsertEffect(usage, b.entries);
    forall r <- rows | Holds(batch, r)
      ensures Id(r) in usage' && usage'[Id(r)] == Own(r)
    {
      var e :| e in batch && NT.OwnEntry(e) == Own(r);
      assert NT.OwnEntry(e) in b.entries;
      OwnIds(rows);
    }
    forall r <- done
      ensures Id(r) in usage' && usage'[Id(r)] == Own(r)
    {
      StoredRow(rows, batch, b.entries, usage', r);
    }
    forall id <- usage'
      ensures (id in base && usage'[id] == base[id]) || exists r <- rows :: id == Id(r) && usage'[id] == Own(r)
    {
      if !(id in usage && usage'[id] == usage[id]) {
        var x :| x in b.entries && x.entryId == id && usage'[id] == x;
        var r := RowOfEntry(rows, batch, x);
        assert id == Id(r);
      }
    }
  }

  /** The entries of a batch are those of its events' rows, and no two of them share an id. */
  lemma OwnEntries(rows: seq<Row>, batch: seq<SessionEvent>, b: Batch)
    requires Faithful(rows) && FromRows(batch, rows) && IsBatch(batch, b)
    ensures forall x :: x in b.entries <==> exists e <- batch :: x == NT.OwnEntry(e)
    ensures forall x, y | x in b.entries && y in b.entries :: x.entryId == y.entryId ==> x == y
  {
    hide IsBatch, NT.OwnEntry, NT.SelfContained, Own, Id;
    forall e <- batch
      ensures NT.SelfContained(e)
    {
      var r :| r in rows && r.event == e;
    }
    NT.EntriesAreOwn(batch, b);
    hide FromRows, Faithful;
    forall x, y | x in b.entries && y in b.entries && x.entryId == y.entryId
      ensures x == y
    {
      var r := RowOfEntry(rows, batch, x);
      var q := RowOfEntry(rows, batch, y);
      Same(rows, r, q);
    }
  }

  lemma RowOfEntry(rows: seq<Row>, batch: seq<SessionEvent>, x: UsageEntry) returns (r: Row)
    requires FromRows(batch, rows) && exists e <- batch :: x == NT.OwnEntry(e)
    ensures r in rows && x == Own(r) && x.entryId == Id(r)
  {
    hide NT.OwnEntry;
    var e :| e in batch && x == NT.OwnEntry(e);
    r :| r in rows && r.event == e;
    OwnIds(rows);
  }

  lemma StoredRow(rows: seq<Row>, batch: seq<SessionEvent>, entries: seq<UsageEntry>, usage: map<string, UsageEntry>,
                  r: Row)
    requires Faithful(rows) && FromRows(batch, rows) && r in rows
    requires forall x <- entries :: exists e <- batch :: x == NT.OwnEntry(e)
    requires Id(r) in usage
    requires usage[Id(r)] == Own(r) || exists x <- entries :: x.entryId == Id(r) && usage[Id(r)] == x
    ensures usage[Id(r)] == Own(r)
  {
    hide NT.OwnEntry, Faithful, FromRows, Own, Id;
    if x :| x in entries && x.entryId == Id(r) && usage[Id(r)] == x {
      var q := RowOfEntry(rows, batch, x);
      Same(rows, q, r);
    }
  }

  lemma OwnIds(rows: seq<Row>)
    ensures forall r <- rows :: Own(r).entryId == Id(r)
  {
  }

  // ------------------------------------------------------------------ what one read finds

  /** De-duplication keeps the first row of every key, and rows of the file only. */
  lemma {:induction false} DedupKeeps(seen: set<string>, rows: seq<Row>)
    ensures forall r <- Dedup(seen, rows) :: r in rows
    ensures forall r <- rows :: r.key in seen || exists q <- Dedup(seen, rows) :: q.key == r.key
    decreases |rows|
  {
    if rows != [] {
      var seen' := if rows[0].key in seen then seen else seen + {rows[0].key};
      DedupKeeps(seen', rows[1..]);
      assert rows == [rows[0]] + rows[1..];
      DedupStep(seen, rows[0], rows[1..]);
    }
  }

  lemma DedupStep(seen: set<string>, x: Row, rest: seq<Row>)
    requires var seen' := if x.key in seen then seen else seen + {x.key};
      && (forall r <- Dedup(seen', rest) :: r in rest)
      && (forall r <- rest :: r.key in seen' || exists q <- Dedup(seen', rest) :: q.key == r.key)
    ensures forall r <- Dedup(seen, [x] + rest) :: r in [x] + rest
    ensures forall r <- [x] + rest :: r.key in seen || exists q <- Dedup(seen, [x] + rest) :: q.key == r.key
  {
    hide *;
    DedupFirst(seen, x, rest);
    if x.key !in seen {
      WithFirst(seen, x, rest, Dedup(seen + {x.key}, rest));
    }
  }

  lemma WithFirst(seen: set<string>, x: Row, rest: seq<Row>, kept: seq<Row>)
    requires forall r <- kept :: r in rest
    requires forall r <- rest :: r.key in seen + {x.key} || exists q <- kept :: q.key == r.key
    ensures forall r <- [x] + kept :: r in [x] + rest
    ensures forall r <- [x] + rest :: r.key in seen || exists q <- [x] + kept :: q.key == r.key
  {
    assert x in [x] + kept && forall q <- kept :: q in [x] + kept;
  }

  lemma DedupFirst(seen: set<string>, x: Row, rest: seq<Row>)
    ensures Dedup(seen, [x] + rest)
         == if x.key in seen then Dedup(seen, rest) else [x] + Dedup(seen + {x.key}, rest)
  {
    assert ([x] + rest)[1..] == rest;
  }

  /** Row p is the j-th that de-duplication keeps, and everything kept before it comes from before it. */
  ghost predicate Place(rows: seq<Row>, j: nat, p: nat) {
    && j < |Dedup({}, rows)| && p < |rows|
    && rows[p] == Dedup({}, rows)[j]
    && (forall i :: 0 <= i <= j ==> Dedup({}, rows)[i] in rows[..p + 1])
    && rows[p].key !in Keys(rows[..p])
  }

  /** What de-duplication keeps up to some row comes from the rows up to that row's first occurrence. */
  lemma {:induction false} DedupPosition(rows: seq<Row>, j: nat) returns (p: nat)
    requires j < |Dedup({}, rows)|
    ensures Place(rows, j, p)
    decreases |rows|
  {
    assert rows != [];
    hide *;
    var n := |rows| - 1;
    assert rows == rows[..n] + [rows[n]];
    if j < |Dedup({}, rows[..n])| {
      p := DedupPosition(rows[..n], j);
      PlaceStays(rows[..n], rows[n], j, p);
    } else {
      p := n;
      PlaceOfLast(rows[..n], rows[n], j);
    }
  }

  lemma PlaceStays(before: seq<Row>, x: Row, j: nat, p: nat)
    requires Place(before, j, p)
    ensures Place(before + [x], j, p)
  {
    hide Dedup, Keys;
    DedupLast(before, x);
    assert before[..p + 1] == (before + [x])[..p + 1] && before[..p] == (before + [x])[..p];
  }

  lemma PlaceOfLast(before: seq<Row>, x: Row, j: nat)
    requires |Dedup({}, before)| <= j < |Dedup({}, before + [x])|
    ensures Place(before + [x], j, |before|)
  {
    hide *;
    DedupLast(before, x);
    DedupKeeps({}, before + [x]);
    PlaceAtEnd(before, x);
  }

  lemma PlaceAtEnd(before: seq<Row>, x: Row)
    requires x.key !in Keys(before) && Dedup({}, before + [x]) == Dedup({}, before) + [x]
    requires forall r <- Dedup({}, before + [x]) :: r in before + [x]
    ensures Place(before + [x], |Dedup({}, before)|, |before|)
  {
    hide Dedup, Keys;
    var rows := before + [x];
    assert rows[..|before| + 1] == rows && rows[..|before|] == before;
  }

  lemma DedupLast(before: seq<Row>, x: Row)
    ensures Dedup({}, before + [x]) == Dedup({}, before) + if x.key in Keys(before) then [] else [x]
  {
    DedupAppend({}, before, [x]);
    assert {} + Keys(before) == Keys(before);
    DedupSingle(Keys(before), x);
  }

  lemma DedupSingle(seen: set<string>, x: Row)
    ensures Dedup(seen, [x]) == if x.key in seen then [] else [x]
  {
    assert [x][1..] == [];
  }

  /** Every row of a faithful file has its entry among the events one parse returns, and these are all of the file. */
  lemma EventsAreRows(rows: seq<Row>, part: seq<Row>)
    requires Faithful(rows) && forall r <- part :: r in rows
    ensures var events := EventsOf(Dedup({}, part));
      && FromRows(events, rows)
      && (forall r <- part :: Holds(events, r))
      && (events != [] ==> exists r <- part :: Marker(r) == EventMarker(events[|events| - 1]))
  {
    hide EventMarker, Faithful, Dedup, EventsOf, Holds;
    var events := EventsOf(Dedup({}, part));
    forall i | 0 <= i < |events|
      ensures exists r <- part :: r.event == events[i]
    {
      RowOfEvent(part, i);
    }
    if events != [] {
      var r :| r in part && r.event == events[|events| - 1];
      assert Marker(r) == EventMarker(events[|events| - 1]);
    }
    forall r <- part
      ensures Holds(events, r)
    {
      var q := KeptRow(rows, part, r);
      HeldBy(events, q, r);
    }
  }

  lemma HeldBy(events: seq<SessionEvent>, q: Row, r: Row)
    requires q.event in events && Own(q) == Own(r)
    ensures Holds(events, r)
  {
  }

  lemma RowOfEvent(part: seq<Row>, i: nat)
    requires i < |Dedup({}, part)|
    ensures exists r <- part :: r.event == EventsOf(Dedup({}, part))[i]
  {
    hide Dedup;
    DedupKeeps({}, part);
    assert Dedup({}, part)[i] in part;
  }

  /** The row that de-duplication keeps for another. */
  lemma KeptRow(rows: seq<Row>, part: seq<Row>, r: Row) returns (q: Row)
    requires Faithful(rows) && (forall x <- part :: x in rows) && r in part
    ensures q in part && q.event in EventsOf(Dedup({}, part)) && Own(q) == Own(r)
  {
    hide *;
    var kept := Dedup({}, part);
    DedupKeeps({}, part);
    q :| q in kept && q.key == r.key;
    Same(rows, q, r);
    EventOfRow(kept, q);
  }

  lemma EventOfRow(rows: seq<Row>, r: Row)
    requires r in rows
    ensures r.event in EventsOf(rows)
  {
    var i :| 0 <= i < |rows| && rows[i] == r;
    assert EventsOf(rows)[i] == r.event;
  }

  /** Replaying the file, what the marker suppresses was stored before. */
  lemma SuppressedIsStored(rows: seq<Row>, done: seq<Row>, part: seq<Row>, marker: string, e: SessionEvent)
    requires Faithful(rows) && done <= rows && part <= rows
    requires exists r <- done :: Marker(r) == marker
    requires var events := EventsOf(Dedup({}, part));
      e in events && e !in Unprocessed(events, marker)
    ensures exists r <- done :: r.event == e
  {
    hide EventMarker, Faithful, Dedup, Place, Unprocessed, Marker;
    var kept := Dedup({}, part);
    var events := EventsOf(kept);
    var j := LastMarked(events, marker, e);
    var p := DedupPosition(part, j);
    CarrierIsDone(rows, done, part, marker, j, p);
    var i :| 0 <= i <= j && events[i] == e;
    UpToPlace(rows, done, part, j, p, i);
  }

  /** The first row of a key whose marker was met was met itself. */
  lemma CarrierIsDone(rows: seq<Row>, done: seq<Row>, part: seq<Row>, marker: string, j: nat, p: nat)
    requires Faithful(rows) && done <= rows && part <= rows && Place(part, j, p)
    requires exists r <- done :: Marker(r) == marker
    requires EventMarker(EventsOf(Dedup({}, part))[j]) == marker
    ensures p < |done|
  {
    hide *;
    PlacedRow(part, j, p);
    var r :| r in done && Marker(r) == marker;
    var q :| 0 <= q < |done| && done[q] == r;
    assert rows[q] == r && rows[p] == part[p];
    Same(rows, r, part[p]);
    assert part[..p] == rows[..p];
    FirstOccurrence(rows, p, q);
  }

  lemma PlacedRow(part: seq<Row>, j: nat, p: nat)
    requires Place(part, j, p)
    ensures p < |part| && Marker(part[p]) == EventMarker(EventsOf(Dedup({}, part))[j])
    ensures part[p].key !in Keys(part[..p])
  {
    hide EventMarker, Dedup;
  }

  lemma UpToPlace(rows: seq<Row>, done: seq<Row>, part: seq<Row>, j: nat, p: nat, i: nat)
    requires done <= rows && part <= rows && Place(part, j, p) && p < |done| && i <= j
    ensures Dedup({}, part)[i] in done
  {
    hide Dedup;
    assert part[..p + 1] == done[..p + 1];
    assert Dedup({}, part)[i] in done[..p + 1];
  }

  lemma FirstOccurrence(rows: seq<Row>, p: nat, q: nat)
    requires p < |rows| && q < |rows| && rows[p].key !in Keys(rows[..p])
    ensures rows[q].key == rows[p].key ==> p <= q
  {
    assert q < p ==> rows[..p][q] in rows[..p];
  }

  lemma SuffixMembers<T>(s: seq<T>, k: nat)
    requires k <= |s|
    ensures forall i :: k <= i < |s| ==> s[i] in s[k..]
  {
    forall i | k <= i < |s|
      ensures s[i] in s[k..]
    {
      assert s[k..][i - k] == s[i];
    }
  }

  /** A suppressed event stands at or before a carrier of the marker. */
  lemma LastMarked(events: seq<SessionEvent>, marker: string, e: SessionEvent) returns (j: nat)
    requires e in events && e !in Unprocessed(events, marker)
    ensures j < |events| && EventMarker(events[j]) == marker
    ensures exists i :: 0 <= i <= j && events[i] == e
  {
    hide EventMarker, Unprocessed;
    var last: int := |events| - 1;
    while last >= 0 && EventMarker(events[last]) != marker
      invariant -1 <= last < |events|
      invariant forall i :: last < i < |events| ==> EventMarker(events[i]) != marker
    {
      last := last - 1;
    }
    UnprocessedIs(events, marker, last);
    SuffixMembers(events, last + 1);
    j := last;
  }

  // ------------------------------------------------------------------ safe cuts

  /** A safe cut, read at one continuation. */
  lemma CutAt(decode: Decoder, file: Bytes, offset: int, done: seq<Row>, more: Bytes)
    requires SafeCut(decode, file, offset, done) && CleanLog(decode, file + more)
    ensures CleanLog(decode, (file + more)[offset..])
    ensures Rows(decode, file + more) == done + Rows(decode, (file + more)[offset..])
  {
    hide CleanLog, Rows;
  }

  lemma SafeCutStays(decode: Decoder, file: Bytes, more: Bytes, offset: int, done: seq<Row>)
    requires SafeCut(decode, file, offset, done)
    ensures SafeCut(decode, file + more, offset, done)
  {
    hide CleanLog, Rows;
    forall rest: Bytes | CleanLog(decode, file + more + rest)
      ensures CleanLog(decode, (file + more + rest)[offset..])
      ensures Rows(decode, file + more + rest) == done + Rows(decode, (file + more + rest)[offset..])
    {
      Assoc(file, more, rest);
      CutAt(decode, file, offset, done, more + rest);
    }
  }

  /** Nothing read yet. */
  lemma SafeStart(decode: Decoder, file: Bytes)
    ensures SafeCut(decode, file, 0, [])
  {
    hide CleanLog, Rows;
    forall more: Bytes
      ensures (file + more)[0..] == file + more
    {
    }
  }

  /** Reading on from a safe cut to the end of the file leads to a safe cut. */
  lemma SafeRead(decode: Decoder, file: Bytes, offset: int, done: seq<Row>)
    requires JsonRows(decode) && SafeCut(decode, file, offset, done)
    ensures var content := file[offset..];
      SafeCut(decode, file, offset + NextOffset(decode, content), done + Rows(decode, content))
  {
    hide CleanLog, Rows, NextOffset, JsonRows;
    var content := file[offset..];
    var n := NextOffset(decode, content);
    forall more: Bytes | CleanLog(decode, file + more)
      ensures CleanLog(decode, (file + more)[offset + n..])
      ensures Rows(decode, file + more) == (done + Rows(decode, content)) + Rows(decode, (file + more)[offset + n..])
    {
      CutAt(decode, file, offset, done, more);
      assert (file + more)[offset..] == content + more;
      assert (file + more)[offset + n..] == (content + more)[n..];
      CutTheorem(decode, content, more);
      RestIsClean(decode, content, more);
      Assoc(done, Rows(decode, content), Rows(decode, (file + more)[offset + n..]));
    }
  }

  lemma PrefixOf(a: Bytes, b: Bytes) returns (rest: Bytes)
    requires a <= b
    ensures b == a + rest
  {
    rest := b[|a|..];
  }

  /** The rows behind a safe cut are the first rows of the final file. */
  lemma DoneIsPrefix(decode: Decoder, file: Bytes, offset: int, done: seq<Row>, final: Bytes)
    requires SafeCut(decode, file, offset, done) && file <= final && CleanLog(decode, final)
    ensures done <= Rows(decode, final)
  {
    hide CleanLog, Rows, SafeCut;
    var more := PrefixOf(file, final);
    CutAt(decode, file, offset, done, more);
  }

  lemma RowsArePrefix(decode: Decoder, file: Bytes, final: Bytes)
    requires JsonRows(decode) && file <= final && CleanLog(decode, final)
    ensures Rows(decode, file) <= Rows(decode, final)
  {
    hide CleanLog, Rows, JsonRows;
    var more := PrefixOf(file, final);
    CutTheorem(decode, file, more);
  }

  // ------------------------------------------------------------------ one ingestion

  /** What an ingestion from the rows done so far achieves, once its batch is stored and its checkpoint saved. */
  ghost predicate Advances(log: Log, final: Bytes, file: Bytes, done: seq<Row>, batch: seq<SessionEvent>,
                           next: Checkpoint, done': seq<Row>)
  {
    && FromRows(batch, Rows(log.decode, final))
    && SafeCut(log.decode, file, next.offset, done')
    && (forall r <- done' :: Holds(batch, r) || exists q <- done :: Own(q) == Own(r))
    && MarkerFits(done', Rows(log.decode, final), next.marker)
  }

  /** Reading on from the checkpoint. */
  lemma ReadingAdvances(log: Log, final: Bytes, base: map<string, UsageEntry>, s: State, file': Bytes, done: seq<Row>,
                        id: string)
    requires GoodLog(log, final) && Safe(log, final, base, s, done) && s.file <= file' <= final
    ensures var content := s.file[s.checkpoint.offset..];
      var events := Events(log.decode, content);
      var marker := if events == [] then s.checkpoint.marker else EventMarker(events[|events| - 1]);
      Advances(log, final, file', done, events,
               Checkpoint(log.path, id, s.checkpoint.offset + NextOffset(log.decode, content), marker),
               done + Rows(log.decode, content))
  {
    hide CleanLog, Rows, NextOffset, JsonRows, Faithful, EventMarker, CleanLine, SafeCut, AllStored, OnlyStored,
         FromRows, Dedup, EventsOf, Holds;
    var offset := s.checkpoint.offset;
    assert 0 <= offset <= |s.file| by { CutBounds(log.decode, s.file, offset, done); }
    var content := s.file[offset..];
    var part, rows := Rows(log.decode, content), Rows(log.decode, final);
    SafeRead(log.decode, s.file, offset, done);
    var more := PrefixOf(s.file, file');
    SafeCutStays(log.decode, s.file, more, offset + NextOffset(log.decode, content), done + part);
    DoneIsPrefix(log.decode, s.file, offset + NextOffset(log.decode, content), done + part, final);
    assert forall r <- part :: r in done + part;
    EventsAreRows(rows, part);
  }

  lemma CutBounds(decode: Decoder, file: Bytes, offset: int, done: seq<Row>)
    requires SafeCut(decode, file, offset, done)
    ensures 0 <= offset <= |file|
  {
  }

  /** Replaying the whole file, as it is when it is read, without what the marker suppresses. */
  lemma ReplayAdvances(log: Log, final: Bytes, base: map<string, UsageEntry>, s: State, read: Bytes, file': Bytes,
                       done: seq<Row>, id: string)
    requires GoodLog(log, final) && Safe(log, final, base, s, done) && s.file <= read <= file' <= final
    ensures var events := Events(log.decode, read);
      var batch := if s.checkpoint.marker != "" then Unprocessed(events, s.checkpoint.marker) else events;
      var marker := if events == [] then s.checkpoint.marker else EventMarker(events[|events| - 1]);
      Advances(log, final, file', done, batch,
               Checkpoint(log.path, id, NextOffset(log.decode, read), marker), Rows(log.decode, read))
  {
    hide CleanLog, Rows, NextOffset, JsonRows, Faithful, EventMarker, CleanLine, SafeCut, AllStored, OnlyStored,
         Dedup, EventsOf, Unprocessed, Holds;
    var part, rows := Rows(log.decode, read), Rows(log.decode, final);
    SafeStart(log.decode, read);
    SafeRead(log.decode, read, 0, []);
    assert read[0..] == read && [] + part == part;
    var more := PrefixOf(read, file');
    SafeCutStays(log.decode, read, more, NextOffset(log.decode, read), part);
    RowsArePrefix(log.decode, read, final);
    var events, marker := Events(log.decode, read), s.checkpoint.marker;
    EventsAreRows(rows, part);
    DoneInFile(log, final, base, s, read, done);
    if marker != "" {
      UnprocessedMembers(events, marker);
      DoneIsPrefix(log.decode, s.file, s.checkpoint.offset, done, final);
      assert MarkerFits(done, rows, marker);
      forall r <- part
        ensures Holds(Unprocessed(events, marker), r) || exists q <- done :: Own(q) == Own(r)
      {
        if Unmarked(rows, marker) {
          NothingSuppressed(log.decode, read, marker);
        } else {
          ReplayedOrDone(rows, done, part, marker, r);
        }
      }
    }
  }

  /** A marker that no row carries suppresses nothing. */
  lemma NothingSuppressed(decode: Decoder, file: Bytes, marker: string)
    requires Unmarked(Rows(decode, file), marker)
    ensures Unprocessed(Events(decode, file), marker) == Events(decode, file)
  {
    hide EventMarker, Unprocessed, Dedup, Rows;
    var rows := Rows(decode, file);
    var events := EventsOf(Dedup({}, rows));
    forall i | 0 <= i < |events|
      ensures EventMarker(events[i]) != marker
    {
      RowOfEvent(rows, i);
      var r :| r in rows && r.event == events[i];
    }
    UnprocessedIs(events, marker, -1);
  }

  /** A row of the replayed file has its entry in what is left, or in what was done before. */
  lemma ReplayedOrDone(rows: seq<Row>, done: seq<Row>, part: seq<Row>, marker: string, r: Row)
    requires Faithful(rows) && done <= rows && part <= rows && r in part
    requires exists q <- done :: Marker(q) == marker
    ensures Holds(Unprocessed(EventsOf(Dedup({}, part)), marker), r) || exists q <- done :: Own(q) == Own(r)
  {
    hide EventMarker, Faithful, Dedup, EventsOf, Holds, Unprocessed, Own, NT.OwnEntry;
    var events := EventsOf(Dedup({}, part));
    var k := KeptRow(rows, part, r);
    if k.event in Unprocessed(events, marker) {
      HeldBy(Unprocessed(events, marker), k, r);
    } else {
      SuppressedIsStored(rows, done, part, marker, k.event);
      var q :| q in done && q.event == k.event;
      SameEvent(q, k);
    }
  }

  lemma SameEvent(q: Row, k: Row)
    requires q.event == k.event
    ensures Own(q) == Own(k)
  {
  }

  lemma DoneInFile(log: Log, final: Bytes, base: map<string, UsageEntry>, s: State, file': Bytes, done: seq<Row>)
    requires GoodLog(log, final) && Safe(log, final, base, s, done) && s.file <= file' <= final
    ensures done <= Rows(log.decode, file')
  {
    hide CleanLog, Rows, JsonRows, Faithful, SafeCut, AllStored, OnlyStored, EventMarker;
    var more := PrefixOf(file', final);
    CleanPrefix(log.decode, file', more);
    DoneIsPrefix(log.decode, s.file, s.checkpoint.offset, done, file');
  }

  lemma {:induction false} UnprocessedMembers(events: seq<SessionEvent>, marker: string)
    ensures forall e <- Unprocessed(events, marker) :: e in events
    decreases |events|
  {
    hide EventMarker;
    if events != [] {
      UnprocessedMembers(events[..|events| - 1], marker);
    }
  }

  /** Every ingestion plans a batch and a checkpoint that move the invariant on. */
  lemma PlanAdvances(log: Log, final: Bytes, base: map<string, UsageEntry>, s: State, file': Bytes, done: seq<Row>,
                     ids: Identities)
    returns (done': seq<Row>)
    requires GoodLog(log, final) && Safe(log, final, base, s, done) && s.file <= file' <= final
    ensures var plan := PlanOf(log, s.checkpoint, s.file, file', ids);
      plan.Ingest? && Advances(log, final, file', done, plan.batch, plan.next, done')
    ensures s.file == file' == final ==> done' == Rows(log.decode, final)
  {
    hide CleanLog, Rows, NextOffset, JsonRows, Faithful, EventMarker, SafeCut, AllStored, OnlyStored, Events, Advances,
         Unprocessed, Marker;
    assert 0 <= s.checkpoint.offset <= |s.file| by { CutBounds(log.decode, s.file, s.checkpoint.offset, done); }
    var content := s.file[s.checkpoint.offset..];
    if MustReplay(s.checkpoint, log.path, ids.first, |s.file|) {
      ReplayAdvances(log, final, base, s, s.file, file', done, ids.first);
      done' := Rows(log.decode, s.file);
    } else if content != [] && Events(log.decode, content) == [] {
      ReplayAdvances(log, final, base, s, file', file', done, ids.second);
      done' := Rows(log.decode, file');
    } else {
      ReadingAdvances(log, final, base, s, file', done, ids.first);
      done' := done + Rows(log.decode, content);
      if s.file == file' == final {
        assert final + [] == final;
        CutAt(log.decode, final, s.checkpoint.offset, done, []);
      }
    }
  }

  /** Once the batch is stored the invariant holds with the old checkpoint, and with the new one. */
  lemma SafeAfter(log: Log, final: Bytes, base: map<string, UsageEntry>, s: State, s': State, done: seq<Row>,
                  batch: seq<SessionEvent>, next: Checkpoint, done': seq<Row>)
    requires GoodLog(log, final) && Safe(log, final, base, s, done) && s.file <= s'.file <= final
    requires Advances(log, final, s'.file, done, batch, next, done')
    requires Normalized(batch, s.usage, s'.usage)
    ensures s'.checkpoint == s.checkpoint ==> Safe(log, final, base, s', done)
    ensures s'.checkpoint == next ==> Safe(log, final, base, s', done')
  {
    hide CleanLog, Rows, JsonRows, Faithful, Marker, Own, SafeCut, OnlyStored, FromRows, Normalized, Holds;
    var rows := Rows(log.decode, final);
    DoneIsPrefix(log.decode, s.file, s.checkpoint.offset, done, final);
    DoneIsPrefix(log.decode, s'.file, next.offset, done', final);
    BatchIsStored(rows, base, done, batch, s.usage, s'.usage);
    var more := PrefixOf(s.file, s'.file);
    SafeCutStays(log.decode, s.file, more, s.checkpoint.offset, done);
    forall r <- done'
      ensures Id(r) in s'.usage && s'.usage[Id(r)] == Own(r)
    {
      if !Holds(batch, r) {
        var q :| q in done && Own(q) == Own(r);
        SameId(q, r);
      }
    }
  }

  lemma SameId(q: Row, r: Row)
    requires Own(q) == Own(r)
    ensures Id(q) == Id(r)
  {
    OwnIds([q, r]);
    hide Own, Id;
  }

  // ------------------------------------------------------------------ the coordinator takes these steps

  ghost function StateOf(c: WatchCoordinator, source: string, file: Bytes): State
    reads c, c.normalizer
  {
    State(file, c.Load(source), c.normalizer.usage)
  }

  /** One call of the coordinator on a Claude log is an ingestion step, and a saved checkpoint a complete one. */
  method IngestClaudeLog(c: WatchCoordinator, log: Log, file: Bytes, file': Bytes, ids: Identities, faults: Faults)
    returns (status: Status)
    requires file <= file'
    modifies c`checkpoints, c.normalizer
    ensures var source := Text.Trim("claude_code") + ":" + log.path;
      && (exists progress :: Ingestion(log, old(StateOf(c, source, file)), StateOf(c, source, file'), progress, ids))
      && (status == Saved ==>
            Ingestion(log, old(StateOf(c, source, file)), StateOf(c, source, file'), CheckpointSaved, ids))
  {
    hide Text.Trim, PlanFor, Normalized;
    ghost var source := Text.Trim("claude_code") + ":" + log.path;
    ghost var before := StateOf(c, source, file);
    status := c.IngestPath("claude_code", IncrementalTail, ClaudeParser(log.decode), log.path,
                           File(ids.first, file), File(ids.second, file'), faults);
    ghost var after := StateOf(c, source, file');
    if status == Saved {
      assert Ingestion(log, before, after, CheckpointSaved, ids);
    } else if after.usage == before.usage {
      assert Ingestion(log, before, after, NothingDone, ids);
    } else {
      assert Ingestion(log, before, after, BatchStored, ids);
    }
  }

  // ------------------------------------------------------------------ runs

  lemma InitIsSafe(log: Log, final: Bytes, s: State)
    requires Init(s) && s.file <= final
    ensures Inv(log, final, s.usage, s)
  {
    SafeStart(log.decode, s.file);
    assert Safe(log, final, s.usage, s, []);
  }

  /** Every step keeps the invariant, wherever it stops. */
  lemma StepKeepsInv(log: Log, final: Bytes, base: map<string, UsageEntry>, s: State, s': State)
    requires GoodLog(log, final) && Inv(log, final, base, s) && Step(log, s, s') && s'.file <= final
    ensures Inv(log, final, base, s')
  {
    hide Safe, GoodLog, PlanOf, Normalized, Advances;
    var done :| Safe(log, final, base, s, done);
    if Append(s, s') {
      FileGrows(log, final, base, s, s', done);
    } else {
      var progress, ids :| Ingestion(log, s, s', progress, ids);
      if progress == NothingDone {
        FileGrows(log, final, base, s, s', done);
      } else {
        var done' := PlanAdvances(log, final, base, s, s'.file, done, ids);
        var plan := PlanOf(log, s.checkpoint, s.file, s'.file, ids);
        SafeAfter(log, final, base, s, s', done, plan.batch, plan.next, done');
      }
    }
  }

  lemma FileGrows(log: Log, final: Bytes, base: map<string, UsageEntry>, s: State, s': State, done: seq<Row>)
    requires Safe(log, final, base, s, done) && s.file <= s'.file <= final && s' == s.(file := s'.file)
    ensures Safe(log, final, base, s', done)
  {
    hide SafeCut, AllStored, OnlyStored, Rows, Marker;
    var more := PrefixOf(s.file, s'.file);
    SafeCutStays(log.decode, s.file, more, s.checkpoint.offset, done);
  }

  lemma {:induction false} FilesGrow(log: Log, run: seq<State>, i: nat)
    requires Run(log, run) && i < |run|
    ensures run[i].file <= run[|run| - 1].file
    decreases |run| - i
  {
    hide PlanOf, Normalized;
    if i < |run| - 1 {
      FilesGrow(log, run, i + 1);
      assert Step(log, run[i], run[i + 1]);
    }
  }

  /** In every state of every run the saved offset is a safe cut, and everything before it is stored. */
  lemma {:induction false} InvAlways(log: Log, run: seq<State>, i: nat)
    requires Run(log, run) && i < |run|
    requires GoodLog(log, run[|run| - 1].file)
    ensures Inv(log, run[|run| - 1].file, run[0].usage, run[i])
    decreases i
  {
    hide Inv, GoodLog, Step, Init;
    FilesGrow(log, run, i);
    if i == 0 {
      InitIsSafe(log, run[|run| - 1].file, run[0]);
    } else {
      InvAlways(log, run, i - 1);
      StepKeepsInv(log, run[|run| - 1].file, run[0].usage, run[i - 1], run[i]);
    }
  }

  /**
   * Exactly once: whatever was appended, missed, interrupted or repeated before, when an ingestion of the file
   * as it finally is completes, the usage table is the one a single parse of the whole file makes of the first table.
   */
  lemma ExactlyOnce(log: Log, run: seq<State>, ids: Identities, once: Batch)
    requires Run(log, run) && |run| >= 2
    requires var last, final := run[|run| - 2], run[|run| - 1];
      && GoodLog(log, final.file)
      && last.file == final.file && Ingestion(log, last, final, CheckpointSaved, ids)
    requires IsBatch(Events(log.decode, run[|run| - 1].file), once)
    ensures run[|run| - 1].usage == Upsert(run[0].usage, once.entries)
  {
    hide Inv, GoodLog, Run, Ingestion, IsBatch, Upsert;
    InvAlways(log, run, |run| - 2);
    CompletedIsExact(log, run[0].usage, run[|run| - 2], run[|run| - 1], ids, once);
  }

  /** From any state the invariant allows, a completed ingestion of a file that does not grow is exact. */
  lemma CompletedIsExact(log: Log, base: map<string, UsageEntry>, s: State, s': State, ids: Identities, once: Batch)
    requires GoodLog(log, s'.file) && Inv(log, s'.file, base, s)
    requires s.file == s'.file && Ingestion(log, s, s', CheckpointSaved, ids)
    requires IsBatch(Events(log.decode, s'.file), once)
    ensures s'.usage == Upsert(base, once.entries)
  {
    hide Safe, PlanOf, GoodLog, IsBatch, Upsert, Normalized, Advances;
    var done :| Safe(log, s'.file, base, s, done);
    var done' := PlanAdvances(log, s'.file, base, s, s'.file, done, ids);
    var plan := PlanOf(log, s.checkpoint, s.file, s'.file, ids);
    SafeAfter(log, s'.file, base, s, s', done, plan.batch, plan.next, done');
    StoredExactly(log, s'.file, base, s', done');
    SingleParse(log, s'.file, base, once);
    SameTable(Rows(log.decode, s'.file), base, s'.usage, Upsert(base, once.entries));
  }

  /** Every row is one the normalizer accepts. */
  ghost predicate AllAccepted(rows: seq<Row>) {
    forall r <- rows :: NormalizeIncoming(r.event).Ok? && r.event.tokens.Valid() && r.event.costs.Valid()
  }

  lemma BatchOfFile(log: Log, file: Bytes, done: seq<Row>, batch: seq<SessionEvent>, next: Checkpoint, done': seq<Row>)
    requires Advances(log, file, file, done, batch, next, done')
    ensures FromRows(batch, Rows(log.decode, file))
  {
  }

  lemma BatchIsAccepted(batch: seq<SessionEvent>, rows: seq<Row>)
    requires FromRows(batch, rows) && AllAccepted(rows)
    ensures Acceptable(batch)
  {
    hide Acceptable, NormalizeIncoming;
    NT.AcceptableIff(batch);
  }

  /**
   * One ingestion without failures is enough: from any state that a run can reach, once the file has stopped growing
   * and its rows are acceptable, it completes, and the usage table is that of a single parse of the whole file.
   */
  method CatchUp(c: WatchCoordinator, log: Log, file: Bytes, ids: Identities, ghost base: map<string, UsageEntry>,
                 ghost once: Batch) returns (status: Status)
    requires GoodLog(log, file) && AllAccepted(Rows(log.decode, file))
    requires Inv(log, file, base, StateOf(c, Text.Trim("claude_code") + ":" + log.path, file))
    requires IsBatch(Events(log.decode, file), once)
    modifies c`checkpoints, c.normalizer
    ensures status == Saved && c.normalizer.usage == Upsert(base, once.entries)
  {
    hide Text.Trim, PlanFor, Normalized, GoodLog, AllAccepted, Safe, Upsert, IsBatch, Acceptable, Advances;
    ghost var source := Text.Trim("claude_code") + ":" + log.path;
    ghost var before := StateOf(c, source, file);
    ghost var done :| Safe(log, file, base, before, done);
    ghost var done' := PlanAdvances(log, file, base, before, file, done, ids);
    ghost var plan := PlanOf(log, before.checkpoint, file, file, ids);
    BatchOfFile(log, file, done, plan.batch, plan.next, done');
    BatchIsAccepted(plan.batch, Rows(log.decode, file));
    status := c.IngestPath("claude_code", IncrementalTail, ClaudeParser(log.decode), log.path,
                           File(ids.first, file), File(ids.second, file), Faults(false, false, false, false));
    ghost var after := StateOf(c, source, file);
    assert Ingestion(log, before, after, CheckpointSaved, ids);
    CompletedIsExact(log, base, before, after, ids, once);
  }

  lemma StoredExactly(log: Log, final: Bytes, base: map<string, UsageEntry>, s: State, done: seq<Row>)
    requires Safe(log, final, base, s, done) && done == Rows(log.decode, final)
    ensures AllStored(Rows(log.decode, final), s.usage) && OnlyStored(Rows(log.decode, final), base, s.usage)
  {
  }

  lemma SingleParse(log: Log, final: Bytes, base: map<string, UsageEntry>, once: Batch)
    requires GoodLog(log, final) && IsBatch(Events(log.decode, final), once)
    ensures AllStored(Rows(log.decode, final), Upsert(base, once.entries))
    ensures OnlyStored(Rows(log.decode, final), base, Upsert(base, once.entries))
  {
    hide Rows, Acceptable, IsBatch, Upsert, NT.OwnEntry, NT.SelfContained, Faithful, Dedup, EventsOf, CleanLog,
         JsonRows, Holds;
    var rows := Rows(log.decode, final);
    var events := Events(log.decode, final);
    EventsAreRows(rows, rows);
    OwnBatchIsStored(rows, base, events, once);
  }

  lemma OwnBatchIsStored(rows: seq<Row>, base: map<string, UsageEntry>, events: seq<SessionEvent>, once: Batch)
    requires Faithful(rows) && FromRows(events, rows) && IsBatch(events, once)
    requires forall r <- rows :: Holds(events, r)
    ensures AllStored(rows, Upsert(base, once.entries)) && OnlyStored(rows, base, Upsert(base, once.entries))
  {
    hide IsBatch, Upsert, NT.OwnEntry, Faithful, FromRows, Holds;
    EntriesAreStored(rows, base, [], events, once, base);
  }

  /** Two tables that hold all of these rows and otherwise what was there before are the same. */
  lemma SameTable(rows: seq<Row>, base: map<string, UsageEntry>, t: map<string, UsageEntry>,
                  u: map<string, UsageEntry>)
    requires AllStored(rows, t) && OnlyStored(rows, base, t) && AllStored(rows, u) && OnlyStored(rows, base, u)
    ensures t == u
  {
    hide Id, Own;
    forall id: string
      ensures id in t <==> id in u
      ensures id in t && id in u ==> t[id] == u[id]
    {
      if r :| r in rows && id == Id(r) {
        assert t[id] == Own(r) && u[id] == Own(r);
      }
    }
  }
}
