/**
 * Which logs survive every run: exactly those in which rows with the same key make the same entry and rows with the
 * same marker have the same key.
 */
module ExactlyOnceIff {
  import opened Bytes
  import opened ClaudeCut
  import opened ClaudeLog
  import opened Domain
  import opened ExactlyOnce
  import opened Normalizer
  import NT = NormalizerTheorems
  import opened Watcher

  // ------------------------------------------------------------------ the statement

  ghost predicate Completed(log: Log, s: State, s': State) {
    exists ids :: Ingestion(log, s, s', CheckpointSaved, ids)
  }

  /** A run that ends with a completed ingestion of the final file, after it stopped growing. */
  ghost predicate Completes(log: Log, run: seq<State>, final: Bytes) {
    && Run(log, run) && |run| >= 2
    && run[|run| - 2].file == run[|run| - 1].file == final
    && Completed(log, run[|run| - 2], run[|run| - 1])
  }

  /** Every such run leaves the usage table that a single parse of the whole file makes of the first table. */
  ghost predicate AlwaysExact(log: Log, final: Bytes) {
    forall run: seq<State>, once: Batch | Completes(log, run, final) && IsBatch(Events(log.decode, final), once) ::
      run[|run| - 1].usage == Upsert(run[0].usage, once.entries)
  }

  /** A log of JSON values whose rows the normalizer accepts. */
  ghost predicate Readable(log: Log, final: Bytes) {
    && JsonRows(log.decode) && CleanLog(log.decode, final)
    && Identified(Rows(log.decode, final)) && AllAccepted(Rows(log.decode, final))
  }

  // ------------------------------------------------------------------ storing rows with distinct keys

  ghost predicate DistinctKeys(rows: seq<Row>) {
    forall i, j :: 0 <= i < j < |rows| ==> rows[i].key != rows[j].key
  }

  lemma {:induction false} DedupDistinct(seen: set<string>, rows: seq<Row>)
    ensures DistinctKeys(Dedup(seen, rows))
    ensures forall r <- Dedup(seen, rows) :: r.key !in seen && r in rows
    decreases |rows|
  {
    if rows != [] {
      DedupDistinct(if rows[0].key in seen then seen else seen + {rows[0].key}, rows[1..]);
      assert forall r :: r in rows <==> r == rows[0] || r in rows[1..];
    }
  }

  /** The table holds the entries of these rows, and under other ids what it held before. */
  ghost predicate Stores(rows: seq<Row>, usage: map<string, UsageEntry>, usage': map<string, UsageEntry>) {
    && (forall r <- rows :: Id(r) in usage' && usage'[Id(r)] == Own(r))
    && (forall id <- usage' :: (exists r <- rows :: Id(r) == id) || (id in usage && usage[id] == usage'[id]))
  }

  /** A parsed batch keeps one row a key; storing it stores those rows. */
  lemma BatchStores(rows: seq<Row>, b: Batch, usage: map<string, UsageEntry>)
    requires DistinctKeys(rows) && Identified(rows) && IsBatch(EventsOf(rows), b)
    ensures Stores(rows, usage, Upsert(usage, b.entries))
  {
    hide IsBatch, Upsert, Own, Id, DistinctKeys, Identified, EventsOf;
    EntriesOfRows(rows, b);
    UpsertEffect(usage, b.entries);
    var usage' := Upsert(usage, b.entries);
    forall r <- rows
      ensures Id(r) in usage' && usage'[Id(r)] == Own(r)
    {
      OwnIds(rows);
      assert Own(r) in b.entries;
    }
    forall id <- usage'
      ensures (exists r <- rows :: Id(r) == id) || (id in usage && usage[id] == usage'[id])
    {
      if !(id in usage && usage'[id] == usage[id]) {
        var x :| x in b.entries && x.entryId == id && usage'[id] == x;
        var r :| r in rows && x == Own(r);
        OwnIds(rows);
      }
    }
  }

  lemma EntriesOfRows(rows: seq<Row>, b: Batch)
    requires DistinctKeys(rows) && Identified(rows) && IsBatch(EventsOf(rows), b)
    ensures forall x :: x in b.entries <==> exists r <- rows :: x == Own(r)
    ensures forall x, y | x in b.entries && y in b.entries :: x.entryId == y.entryId ==> x == y
  {
    hide IsBatch, NT.OwnEntry, NT.SelfContained, Id, EventsOf;
    var events := EventsOf(rows);
    EventsAre(rows);
    forall e <- events
      ensures NT.SelfContained(e)
    {
      var r :| r in rows && r.event == e;
    }
    NT.EntriesAreOwn(events, b);
    forall r <- rows
      ensures Own(r) in b.entries
    {
      assert r.event in events;
    }
    forall x <- b.entries
      ensures exists r <- rows :: x == Own(r)
    {
      var e :| e in events && x == NT.OwnEntry(e);
      var r :| r in rows && r.event == e;
      assert x == Own(r);
    }
    hide Own, DistinctKeys, Identified;
    forall x, y | x in b.entries && y in b.entries && x.entryId == y.entryId
      ensures x == y
    {
      var r :| r in rows && x == Own(r);
      var q :| q in rows && y == Own(q);
      OwnIds(rows);
      OneRowAnId(rows, r, q);
    }
  }

  lemma EventsAre(rows: seq<Row>)
    ensures forall e :: e in EventsOf(rows) <==> exists r <- rows :: r.event == e
  {
    var events := EventsOf(rows);
    forall r <- rows
      ensures r.event in events
    {
      EventOfRow(rows, r);
    }
    forall e <- events
      ensures exists r <- rows :: r.event == e
    {
      var i :| 0 <= i < |events| && events[i] == e;
      assert rows[i] in rows;
    }
  }

  lemma OneRowAnId(rows: seq<Row>, r: Row, q: Row)
    requires DistinctKeys(rows) && Identified(rows) && r in rows && q in rows && Id(r) == Id(q)
    ensures r == q
  {
    hide Id, Marker;
    assert SameNames(r, q);
    OneRowAKey(rows, r, q);
  }

  lemma OneRowAKey(rows: seq<Row>, r: Row, q: Row)
    requires DistinctKeys(rows) && r in rows && q in rows && r.key == q.key
    ensures r == q
  {
    var i :| 0 <= i < |rows| && rows[i] == r;
    var j :| 0 <= j < |rows| && rows[j] == q;
  }

  /** Such rows can be stored. */
  lemma StoreRows(rows: seq<Row>, usage: map<string, UsageEntry>) returns (usage': map<string, UsageEntry>)
    requires DistinctKeys(rows) && Identified(rows) && AllAccepted(rows)
    ensures Normalized(EventsOf(rows), usage, usage') && Stores(rows, usage, usage')
  {
    hide IsBatch, Upsert, Own, Id, DistinctKeys, Identified, Acceptable, AllAccepted;
    if rows == [] {
      usage' := usage;
    } else {
      var b := NT.SomeBatch(EventsOf(rows));
      usage' := Upsert(usage, b.entries);
      BatchStores(rows, b, usage);
      EventsAre(rows);
      BatchIsAccepted(EventsOf(rows), rows);
    }
  }

  lemma Parts(rows: seq<Row>, part: seq<Row>)
    requires forall r <- part :: r in rows
    ensures Identified(rows) ==> Identified(part)
    ensures AllAccepted(rows) ==> AllAccepted(part)
  {
    hide SameNames, NT.SelfContained, NormalizeIncoming;
  }

  // ------------------------------------------------------------------ cutting a log between rows

  /** A log can be cut in front of any of its rows, behind a line end. */
  lemma {:induction false} CutBefore(decode: Decoder, c: Bytes, k: nat) returns (p: Bytes)
    requires k < |Rows(decode, c)|
    ensures p <= c && Tail(p) == [] && Rows(decode, p) == Rows(decode, c)[..k]
    decreases |c|
  {
    hide RowOf, RowsOf, Rows, Lines, Tail;
    if k == 0 {
      p := [];
      NoBytes(decode);
    } else {
      OneLineOnly(decode, c);
      FirstLine(decode, c);
      LineEndIs(c);
      var n := LineEnd(c);
      var line, rest := c[..n], c[n + 1..];
      AtMostOneRow(decode, line);
      var m := |RowOf(decode, line)|;
      var q := CutBefore(decode, rest, k - m);
      p := line + [LF] + q;
      assert c == line + [LF] + rest;
      LineInFront(decode, line, q);
      assert Rows(decode, c)[..k] == RowOf(decode, line) + Rows(decode, rest)[..k - m];
    }
  }

  lemma {:induction false} LineEndIs(c: Bytes)
    requires LineEnd(c) < |c|
    ensures c[LineEnd(c)] == LF && LineEnd(c[..LineEnd(c)]) == LineEnd(c)
  {
    if c[0] != LF {
      LineEndIs(c[1..]);
      assert c[..LineEnd(c)][1..] == c[1..][..LineEnd(c[1..])];
    }
  }

  lemma NoBytes(decode: Decoder)
    ensures Tail([]) == [] && Rows(decode, []) == []
  {
    assert Blank(TrimCR([]));
  }

  lemma AtMostOneRow(decode: Decoder, line: Bytes)
    ensures |RowOf(decode, line)| <= 1
  {
  }

  /** Without a line end there is one row at most. */
  lemma OneLineOnly(decode: Decoder, c: Bytes)
    ensures |Rows(decode, c)| > 1 ==> LineEnd(c) < |c|
  {
    if LineEnd(c) == |c| {
      NoLines(c);
      AtMostOneRow(decode, c);
    }
  }

  lemma LineInFront(decode: Decoder, line: Bytes, q: Bytes)
    requires LineEnd(line) == |line| && Tail(q) == []
    ensures Rows(decode, line + [LF] + q) == RowOf(decode, line) + Rows(decode, q) && Tail(line + [LF] + q) == []
  {
    var c := line + [LF] + q;
    LineEndAppend(line, [LF] + q);
    assert c == line + ([LF] + q);
    assert LineEnd([LF] + q) == 0;
    hide RowOf, RowsOf, Rows, Lines, Tail, LineEnd;
    assert c[..|line|] == line && c[|line| + 1..] == q;
    FirstLine(decode, c);
  }

  // ------------------------------------------------------------------ what an ingestion plans

  const IDS := Identities("i", "i")

  /** The checkpoint of a file read to its end of terminated lines. */
  function CheckpointAt(log: Log, offset: int, marker: string): Checkpoint {
    Checkpoint(log.path, "i", offset, marker)
  }

  lemma FirstPlan(log: Log, p: Bytes)
    requires Tail(p) == []
    ensures var events := Events(log.decode, p);
      PlanOf(log, NO_CHECKPOINT, p, p, IDS) == Ingest(events, CheckpointAt(log, |p|, LastMarker(events, "")))
  {
    AllRead(log.decode, p);
    hide Events, EventMarker, Unprocessed, NextOffset, Tail, PlanOf;
    ForcedReplay(log, NO_CHECKPOINT, p, p, IDS);
  }

  lemma ForcedReplay(log: Log, cp: Checkpoint, file: Bytes, file': Bytes, ids: Identities)
    requires MustReplay(cp, log.path, ids.first, |file|)
    ensures PlanOf(log, cp, file, file', ids)
         == Conclude(IncrementalTail, log.path, cp, ids.first, 0, true, Events(log.decode, file),
                     NextOffset(log.decode, file))
  {
    hide Events, NextOffset, MustReplay, Conclude;
  }

  lemma AllRead(decode: Decoder, p: Bytes)
    requires Tail(p) == []
    ensures NextOffset(decode, p) == |p|
  {
    assert Blank(TrimCR(Tail(p)));
  }

  /** Reading on from a checkpoint, with events. */
  lemma TailPlan(log: Log, p: Bytes, file: Bytes, marker: string)
    requires p <= file && Events(log.decode, file[|p|..]) != []
    ensures var plan := PlanOf(log, CheckpointAt(log, |p|, marker), file, file, IDS);
      plan.Ingest? && plan.batch == Events(log.decode, file[|p|..])
  {
    hide Events, EventMarker, Unprocessed, NextOffset;
  }

  /** Reading on without events replays the file as it has become. */
  lemma ReplayPlan(log: Log, offset: int, file: Bytes, file': Bytes, marker: string)
    requires 0 <= offset < |file| && Events(log.decode, file[offset..]) == [] && marker != ""
    ensures var events := Events(log.decode, file');
      PlanOf(log, CheckpointAt(log, offset, marker), file, file', IDS)
      == Ingest(Unprocessed(events, marker),
                CheckpointAt(log, NextOffset(log.decode, file'), LastMarker(events, marker)))
  {
    hide Events, EventMarker, Unprocessed, NextOffset;
  }

  /** Nothing is left of a file that was just read. */
  lemma LastPlan(log: Log, file: Bytes, marker: string)
    requires JsonRows(log.decode) && CleanLog(log.decode, file) && marker != ""
    requires marker == LastMarker(Events(log.decode, file), marker)
    ensures var plan := PlanOf(log, CheckpointAt(log, NextOffset(log.decode, file), marker), file, file, IDS);
      plan.Ingest? && plan.batch == []
  {
    var n := NextOffset(log.decode, file);
    NothingLeft(log.decode, file);
    hide Events, EventMarker, Unprocessed, NextOffset, JsonRows, CleanLog;
    if n < |file| {
      ReplayPlan(log, n, file, file, marker);
      NothingUnprocessed(Events(log.decode, file), marker);
    } else {
      NothingToRead(log, file, marker);
    }
  }

  lemma NothingUnprocessed(events: seq<SessionEvent>, marker: string)
    requires marker == LastMarker(events, marker)
    ensures Unprocessed(events, marker) == []
  {
  }

  lemma NothingToRead(log: Log, file: Bytes, marker: string)
    requires Events(log.decode, []) == []
    ensures var plan := PlanOf(log, CheckpointAt(log, |file|, marker), file, file, IDS);
      plan.Ingest? && plan.batch == []
  {
    hide Events, EventMarker, Unprocessed, NextOffset;
    assert file[|file|..] == [];
  }

  lemma NothingLeft(decode: Decoder, file: Bytes)
    requires JsonRows(decode) && CleanLog(decode, file)
    ensures Events(decode, file[NextOffset(decode, file)..]) == [] && Events(decode, []) == []
  {
    hide CleanLog, JsonRows, Rows, NextOffset;
    assert file + [] == file;
    CutTheorem(decode, file, []);
    NoBytes(decode);
    var rest := file[NextOffset(decode, file)..];
    assert Rows(decode, rest) == [];
  }

  // ------------------------------------------------------------------ building runs

  lemma RunStarts(log: Log, s: State)
    requires Init(s)
    ensures Run(log, [s])
  {
  }

  lemma RunExtends(log: Log, run: seq<State>, s: State)
    requires Run(log, run) && Step(log, run[|run| - 1], s)
    ensures Run(log, run + [s])
  {
    hide Step, Init;
    var all := run + [s];
    forall i | 0 <= i < |all| - 1
      ensures Step(log, all[i], all[i + 1])
    {
      assert i < |run| - 1 ==> Step(log, run[i], run[i + 1]);
    }
  }

  /** One ingestion that completes, from a state to the next. */
  lemma Ingests(log: Log, run: seq<State>, s': State)
    requires Run(log, run) && run != []
    requires var s := run[|run| - 1];
      var plan := PlanOf(log, s.checkpoint, s.file, s'.file, IDS);
      && s.file <= s'.file && plan.Ingest? && s'.checkpoint == plan.next && Normalized(plan.batch, s.usage, s'.usage)
    ensures Run(log, run + [s']) && Completed(log, run[|run| - 1], s')
  {
    hide PlanOf, Normalized, Run;
    assert Ingestion(log, run[|run| - 1], s', CheckpointSaved, IDS);
    RunExtends(log, run, s');
  }

  lemma Appends(log: Log, run: seq<State>, file: Bytes)
    requires run != [] && Run(log, run) && run[|run| - 1].file <= file
    ensures Run(log, run + [run[|run| - 1].(file := file)])
  {
    hide Run, Ingestion;
    assert Append(run[|run| - 1], run[|run| - 1].(file := file));
    RunExtends(log, run, run[|run| - 1].(file := file));
  }

  lemma RunCompletes(log: Log, run: seq<State>, s': State, final: Bytes)
    requires Run(log, run + [s']) && run != [] && Completed(log, run[|run| - 1], s')
    requires run[|run| - 1].file == s'.file == final
    ensures Completes(log, run + [s'], final)
  {
    hide Run, Completed;
    var all := run + [s'];
    assert all[|all| - 2] == run[|run| - 1] && all[|all| - 1] == s';
  }

  /** One run with another table is enough. */
  lemma NotAlwaysExact(log: Log, final: Bytes, run: seq<State>, once: Batch)
    requires Completes(log, run, final) && IsBatch(Events(log.decode, final), once)
    requires run[0].usage == map[] && run[|run| - 1].usage != Upsert(map[], once.entries)
    ensures !AlwaysExact(log, final)
  {
    hide Completes, IsBatch, Upsert;
  }

  /** The first ingestion of a file whose rows are some first rows of the log. */
  lemma FirstIngestion(log: Log, final: Bytes, p: Bytes, k: nat) returns (run: seq<State>)
    requires Readable(log, final) && k <= |Rows(log.decode, final)|
    requires Tail(p) == [] && Rows(log.decode, p) == Rows(log.decode, final)[..k]
    ensures var front := Dedup({}, Rows(log.decode, final)[..k]);
      && |run| > 0 && Run(log, run) && run[0].usage == map[]
      && run[|run| - 1].file == p
      && run[|run| - 1].checkpoint == CheckpointAt(log, |p|, LastMarker(EventsOf(front), ""))
      && Stores(front, map[], run[|run| - 1].usage)
  {
    hide *;
    var rows := Rows(log.decode, final);
    var front := Dedup({}, rows[..k]);
    DedupParts(log, final, rows[..k]);
    var usage := StoreRows(front, map[]);
    EventsAt(log.decode, p);
    FirstPlan(log, p);
    var s := State(p, NO_CHECKPOINT, map[]);
    var s' := State(p, CheckpointAt(log, |p|, LastMarker(EventsOf(front), "")), usage);
    assert Init(s) by { StartsEmpty(p); }
    RunStarts(log, s);
    Ingests(log, [s], s');
    run := [s] + [s'];
  }

  lemma StartsEmpty(p: Bytes)
    ensures Init(State(p, NO_CHECKPOINT, map[]))
  {
  }

  lemma EventsAt(decode: Decoder, c: Bytes)
    ensures Events(decode, c) == EventsOf(Dedup({}, Rows(decode, c)))
  {
  }

  /** The rows that de-duplication keeps of part of the log can be stored. */
  lemma DedupParts(log: Log, final: Bytes, part: seq<Row>)
    requires Readable(log, final) && forall r <- part :: r in Rows(log.decode, final)
    ensures var kept := Dedup({}, part);
      DistinctKeys(kept) && Identified(kept) && AllAccepted(kept) && forall r <- kept :: r in part
  {
    hide Dedup, DistinctKeys, Identified, AllAccepted, JsonRows, CleanLog, Rows;
    DedupDistinct({}, part);
    Parts(Rows(log.decode, final), Dedup({}, part));
  }

  /** A log cut in front of a row: what is behind the cut are the rows from there on. */
  lemma RowsBehind(decode: Decoder, final: Bytes, p: Bytes, k: nat)
    requires JsonRows(decode) && CleanLog(decode, final) && p <= final && Tail(p) == []
    requires k <= |Rows(decode, final)| && Rows(decode, p) == Rows(decode, final)[..k]
    ensures Rows(decode, final[|p|..]) == Rows(decode, final)[k..]
  {
    var more := PrefixOf(p, final);
    CutTheorem(decode, p, more);
    AllRead(decode, p);
    hide *;
    CutsAt(decode, p, more);
    assert Rows(decode, final) == Rows(decode, final)[..k] + Rows(decode, final[|p|..]);
  }

  lemma CutsAt(decode: Decoder, p: Bytes, s: Bytes)
    requires CutsExactly(decode, p, s)
    ensures Rows(decode, p + s) == Rows(decode, p) + Rows(decode, (p + s)[NextOffset(decode, p)..])
  {
  }

  // ------------------------------------------------------------------ one key, two entries

  /** The table with a row stored is not that of a parse which keeps another row for its key. */
  lemma TablesDiffer(kept: seq<Row>, back: seq<Row>, rows: seq<Row>, k: Row, r: Row, before: map<string, UsageEntry>,
                     usage: map<string, UsageEntry>, single: map<string, UsageEntry>)
    requires Stores(back, before, usage) && r in back && Own(r) != Own(k)
    requires Stores(kept, map[], single) && DistinctKeys(kept) && k in kept && k.key == r.key
    requires Identified(rows) && r in rows && forall x <- kept :: x in rows
    ensures usage != single
  {
    hide Own, Id, DistinctKeys, Marker;
    if Id(r) in single {
      var q :| q in kept && Id(q) == Id(r);
      assert SameNames(q, r);
      OneRowAKey(kept, q, k);
    }
  }

  lemma FirstIsKept(rows: seq<Row>)
    requires rows != []
    ensures Dedup({}, rows) != [] && Dedup({}, rows)[0] == rows[0]
  {
  }

  /** Cut in front of a row whose key was used for another entry, the log has this row stored, too or instead. */
  lemma StoredAgain(log: Log, final: Bytes, q: nat, k: Row)
    requires Readable(log, final) && q < |Rows(log.decode, final)|
    requires var rows := Rows(log.decode, final);
      k in Dedup({}, rows) && k.key == rows[q].key && Own(rows[q]) != Own(k)
    ensures !AlwaysExact(log, final)
  {
    hide *;
    var rows := Rows(log.decode, final);
    ReadableParts(log, final);
    var p := CutBefore(log.decode, final, q);
    RowsBehind(log.decode, final, p, q);
    var run := FirstIngestion(log, final, p, q);
    Appends(log, run, final);
    var s := run[|run| - 1].(file := final);
    var back := Dedup({}, rows[q..]);
    assert forall r <- rows[q..] :: r in rows;
    DedupParts(log, final, rows[q..]);
    FirstIsKept(rows[q..]);
    assert back[0] == rows[q] && rows[q] in back;
    EventsAt(log.decode, final[|p|..]);
    TailPlan(log, p, final, LastMarker(EventsOf(Dedup({}, rows[..q])), ""));
    var usage := StoreRows(back, s.usage);
    var plan := PlanOf(log, s.checkpoint, final, final, IDS);
    var s' := State(final, plan.next, usage);
    Ingests(log, run + [s], s');
    RunCompletes(log, run + [s], s', final);
    var once := NT.SomeBatch(Events(log.decode, final));
    EventsAt(log.decode, final);
    DedupParts(log, final, rows);
    BatchStores(Dedup({}, rows), once, map[]);
    TablesDiffer(Dedup({}, rows), back, rows, k, rows[q], s.usage, usage, Upsert(map[], once.entries));
    var all := run + [s] + [s'];
    assert all[|all| - 1] == s';
    NotAlwaysExact(log, final, all, once);
  }

  lemma ReadableParts(log: Log, final: Bytes)
    requires Readable(log, final)
    ensures JsonRows(log.decode) && CleanLog(log.decode, final)
    ensures Identified(Rows(log.decode, final)) && AllAccepted(Rows(log.decode, final))
  {
  }

  // ------------------------------------------------------------------ one marker, two keys

  /** What a replay leaves behind the last carrier of the marker: rows that come later than row j. */
  lemma LeftBehind(kept: seq<Row>, marker: string, j: nat) returns (l: nat)
    requires j < |kept| && Marker(kept[j]) == marker
    ensures j < l <= |kept| && Unprocessed(EventsOf(kept), marker) == EventsOf(kept[l..])
  {
    hide EventMarker, Unprocessed, EventsOf;
    var events := EventsOf(kept);
    var last: int := |events| - 1;
    while EventMarker(events[last]) != marker
      invariant j <= last < |events|
      invariant forall i :: last < i < |events| ==> EventMarker(events[i]) != marker
      decreases last
    {
      last := last - 1;
    }
    UnprocessedIs(events, marker, last);
    l := last + 1;
    EventsFrom(kept, l);
  }

  lemma EventsFrom(rows: seq<Row>, l: nat)
    requires l <= |rows|
    ensures EventsOf(rows)[l..] == EventsOf(rows[l..])
  {
  }

  /** The rows kept up to a kept row: it is the last of them, and more of the log follows unless it is the last kept. */
  lemma CutBehindKept(rows: seq<Row>, i: nat) returns (k: nat)
    requires i + 1 < |Dedup({}, rows)|
    ensures 0 < k < |rows| && Dedup({}, rows[..k]) == Dedup({}, rows)[..i + 1]
  {
    hide *;
    var kept := Dedup({}, rows);
    DedupDistinct({}, rows);
    var p := DedupPosition(rows, i);
    PlaceIs(rows, i, p);
    k := p + 1;
    assert rows == rows[..k] + rows[k..];
    DedupAppend({}, rows[..k], rows[k..]);
    var front := Dedup({}, rows[..k]);
    assert rows[..k] == rows[..p] + [rows[p]];
    DedupLast(rows[..p], rows[p]);
    assert front[|front| - 1] == kept[i];
    DistinctAt(kept, |front| - 1, i);
    assert rows[..|rows|] == rows;
  }

  lemma DistinctAt(rows: seq<Row>, i: nat, j: nat)
    requires DistinctKeys(rows) && i < |rows| && j < |rows| && rows[i] == rows[j]
    ensures i == j
  {
  }

  lemma PlaceIs(rows: seq<Row>, j: nat, p: nat)
    requires Place(rows, j, p)
    ensures p < |rows| && j < |Dedup({}, rows)| && rows[p] == Dedup({}, rows)[j] && rows[p].key !in Keys(rows[..p])
  {
  }

  /** A single byte is no row. */
  lemma NoRowInByte(decode: Decoder, b: byte)
    requires JsonRows(decode)
    ensures Rows(decode, [b]) == []
  {
    RowOfLine(decode, [b]);
    RowOfLine(decode, []);
    if b == LF {
      assert LineEnd([b]) == 0 && [b][..0] == [] && [b][1..] == [];
      FirstLine(decode, [b]);
      NoBytes(decode);
    } else {
      NoLineEnd([b]);
      NoLines([b]);
    }
  }

  /** Nothing with this row's id is stored when neither the rows before it nor those after it have its key. */
  lemma NotStored(kept: seq<Row>, i: nat, j: nat, l: nat, before: map<string, UsageEntry>,
                  usage: map<string, UsageEntry>)
    requires DistinctKeys(kept) && Identified(kept) && i < j < l <= |kept|
    requires Stores(kept[..i + 1], map[], before) && Stores(kept[l..], before, usage)
    ensures Id(kept[j]) !in usage
  {
    hide Id, Own, Identified, DistinctKeys;
    OtherIds(kept, 0, i + 1, j);
    OtherIds(kept, l, |kept|, j);
    assert kept[0..i + 1] == kept[..i + 1] && kept[l..|kept|] == kept[l..];
  }

  lemma OtherIds(kept: seq<Row>, lo: nat, hi: nat, j: nat)
    requires DistinctKeys(kept) && Identified(kept) && lo <= hi <= |kept| && j < |kept| && !(lo <= j < hi)
    ensures forall r <- kept[lo..hi] :: Id(r) != Id(kept[j])
  {
    hide Id, Identified, DistinctKeys;
    forall r <- kept[lo..hi]
      ensures Id(r) != Id(kept[j])
    {
      var m :| 0 <= m < hi - lo && kept[lo..hi][m] == r;
      assert kept[lo + m] == r;
      OtherId(kept, lo + m, j);
    }
  }

  lemma OtherId(kept: seq<Row>, m: nat, j: nat)
    requires DistinctKeys(kept) && Identified(kept) && m < |kept| && j < |kept| && m != j
    ensures Id(kept[m]) != Id(kept[j])
  {
    hide Id, Marker;
    assert SameNames(kept[m], kept[j]);
  }

  /** The log is read up to a kept row; then one more byte is written, too little for an event. */
  lemma StoppedBehind(log: Log, final: Bytes, i: nat) returns (run: seq<State>, p: Bytes)
    requires Readable(log, final) && i + 1 < |Dedup({}, Rows(log.decode, final))|
    ensures var kept := Dedup({}, Rows(log.decode, final));
      && |run| > 0 && Run(log, run) && run[0].usage == map[] && |p| < |final|
      && var s := run[|run| - 1];
      && s.file == p + [final[|p|]] <= final
      && s.checkpoint == CheckpointAt(log, |p|, Marker(kept[i])) && Stores(kept[..i + 1], map[], s.usage)
  {
    hide *;
    var rows := Rows(log.decode, final);
    ReadableParts(log, final);
    DedupParts(log, final, rows);
    var k := CutBehindKept(rows, i);
    p := CutBefore(log.decode, final, k);
    RowsBehind(log.decode, final, p, k);
    var first := FirstIngestion(log, final, p, k);
    MarkerOfLast(Dedup({}, rows)[..i + 1], i);
    NotAllRead(log.decode, final, p, k);
    var file := p + [final[|p|]];
    assert file <= final;
    Appends(log, first, file);
    run := first + [first[|first| - 1].(file := file)];
  }

  /** A later row with the marker of a row that was read before is suppressed when the log is replayed, and lost. */
  lemma Suppressed(log: Log, final: Bytes, i: nat, j: nat)
    requires Readable(log, final)
    requires var kept := Dedup({}, Rows(log.decode, final));
      i < j < |kept| && Marker(kept[i]) == Marker(kept[j])
    ensures !AlwaysExact(log, final)
  {
    hide *;
    var rows := Rows(log.decode, final);
    var kept := Dedup({}, rows);
    ReadableParts(log, final);
    DedupParts(log, final, rows);
    var run, p := StoppedBehind(log, final, i);
    var s := run[|run| - 1];
    var m := Marker(kept[i]);
    SomeMarkerOf(kept, i);
    assert s.file[|p|..] == [final[|p|]];
    NoRowInByte(log.decode, final[|p|]);
    NoEvents(log.decode, [final[|p|]]);
    EventsAt(log.decode, final);
    ReplayPlan(log, |p|, s.file, final, m);
    var l := LeftBehind(kept, m, j);
    assert forall r <- kept[l..] :: r in kept;
    Parts(kept, kept[l..]);
    DistinctFrom(kept, l);
    var usage := StoreRows(kept[l..], s.usage);
    var m' := LastMarker(EventsOf(kept), m);
    var s' := State(final, CheckpointAt(log, NextOffset(log.decode, final), m'), usage);
    Ingests(log, run, s');

    // and an ingestion that finds nothing more
    LastIsMarked(kept, m);
    LastPlan(log, final, m');
    var plan := PlanOf(log, s'.checkpoint, final, final, IDS);
    var s'' := State(final, plan.next, usage);
    NormalizedNothing(usage);
    Ingests(log, run + [s'], s'');
    RunCompletes(log, run + [s'], s'', final);

    var once := NT.SomeBatch(Events(log.decode, final));
    BatchStores(kept, once, map[]);
    NotStored(kept, i, j, l, s.usage, usage);
    StoredRowIs(kept, map[], Upsert(map[], once.entries), j);
    var all := run + [s'] + [s''];
    assert all[|all| - 1] == s'';
    NotAlwaysExact(log, final, all, once);
  }

  lemma MarkerOfLast(rows: seq<Row>, i: nat)
    requires |rows| == i + 1
    ensures LastMarker(EventsOf(rows), "") == Marker(rows[i])
  {
    hide EventMarker;
  }

  lemma SomeMarkerOf(rows: seq<Row>, i: nat)
    requires Identified(rows) && i < |rows|
    ensures Marker(rows[i]) != ""
  {
    hide SameNames, Marker;
    assert rows[i] in rows;
  }

  lemma LastIsMarked(rows: seq<Row>, marker: string)
    requires Identified(rows) && rows != []
    ensures var m := LastMarker(EventsOf(rows), marker);
      m != "" && m == LastMarker(EventsOf(rows), m)
  {
    hide EventMarker, SameNames, NT.SelfContained;
    assert Marker(rows[|rows| - 1]) != "";
  }

  lemma NoEvents(decode: Decoder, c: Bytes)
    requires Rows(decode, c) == []
    ensures Events(decode, c) == []
  {
  }

  lemma NotAllRead(decode: Decoder, final: Bytes, p: Bytes, k: nat)
    requires p <= final && k < |Rows(decode, final)| && Rows(decode, p) == Rows(decode, final)[..k]
    ensures |p| < |final|
  {
    hide *;
    if |p| == |final| {
      WholeFile(p, final);
    }
  }

  lemma WholeFile(p: Bytes, final: Bytes)
    requires p <= final && |p| == |final|
    ensures p == final
  {
  }

  lemma DistinctFrom(rows: seq<Row>, l: nat)
    requires DistinctKeys(rows) && l <= |rows|
    ensures DistinctKeys(rows[l..])
  {
  }

  lemma StoredRowIs(rows: seq<Row>, before: map<string, UsageEntry>, usage: map<string, UsageEntry>, j: nat)
    requires Stores(rows, before, usage) && j < |rows|
    ensures Id(rows[j]) in usage
  {
    hide Id, Own;
    assert rows[j] in rows;
  }

  // ------------------------------------------------------------------ the theorem

  /** The row kept for a row of the log. */
  lemma KeptFor(rows: seq<Row>, r: Row) returns (i: nat)
    requires r in rows
    ensures i < |Dedup({}, rows)| && Dedup({}, rows)[i].key == r.key && Dedup({}, rows)[i] in rows
  {
    hide *;
    DedupKeeps({}, rows);
    i := AtIndex(Dedup({}, rows), r.key);
  }

  lemma AtIndex(rows: seq<Row>, key: string) returns (i: nat)
    requires exists q <- rows :: q.key == key
    ensures i < |rows| && rows[i].key == key && rows[i] in rows
  {
    i :| 0 <= i < |rows| && rows[i].key == key;
  }

  lemma SameKeyMarker(rows: seq<Row>, q: Row, r: Row)
    requires Identified(rows) && q in rows && r in rows && q.key == r.key
    ensures Marker(q) == Marker(r)
  {
    hide Marker, Id;
    assert SameNames(q, r);
  }

  /** Two rows that do not agree lead some run astray. */
  lemma Astray(log: Log, final: Bytes, a: Row, b: Row)
    requires Readable(log, final) && a in Rows(log.decode, final) && b in Rows(log.decode, final) && !Agree(a, b)
    ensures !AlwaysExact(log, final)
  {
    assert (a.key == b.key && Own(a) != Own(b)) || (a.key != b.key && Marker(a) == Marker(b));
    hide *;
    if a.key == b.key {
      TwoEntries(log, final, a, b);
    } else {
      TwoKeys(log, final, a, b);
    }
  }

  lemma TwoEntries(log: Log, final: Bytes, a: Row, b: Row)
    requires Readable(log, final) && a in Rows(log.decode, final) && b in Rows(log.decode, final)
    requires a.key == b.key && Own(a) != Own(b)
    ensures !AlwaysExact(log, final)
  {
    hide *;
    var rows := Rows(log.decode, final);
    var i := KeptFor(rows, a);
    var k := Dedup({}, rows)[i];
    var r := if Own(a) != Own(k) then a else b;
    var q :| 0 <= q < |rows| && rows[q] == r;
    StoredAgain(log, final, q, k);
  }

  lemma TwoKeys(log: Log, final: Bytes, a: Row, b: Row)
    requires Readable(log, final) && a in Rows(log.decode, final) && b in Rows(log.decode, final)
    requires a.key != b.key && Marker(a) == Marker(b)
    ensures !AlwaysExact(log, final)
  {
    hide *;
    var rows := Rows(log.decode, final);
    ReadableParts(log, final);
    var i := KeptFor(rows, a);
    var j := KeptFor(rows, b);
    SameKeyMarker(rows, Dedup({}, rows)[i], a);
    SameKeyMarker(rows, Dedup({}, rows)[j], b);
    if i < j {
      Suppressed(log, final, i, j);
    } else {
      Suppressed(log, final, j, i);
    }
  }

  /**
   * Exactly once, in every run: for logs of acceptable JSON rows this holds if and only if rows with the same key make
   * the same entry and rows with the same marker have the same key.
   */
  lemma ExactlyOnceIff(log: Log, final: Bytes)
    requires Readable(log, final)
    ensures AlwaysExact(log, final) <==> Unambiguous(Rows(log.decode, final))
  {
    hide Readable, Agree, Run, Completed, IsBatch, Upsert, Rows, Events;
    var rows := Rows(log.decode, final);
    if Unambiguous(rows) {
      IsGoodLog(log, final);
      forall run: seq<State>, once: Batch | Completes(log, run, final) && IsBatch(Events(log.decode, final), once)
        ensures run[|run| - 1].usage == Upsert(run[0].usage, once.entries)
      {
        RunIsExact(log, run, final, once);
      }
    } else {
      var a, b :| a in rows && b in rows && !Agree(a, b);
      Astray(log, final, a, b);
    }
  }

  lemma IsGoodLog(log: Log, final: Bytes)
    requires Readable(log, final) && Unambiguous(Rows(log.decode, final))
    ensures GoodLog(log, final)
  {
    hide JsonRows, CleanLog, Rows, Identified, Unambiguous, AllAccepted;
  }

  lemma RunIsExact(log: Log, run: seq<State>, final: Bytes, once: Batch)
    requires GoodLog(log, final) && Completes(log, run, final) && IsBatch(Events(log.decode, final), once)
    ensures run[|run| - 1].usage == Upsert(run[0].usage, once.entries)
  {
    hide GoodLog, Run, Ingestion, IsBatch, Upsert;
    var ids :| Ingestion(log, run[|run| - 2], run[|run| - 1], CheckpointSaved, ids);
    ExactlyOnce.ExactlyOnce(log, run, ids, once);
  }
}
