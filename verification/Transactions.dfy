/** Transactions with retries: a callback is tried until it commits, fails for good, or runs out of attempts. */
module Transactions {
  import opened Domain
  import Normalizer

  const DEFAULT_ATTEMPTS := 5

  /** An error that says the database is busy or locked can be retried; no other can. */
  datatype Failure = Busy | Permanent(error: Error)

  datatype Outcome<+D> = Done(value: D) | Failed(failure: Failure)

  /** What happens around the callback in one attempt; the last field says that the wait behind it is cancelled. */
  datatype Attempt = Attempt(begin: Option<Failure>, commit: Option<Failure>, cancelled: bool)

  datatype TxError = BusyTimeout(attempts: nat) | Cancelled | Stopped(failure: Failure)

  datatype Verdict<+D> = Commit(value: D) | Retry | GiveUp(error: TxError)

  /** maybeRetry: only a busy database is tried again, and not after the last attempt. */
  function MaybeRetry<D>(attempt: nat, max: nat, failure: Failure, cancelled: bool): Verdict<D> {
    if !failure.Busy? then GiveUp(Stopped(failure))
    else if attempt >= max then GiveUp(BusyTimeout(attempt))
    else if cancelled then GiveUp(Cancelled)
    else Retry
  }

  /** One attempt on a database. */
  function Try<D>(body: (nat, D) -> Outcome<D>, env: nat -> Attempt, db: D, attempt: nat, max: nat): Verdict<D> {
    var e := env(attempt);
    if e.begin.Some? then MaybeRetry(attempt, max, e.begin.value, e.cancelled)
    else match body(attempt, db)
      case Failed(failure) => MaybeRetry(attempt, max, failure, e.cancelled)
      case Done(value) =>
        if e.commit.Some? then MaybeRetry(attempt, max, e.commit.value, e.cancelled) else Commit(value)
  }

  function Attempts(configured: int): (n: nat)
    ensures n >= 1
  {
    if configured <= 0 then DEFAULT_ATTEMPTS else configured
  }

  /** The verdict of all attempts from one on. */
  function Run<D>(body: (nat, D) -> Outcome<D>, env: nat -> Attempt, db: D, attempt: nat, max: nat): Verdict<D>
    decreases max - attempt
  {
    if attempt > max then GiveUp(BusyTimeout(max))
    else
      var verdict := Try(body, env, db, attempt, max);
      if verdict.Retry? then Run(body, env, db, attempt + 1, max) else verdict
  }

  lemma {:induction false} RunSettles<D>(body: (nat, D) -> Outcome<D>, env: nat -> Attempt, db: D, k: nat, max: nat)
    requires 1 <= k <= max + 1 && forall j :: 1 <= j < k ==> Try(body, env, db, j, max) == Retry
    ensures Run(body, env, db, 1, max) == Run(body, env, db, k, max)
    decreases k
  {
    hide Try;
    if k > 1 {
      RunSettles(body, env, db, k - 1, max);
    }
  }

  class Store<D> {
    var db: D
    var commits: nat
    var bodyRuns: nat
    const maxAttempts: nat

    constructor (initial: D, configured: int)
      ensures db == initial && commits == 0 && bodyRuns == 0
      ensures maxAttempts == if configured > 0 then configured else 5
    {
      db, commits, bodyRuns := initial, 0, 0;
      maxAttempts := Attempts(configured);
    }

    /** The second result is the attempt that settled the transaction. */
    method WithTx(body: (nat, D) -> Outcome<D>, env: nat -> Attempt) returns (r: Option<TxError>, settled: nat)
      modifies this
      ensures settled <= maxAttempts && (maxAttempts > 0 ==> settled >= 1)
      ensures Run(body, env, old(db), 1, maxAttempts) == if r.None? then Commit(db) else GiveUp(r.value)
      ensures r.None? ==> commits == old(commits) + 1 && body(settled, old(db)) == Done(db)
      ensures r.Some? ==> commits == old(commits) && db == old(db)
      ensures bodyRuns <= old(bodyRuns) + settled
    {
      for attempt := 1 to maxAttempts + 1
        invariant attempt <= maxAttempts || maxAttempts == 0
        invariant db == old(db) && commits == old(commits) && bodyRuns < old(bodyRuns) + attempt
        invariant forall k :: 1 <= k < attempt ==> Try(body, env, old(db), k, maxAttempts) == Retry
      {
        RunSettles(body, env, db, attempt, maxAttempts);
        var e := env(attempt);
        if e.begin.Some? {
          var verdict: Verdict<D> := MaybeRetry(attempt, maxAttempts, e.begin.value, e.cancelled);
          if verdict.GiveUp? {
            return Some(verdict.error), attempt;
          }
          continue;
        }
        var tx := body(attempt, db);
        bodyRuns := bodyRuns + 1;
        if tx.Failed? {
          var verdict: Verdict<D> := MaybeRetry(attempt, maxAttempts, tx.failure, e.cancelled);
          if verdict.GiveUp? {
            return Some(verdict.error), attempt;
          }
          continue;
        }
        if e.commit.Some? {
          var verdict: Verdict<D> := MaybeRetry(attempt, maxAttempts, e.commit.value, e.cancelled);
          if verdict.GiveUp? {
            return Some(verdict.error), attempt;
          }
          continue;
        }
        db := tx.value;
        commits := commits + 1;
        return None, attempt;
      }
      assert maxAttempts == 0;   // otherwise the last attempt has returned
      return Some(BusyTimeout(maxAttempts)), 0;
    }
  }

  // ------------------------------------------------------------------ what a run comes to

  /** The first thing that goes wrong in an attempt. */
  function FailureOf<D>(body: (nat, D) -> Outcome<D>, env: nat -> Attempt, db: D, attempt: nat): Option<Failure> {
    if env(attempt).begin.Some? then env(attempt).begin
    else if body(attempt, db).Failed? then Some(body(attempt, db).failure)
    else env(attempt).commit
  }

  /** The attempt found the database busy, and the wait after it went through. */
  predicate WasBusy<D>(body: (nat, D) -> Outcome<D>, env: nat -> Attempt, db: D, attempt: nat) {
    FailureOf(body, env, db, attempt) == Some(Busy) && !env(attempt).cancelled
  }

  ghost predicate BusyUntil<D>(body: (nat, D) -> Outcome<D>, env: nat -> Attempt, db: D, k: nat) {
    forall j :: 1 <= j < k ==> WasBusy(body, env, db, j)
  }

  ghost predicate CommitsAt<D>(body: (nat, D) -> Outcome<D>, env: nat -> Attempt, db: D, k: nat) {
    BusyUntil(body, env, db, k) && FailureOf(body, env, db, k).None?
  }

  /**
    * A transaction commits exactly when, within the attempts allowed, one has no failure and all before it were busy;
    * and it commits what the callback returned then.
    */
  lemma CommitsIff<D>(body: (nat, D) -> Outcome<D>, env: nat -> Attempt, db: D, max: nat)
    requires max >= 1
    ensures Run(body, env, db, 1, max).Commit? <==> exists k :: 1 <= k <= max && CommitsAt(body, env, db, k)
    ensures forall k :: 1 <= k <= max && CommitsAt(body, env, db, k) ==>
      Outcome.Done(Run(body, env, db, 1, max).value) == body(k, db)
  {
    forall k | 1 <= k <= max && CommitsAt(body, env, db, k)
      ensures Run(body, env, db, 1, max).Commit? && Outcome.Done(Run(body, env, db, 1, max).value) == body(k, db)
    {
      BusyRetries(body, env, db, k, max);
      RunSettles(body, env, db, k, max);
    }
    if Run(body, env, db, 1, max).Commit? {
      var k := SettlesAt(body, env, db, 1, max);
      hide BusyUntil;
      assert CommitsAt(body, env, db, k);
    }
  }

  lemma BusyRetries<D>(body: (nat, D) -> Outcome<D>, env: nat -> Attempt, db: D, k: nat, max: nat)
    requires 1 <= k <= max && BusyUntil(body, env, db, k)
    ensures forall j :: 1 <= j < k ==> Try(body, env, db, j, max) == Retry
  {
    forall j | 1 <= j < k
      ensures Try(body, env, db, j, max) == Retry
    {
      assert WasBusy(body, env, db, j);
    }
  }

  lemma RetriesAreBusy<D>(body: (nat, D) -> Outcome<D>, env: nat -> Attempt, db: D, k: nat, max: nat)
    requires Try(body, env, db, k, max) == Retry
    ensures WasBusy(body, env, db, k) && k < max
  {
    assert FailureOf(body, env, db, k).Some? && FailureOf(body, env, db, k).value.Busy?;
  }

  /** With at least one attempt, some attempt settles the run: the error after the last one is never reached. */
  lemma {:induction false} SettlesAt<D>(body: (nat, D) -> Outcome<D>, env: nat -> Attempt, db: D, from: nat, max: nat)
    returns (k: nat)
    requires 1 <= from <= max && BusyUntil(body, env, db, from)
    ensures from <= k <= max && BusyUntil(body, env, db, k)
    ensures Run(body, env, db, from, max) == Try(body, env, db, k, max) != Retry
    decreases max - from
  {
    hide Try, WasBusy;
    k := from;
    if Try(body, env, db, from, max) == Retry {
      RetriesAreBusy(body, env, db, from, max);
      k := SettlesAt(body, env, db, from + 1, max);
    }
  }

  /**
    * A run ends with a permanent failure exactly when one comes behind busy attempts only, and as cancelled exactly
    * when a wait behind one of them is cut off, which is not the last.
    */
  lemma StopsIff<D>(body: (nat, D) -> Outcome<D>, env: nat -> Attempt, db: D, max: nat)
    requires max >= 1
    ensures forall error :: Run(body, env, db, 1, max) == GiveUp(Stopped(Permanent(error))) <==>
      exists k :: 1 <= k <= max && StopsAt(body, env, db, k, error)
    ensures Run(body, env, db, 1, max) == GiveUp(Cancelled) <==>
      exists k :: 1 <= k < max && CancelledAt(body, env, db, k)
  {
    var k := SettlesAt(body, env, db, 1, max);
    forall error
      ensures Run(body, env, db, 1, max) == GiveUp(Stopped(Permanent(error))) <==>
        exists k :: 1 <= k <= max && StopsAt(body, env, db, k, error)
    {
      if Run(body, env, db, 1, max) == GiveUp(Stopped(Permanent(error))) {
        assert StopsAt(body, env, db, k, error);
      }
      if j :| 1 <= j <= max && StopsAt(body, env, db, j, error) {
        BusyRetries(body, env, db, j, max);
        RunSettles(body, env, db, j, max);
      }
    }
    if Run(body, env, db, 1, max) == GiveUp(Cancelled) {
      assert CancelledAt(body, env, db, k);
    }
    if j :| 1 <= j < max && CancelledAt(body, env, db, j) {
      BusyRetries(body, env, db, j, max);
      RunSettles(body, env, db, j, max);
    }
  }

  ghost predicate StopsAt<D>(body: (nat, D) -> Outcome<D>, env: nat -> Attempt, db: D, k: nat, error: Error) {
    BusyUntil(body, env, db, k) && FailureOf(body, env, db, k) == Some(Permanent(error))
  }

  ghost predicate CancelledAt<D>(body: (nat, D) -> Outcome<D>, env: nat -> Attempt, db: D, k: nat) {
    BusyUntil(body, env, db, k) && FailureOf(body, env, db, k) == Some(Busy) && env(k).cancelled
  }

  /** The busy error is returned exactly when every attempt was busy. */
  lemma BusyTimeoutIff<D>(body: (nat, D) -> Outcome<D>, env: nat -> Attempt, db: D, max: nat, n: nat)
    requires max >= 1
    ensures Run(body, env, db, 1, max) == GiveUp(BusyTimeout(n)) <==>
      n == max && BusyUntil(body, env, db, max) && FailureOf(body, env, db, max) == Some(Busy)
  {
    var k := SettlesAt(body, env, db, 1, max);
    if BusyUntil(body, env, db, max) && FailureOf(body, env, db, max) == Some(Busy) {
      BusyRetries(body, env, db, max, max);
      RunSettles(body, env, db, max, max);
    }
  }

  // ------------------------------------------------------------------ upserting usage entries

  /** The callback of UpsertUsageEntries: every entry is validated, then written; the first error ends it. */
  function Write(entries: seq<UsageEntry>, fault: nat -> Option<Failure>, table: map<string, UsageEntry>)
    : Outcome<map<string, UsageEntry>>
  {
    if entries == [] then Done(table)
    else
      var n := |entries| - 1;
      match Write(entries[..n], fault, table)
      case Failed(x) => Failed(x)
      case Done(t) =>
        match NewUsageEntry(entries[n])
        case Err(x) => Failed(Permanent(x))
        case Ok(valid) => if fault(n).Some? then Failed(fault(n).value) else Done(t[valid.entryId := valid])
  }

  ghost predicate AllValid(entries: seq<UsageEntry>) {
    forall e <- entries :: NewUsageEntry(e).Ok?
  }

  function Validated(entries: seq<UsageEntry>): seq<UsageEntry>
    requires AllValid(entries)
  {
    seq(|entries|, i requires 0 <= i < |entries| => NewUsageEntry(entries[i]).value)
  }

  /** An upsert is all or nothing: every entry under its id, or the table as it was. */
  method UpsertUsageEntries(store: Store<map<string, UsageEntry>>, entries: seq<UsageEntry>,
                            faults: nat -> nat -> Option<Failure>, env: nat -> Attempt)
    returns (r: Option<TxError>)
    modifies store
    ensures r.None? ==> AllValid(entries) && store.db == Normalizer.Upsert(old(store.db), Validated(entries))
    ensures r.Some? ==> store.db == old(store.db)
  {
    hide *;
    if entries == [] {
      NothingWritten(store.db);
      return None;
    }
    var settled;
    ghost var before := store.db;
    r, settled := store.WithTx(
      (attempt: nat, table: map<string, UsageEntry>) => Write(entries, faults(attempt), table), env);
    if r.None? {
      AllWritten(entries, faults(settled), before);
    }
  }

  lemma NothingWritten(table: map<string, UsageEntry>)
    ensures AllValid([]) && Normalizer.Upsert(table, Validated([])) == table
  {
  }

  lemma {:induction false} UpsertOne(table: map<string, UsageEntry>, entries: seq<UsageEntry>, e: UsageEntry)
    ensures Normalizer.Upsert(table, entries + [e]) == Normalizer.Upsert(table, entries)[e.entryId := e]
    decreases |entries|
  {
    if entries == [] {
      assert Normalizer.Upsert(table[e.entryId := e], []) == table[e.entryId := e];
    } else {
      assert (entries + [e])[1..] == entries[1..] + [e];
      UpsertOne(table[entries[0].entryId := entries[0]], entries[1..], e);
    }
  }

  lemma {:induction false} AllWritten(entries: seq<UsageEntry>, fault: nat -> Option<Failure>,
                                      table: map<string, UsageEntry>)
    requires Write(entries, fault, table).Done?
    ensures AllValid(entries)
    ensures Write(entries, fault, table).value == Normalizer.Upsert(table, Validated(entries))
  {
    hide NewUsageEntry, Normalizer.Upsert;
    if entries == [] {
      NothingWritten(table);
    } else {
      var n := |entries| - 1;
      AllWritten(entries[..n], fault, table);
      assert entries == entries[..n] + [entries[n]];
      assert Validated(entries) == Validated(entries[..n]) + [NewUsageEntry(entries[n]).value];
      UpsertOne(table, Validated(entries[..n]), NewUsageEntry(entries[n]).value);
    }
  }
}
