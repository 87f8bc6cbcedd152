/**
 * Runs of the budget monitor over a store whose writes can fail: alerts are the rising edges of the stored
 * state.
 */
module BudgetAlerts {
  import opened AlertTable
  import opened Domain
  import opened Budget
  import opened BudgetMonitor
  import Text

  // ------------------------------------------------------------------ the store and one run

  /** Budget states are keyed by budget and month. */
  datatype Key = Key(budgetId: string, start: Time)

  datatype Store = Store(forecasts: map<string, Forecast>, states: map<Key, BudgetState>, alerts: seq<Alert>)

  function Previous(states: map<Key, BudgetState>, k: Key): Option<BudgetState> {
    if k in states then Some(states[k]) else None
  }

  /** The writes that fail in a run. */
  datatype Faults = Faults(forecasts: bool, states: bool, alerts: bool)

  const NO_FAULTS := Faults(false, false, false)

  /** The budgets of the month, each with its spend and the time it is as of. */
  datatype Input = Input(period: Period, budgets: seq<MonthlyBudget>, spends: seq<real>, asOfs: seq<Time>,
                         faults: Faults)
  {
    predicate Valid() {
      && |spends| == |asOfs| == |budgets|
      && (forall i :: 0 <= i < |budgets| ==> ValidAt(i))
      && (forall i, j :: 0 <= i < j < |budgets| ==> budgets[i].id != budgets[j].id)
    }
    predicate ValidAt(i: nat)
      requires |spends| == |asOfs| == |budgets| && i < |budgets|
    {
      budgets[i].Valid() && budgets[i].period == period && spends[i] >= 0.0 && period.Contains(asOfs[i])
    }
  }

  function Assessments(input: Input, states: map<Key, BudgetState>): (r: seq<Assessment>)
    requires input.Valid()
    ensures |r| == |input.budgets|
  {
    seq(|input.budgets|, i requires 0 <= i < |input.budgets| =>
      Assess(input.budgets[i], input.spends[i], input.asOfs[i],
             Previous(states, Key(input.budgets[i].id, input.period.start))))
  }

  function UpsertForecasts(m: map<string, Forecast>, s: seq<Assessment>): map<string, Forecast> {
    if s == [] then m
    else UpsertForecasts(m, s[..|s| - 1])[s[|s| - 1].forecast.id := s[|s| - 1].forecast]
  }

  function UpsertStates(m: map<Key, BudgetState>, s: seq<Assessment>): map<Key, BudgetState> {
    if s == [] then m
    else
      var state := s[|s| - 1].state;
      UpsertStates(m, s[..|s| - 1])[Key(state.budgetId, state.period.start) := state]
  }

  function AllAlerts(s: seq<Assessment>): seq<Alert> {
    if s == [] then [] else AllAlerts(s[..|s| - 1]) + s[|s| - 1].alerts
  }

  /** The three writes, in order; a failing one ends the run. */
  function After(store: Store, s: seq<Assessment>, faults: Faults): Store {
    if faults.forecasts then store
    else
      var withForecasts := store.(forecasts := UpsertForecasts(store.forecasts, s));
      if faults.states then withForecasts
      else
        var withStates := withForecasts.(states := UpsertStates(store.states, s));
        if faults.alerts then withStates
        else withStates.(alerts := store.alerts + AllAlerts(s))
  }

  function Next(store: Store, input: Input): Store
    requires input.Valid()
  {
    After(store, Assessments(input, store.states), input.faults)
  }

  // ------------------------------------------------------------------ the service

  /** What the repositories return to a run: budgets of this month, with distinct ids, and no negative amounts. */
  ghost predicate ValidInputs(p: Period, budgets: seq<MonthlyBudget>, entries: seq<UsageEntry>, fees: seq<Fee>) {
    && (forall b <- budgets :: b.Valid() && b.period == p)
    && (forall i, j :: 0 <= i < j < |budgets| ==> budgets[i].id != budgets[j].id)
    && NonNegative(entries, fees)
  }

  /** The run found the budget's spend, a time to date it, and what follows from them. */
  ghost predicate Assessed(b: MonthlyBudget, entries: seq<UsageEntry>, fees: seq<Fee>, states: map<Key, BudgetState>,
                           spend: real, asOf: Time, a: Assessment)
  {
    && b.Valid() && spend >= 0.0 && b.period.Contains(asOf)
    && spend == Spend(b, entries, fees)
    && IsAsOf(asOf, b.period, FittingEntries(b, entries), FittingFees(b, fees))
    && a == Assess(b, spend, asOf, Previous(states, Key(b.id, b.period.start)))
  }

  lemma BudgetAssessed(p: Period, budgets: seq<MonthlyBudget>, entries: seq<UsageEntry>, fees: seq<Fee>, i: nat,
                       states: map<Key, BudgetState>, asOf: Time)
    requires ValidInputs(p, budgets, entries, fees) && i < |budgets|
    requires IsAsOf(asOf, p, FittingEntries(budgets[i], entries), FittingFees(budgets[i], fees))
    ensures budgets[i].Valid() && budgets[i].period == p && NonNegative(entries, fees)
    ensures var b := budgets[i];
      Assessed(b, entries, fees, states, Spend(b, entries, fees), asOf,
               Assess(b, Spend(b, entries, fees), asOf, Previous(states, Key(b.id, p.start))))
  {
    hide Spend, Assess, FittingEntries, FittingFees;
    assert budgets[i] in budgets;
    SpendIsNonNegative(budgets[i], entries, fees);
  }

  lemma BudgetIsValid(p: Period, budgets: seq<MonthlyBudget>, entries: seq<UsageEntry>, fees: seq<Fee>, i: nat)
    requires ValidInputs(p, budgets, entries, fees) && i < |budgets|
    ensures budgets[i].Valid() && budgets[i].period == p && NonNegative(entries, fees)
  {
    hide NonNegative;
    assert budgets[i] in budgets;
  }

  lemma InputIsValid(input: Input, entries: seq<UsageEntry>, fees: seq<Fee>, states: map<Key, BudgetState>,
                     s: seq<Assessment>)
    requires ValidInputs(input.period, input.budgets, entries, fees)
    requires |s| == |input.spends| == |input.asOfs| == |input.budgets|
    requires forall j :: 0 <= j < |s| ==>
      Assessed(input.budgets[j], entries, fees, states, input.spends[j], input.asOfs[j], s[j])
    ensures input.Valid() && s == Assessments(input, states)
    ensures forall i :: 0 <= i < |s| ==>
      && input.spends[i] == Spend(input.budgets[i], entries, fees)
      && IsAsOf(input.asOfs[i], input.period, FittingEntries(input.budgets[i], entries),
                FittingFees(input.budgets[i], fees))
  {
    hide Spend, Assess, FittingEntries, FittingFees, IsAsOf, NonNegative;
    forall j | 0 <= j < |s|
      ensures input.ValidAt(j)
      ensures s[j] == Assessments(input, states)[j]
    {
      assert input.budgets[j] in input.budgets;
      assert Assessed(input.budgets[j], entries, fees, states, input.spends[j], input.asOfs[j], s[j]);
    }
  }

  class BudgetMonitorService {
    var forecasts: map<string, Forecast>
    var states: map<Key, BudgetState>
    var alerts: seq<Alert>   // what was handed to the alert repository
    var rows: map<string, Alert>   // what it stores of them

    constructor ()
      ensures View() == Store(map[], map[], []) && rows == map[]
    {
      forecasts, states, alerts, rows := map[], map[], [], map[];
    }

    function View(): Store
      reads this
    {
      Store(forecasts, states, alerts)
    }

    /** The ghost result is the run as the theorems see it. */
    method MonitorPeriod(p: Period, budgets: seq<MonthlyBudget>, entries: seq<UsageEntry>, fees: seq<Fee>,
                         clock: Option<Time>, faults: Faults) returns (r: Result<seq<Assessment>>, ghost input: Input)
      modifies this
      ensures ValidInputs(p, budgets, entries, fees) ==>
        && input.Valid() && input.period == p && input.budgets == budgets && input.faults == faults
        && (forall i :: 0 <= i < |budgets| ==>
              && input.spends[i] == Spend(budgets[i], entries, fees)
              && IsAsOf(input.asOfs[i], p, FittingEntries(budgets[i], entries), FittingFees(budgets[i], fees)))
        && View() == Next(old(View()), input)
        && old(alerts) <= alerts && Upserted(alerts[|old(alerts)|..], old(rows), rows)
        && (r.Ok? <==> && (budgets == [] || (!faults.forecasts && !faults.states))
                       && (AllAlerts(Assessments(input, old(states))) == [] || !faults.alerts))
        && (r.Ok? ==> r.value == Assessments(input, old(states)))
    {
      hide Assess, Spend, IsAsOf, FittingEntries, FittingFees, UpsertForecasts, UpsertStates, AllAlerts, ValidInputs,
           Assessments, Assessed, Upserted;
      NothingUpserted(rows);
      assert alerts[|alerts|..] == [];
      ghost var valid := ValidInputs(p, budgets, entries, fees);
      var assessments: seq<Assessment> := [];
      ghost var spends: seq<real>, asOfs: seq<Time> := [], [];
      for i := 0 to |budgets|
        invariant forecasts == old(forecasts) && states == old(states) && alerts == old(alerts) && rows == old(rows)
        invariant |assessments| == |spends| == |asOfs| == i
        invariant valid ==>
          forall j :: 0 <= j < i ==> Assessed(budgets[j], entries, fees, states, spends[j], asOfs[j], assessments[j])
      {
        var b := budgets[i];
        var previous := Previous(states, Key(b.id, p.start));
        var assessed := MonitorBudget(b, p, entries, fees, clock, previous);
        ghost var asOf := p.start;
        if valid {
          BudgetIsValid(p, budgets, entries, fees, i);
          asOf :| IsAsOf(asOf, p, FittingEntries(b, entries), FittingFees(b, fees))
                  && assessed == Ok(Assess(b, Spend(b, entries, fees), asOf, previous));
          BudgetAssessed(p, budgets, entries, fees, i, states, asOf);
        }
        if assessed.Err? {
          return Err(assessed.error), Input(p, budgets, spends, asOfs, faults);
        }
        assessments := assessments + [assessed.value];
        spends, asOfs := spends + [Spend(b, entries, fees)], asOfs + [asOf];
      }
      input := Input(p, budgets, spends, asOfs, faults);
      if valid {
        InputIsValid(input, entries, fees, states, assessments);
      }
      NothingToWrite(forecasts, states);
      if |assessments| > 0 {
        if faults.forecasts {
          return Err(RepositoryFailure), input;
        }
        forecasts := UpsertForecasts(forecasts, assessments);
      }
      if |assessments| > 0 {
        if faults.states {
          return Err(RepositoryFailure), input;
        }
        states := UpsertStates(states, assessments);
      }
      var batch := AllAlerts(assessments);
      if |batch| > 0 {
        if faults.alerts {
          return Err(RepositoryFailure), input;
        }
        rows := UpsertAlerts(rows, batch);
        alerts := alerts + batch;
      }
      return Ok(assessments), input;
    }
  }

  lemma NothingToWrite(f: map<string, Forecast>, s: map<Key, BudgetState>)
    ensures UpsertForecasts(f, []) == f && UpsertStates(s, []) == s && AllAlerts([]) == []
  {
  }

  // ------------------------------------------------------------------ conditions and their edges

  /** What an alert can be about. */
  datatype Condition = Crossed(percent: real) | OverBudget | HeadingOver

  predicate HoldsIn(state: Option<BudgetState>, c: Condition) {
    state.Some? && match c
      case Crossed(p) => p in state.value.percents
      case OverBudget => state.value.overrun
      case HeadingOver => state.value.forecastOverrun
  }

  predicate Rising(before: Option<BudgetState>, after: Option<BudgetState>, c: Condition) {
    HoldsIn(after, c) && !HoldsIn(before, c)
  }

  predicate IsAbout(a: Alert, k: Key, c: Condition) {
    a.period.start == k.start && match c
      case Crossed(p) => a.kind.BudgetThreshold? && a.budgetId == k.budgetId && a.percent == p
      case OverBudget => a.kind.BudgetOverrun? && a.budgetId == k.budgetId
      case HeadingOver => a.kind.ForecastOverrun? && a.forecastId == ForecastId(k.budgetId)
  }

  function Count(alerts: seq<Alert>, k: Key, c: Condition): nat {
    if alerts == [] then 0
    else Count(alerts[..|alerts| - 1], k, c) + if IsAbout(alerts[|alerts| - 1], k, c) then 1 else 0
  }

  lemma {:induction false} CountAppend(a: seq<Alert>, b: seq<Alert>, k: Key, c: Condition)
    ensures Count(a + b, k, c) == Count(a, k, c) + Count(b, k, c)
  {
    hide IsAbout;
    if b == [] {
      assert a + b == a;
    } else {
      var n := |b| - 1;
      assert (a + b)[..|a| + n] == a + b[..n];
      CountAppend(a, b[..n], k, c);
    }
  }

  /** No two of the thresholds print alike with six decimals. */
  ghost predicate SixDecimals(ts: seq<Threshold>) {
    forall i, j :: 0 <= i < j < |ts| ==> Micro(ts[i].percent) != Micro(ts[j].percent)
  }

  ghost predicate Ascending(ts: seq<Threshold>) {
    forall i, j :: 0 <= i < j < |ts| ==> ts[i].percent < ts[j].percent
  }

  lemma SplitLast(ts: seq<Threshold>)
    requires ts != []
    ensures var n := |ts| - 1;
      && (Ascending(ts) <==> Ascending(ts[..n]) && forall t <- ts[..n] :: t.percent < ts[n].percent)
      && (SixDecimals(ts) <==> SixDecimals(ts[..n]) && forall t <- ts[..n] :: Micro(t.percent) != Micro(ts[n].percent))
  {
    hide Micro;
    var n := |ts| - 1;
    assert forall i :: 0 <= i < n ==> ts[..n][i] == ts[i] && ts[i] in ts[..n];
  }

  lemma OneMore(before: seq<Threshold>, x: Threshold)
    ensures Ascending(before + [x]) <==> Ascending(before) && forall t <- before :: t.percent < x.percent
    ensures SixDecimals(before + [x])
       <==> SixDecimals(before) && forall t <- before :: Micro(t.percent) != Micro(x.percent)
  {
    hide Ascending, SixDecimals, Micro;
    assert (before + [x])[..|before|] == before;
    SplitLast(before + [x]);
  }

  lemma {:induction false} TriggeredSubsequence(limit: real, ts: seq<Threshold>, spend: real)
    requires Ascending(ts)
    ensures Ascending(Triggered(limit, ts, spend))
    ensures SixDecimals(ts) ==> SixDecimals(Triggered(limit, ts, spend))
  {
    if ts != [] {
      var n := |ts| - 1;
      var before := Triggered(limit, ts[..n], spend);
      assert Triggered(limit, ts, spend) == before + [ts[n]] || Triggered(limit, ts, spend) == before;
      hide *;
      SplitLast(ts);
      TriggeredSubsequence(limit, ts[..n], spend);
      TriggeredAre(limit, ts[..n], spend);
      OneMore(before, ts[n]);
    }
  }

  lemma PercentsAre(ts: seq<Threshold>)
    ensures forall p :: p in Percents(ts) <==> exists t <- ts :: t.percent == p
  {
    forall t <- ts
      ensures t.percent in Percents(ts)
    {
      var i :| 0 <= i < |ts| && ts[i] == t;
      assert Percents(ts)[i] == t.percent;
    }
  }

  lemma PercentsStep(ts: seq<Threshold>)
    requires ts != []
    ensures var n := |ts| - 1;
      DistinctPercents(Percents(ts))
      == DistinctPercents(Percents(ts[..n]))
         + if exists t <- ts[..n] :: Micro(t.percent) == Micro(ts[n].percent) then [] else [ts[n].percent]
  {
    hide Micro;
    var n := |ts| - 1;
    var ps := Percents(ts);
    assert ps[..n] == Percents(ts[..n]);
    PercentsAre(ts[..n]);
  }

  /** The stored percents are all the triggered ones when no two print alike. */
  lemma {:induction false} AllPercentsKept(ts: seq<Threshold>)
    requires SixDecimals(ts)
    ensures DistinctPercents(Percents(ts)) == Percents(ts)
    decreases |ts|
  {
    hide Micro, DistinctPercents;
    if ts == [] {
      NoPercents(ts);
    } else {
      var n := |ts| - 1;
      AllPercentsKept(ts[..n]);
      PercentsStep(ts);
      assert forall t <- ts[..n] :: Micro(t.percent) != Micro(ts[n].percent);
      assert Percents(ts) == Percents(ts[..n]) + [ts[n].percent];
    }
  }

  lemma NoPercents(ts: seq<Threshold>)
    requires ts == []
    ensures Percents(ts) == [] && DistinctPercents(Percents(ts)) == []
  {
  }

  lemma {:induction false} KeptPercents(ts: seq<Threshold>)
    ensures forall p <- DistinctPercents(Percents(ts)) :: exists t <- ts :: t.percent == p
    decreases |ts|
  {
    hide Micro, DistinctPercents;
    if ts == [] {
      NoPercents(ts);
    } else {
      KeptPercents(ts[..|ts| - 1]);
      PercentsStep(ts);
      assert ts[|ts| - 1] in ts;
    }
  }

  lemma NotKept(before: seq<Threshold>, x: Threshold)
    requires forall t <- before :: t.percent < x.percent
    ensures x.percent !in DistinctPercents(Percents(before))
  {
    hide DistinctPercents, Micro, Percents;
    KeptPercents(before);
  }

  lemma DroppedNow(ts: seq<Threshold>, n: nat)
    requires n + 1 == |ts| && Ascending(ts) && !SixDecimals(ts) && SixDecimals(ts[..n])
    ensures ts[n].percent !in DistinctPercents(Percents(ts))
  {
    hide *;
    SplitLast(ts);
    PercentsStep(ts);
    NotKept(ts[..n], ts[n]);
  }

  lemma DroppedBefore(ts: seq<Threshold>, n: nat, t: Threshold)
    requires n + 1 == |ts| && Ascending(ts) && t in ts[..n] && t.percent !in DistinctPercents(Percents(ts[..n]))
    ensures t.percent !in DistinctPercents(Percents(ts))
  {
    hide *;
    SplitLast(ts);
    PercentsStep(ts);
  }

  lemma TooFewToPrintAlike(ts: seq<Threshold>)
    requires ts == []
    ensures SixDecimals(ts)
  {
  }

  /** When two print alike, one is not stored. */
  lemma {:induction false} APercentDropped(ts: seq<Threshold>) returns (t: Threshold)
    requires Ascending(ts) && !SixDecimals(ts)
    ensures t in ts && t.percent !in DistinctPercents(Percents(ts))
    decreases |ts|
  {
    hide *;
    if ts == [] {
      TooFewToPrintAlike(ts);
    } else {
      var n := |ts| - 1;
      SplitLast(ts);
      if SixDecimals(ts[..n]) {
        t := ts[n];
        DroppedNow(ts, n);
      } else {
        t := APercentDropped(ts[..n]);
        DroppedBefore(ts, n, t);
      }
    }
  }

  /** A percent that prints like a lower one: it is left out of the stored percents. */
  ghost predicate Masked(ts: seq<Threshold>, p: real) {
    p in Percents(ts) && exists t <- ts :: t.percent < p && Micro(t.percent) == Micro(p)
  }

  lemma {:induction false} KeptIff(ts: seq<Threshold>, p: real)
    requires Ascending(ts)
    ensures p in DistinctPercents(Percents(ts)) <==> p in Percents(ts) && !Masked(ts, p)
    decreases |ts|
  {
    hide *;
    if ts == [] {
      NoPercents(ts);
    } else {
      var n := |ts| - 1;
      SplitLast(ts);
      KeptIff(ts[..n], p);
      PercentsStep(ts);
      LastPercent(ts);
      MaskedStep(ts, p);
    }
  }

  /** Of an ascending list the last can be masked by any other, and masks none. */
  lemma MaskedStep(ts: seq<Threshold>, p: real)
    requires ts != [] && Ascending(ts)
    ensures var n := |ts| - 1;
      if p == ts[n].percent then Masked(ts, p) <==> exists t <- ts[..n] :: Micro(t.percent) == Micro(p)
      else Masked(ts, p) <==> Masked(ts[..n], p)
  {
    hide Micro, Ascending, Percents;
    var n := |ts| - 1;
    SplitLast(ts);
    LastPercent(ts);
    if p == ts[n].percent {
      LastIsMasked(ts, p);
    } else {
      OthersMasked(ts, p);
    }
  }

  lemma LastIsMasked(ts: seq<Threshold>, p: real)
    requires ts != [] && p == ts[|ts| - 1].percent && p in Percents(ts)
    requires forall t <- ts[..|ts| - 1] :: t.percent < p
    ensures Masked(ts, p) <==> exists t <- ts[..|ts| - 1] :: Micro(t.percent) == Micro(p)
  {
    hide Micro, Percents;
    assert ts == ts[..|ts| - 1] + [ts[|ts| - 1]];
  }

  lemma OthersMasked(ts: seq<Threshold>, p: real)
    requires ts != [] && p != ts[|ts| - 1].percent
    requires p in Percents(ts) <==> p in Percents(ts[..|ts| - 1])
    requires p in Percents(ts[..|ts| - 1]) ==> p < ts[|ts| - 1].percent
    ensures Masked(ts, p) <==> Masked(ts[..|ts| - 1], p)
  {
    hide Micro, Percents;
    assert ts == ts[..|ts| - 1] + [ts[|ts| - 1]];
  }

  lemma NoneMasked(ts: seq<Threshold>, p: real)
    requires SixDecimals(ts)
    ensures !Masked(ts, p)
  {
    hide Micro, SixDecimals;
    PercentsAre(ts);
    forall t <- ts | t.percent != p && p in Percents(ts)
      ensures Micro(t.percent) != Micro(p)
    {
      var u :| u in ts && u.percent == p;
      PrintApart(ts, t, u);
    }
  }

  lemma PrintApart(ts: seq<Threshold>, t: Threshold, u: Threshold)
    requires SixDecimals(ts) && t in ts && u in ts
    ensures t != u ==> Micro(t.percent) != Micro(u.percent)
  {
    hide Micro;
    var i :| 0 <= i < |ts| && ts[i] == t;
    var j :| 0 <= j < |ts| && ts[j] == u;
  }

  // ------------------------------------------------------------------ one budget

  lemma {:induction false} CountThresholds(b: MonthlyBudget, f: Forecast, at: Time, ts: seq<Threshold>, seen: set<real>,
                                           k: Key, c: Condition)
    requires Ascending(ts)
    ensures Count(ThresholdAlerts(b, f, at, ts, seen), k, c)
         == if c.Crossed? && k == Key(b.id, b.period.start) && c.percent in Percents(ts) && c.percent !in seen
            then 1 else 0
  {
    hide ForecastId, IsAbout, Count, ThresholdAlert, Ascending;
    CountOne([], ThresholdAlert(b, f, at, Threshold(Info, 0.5)), k, c);
    if ts != [] {
      hide Percents;
      var n := |ts| - 1;
      var before := ThresholdAlerts(b, f, at, ts[..n], seen);
      SplitLast(ts);
      CountThresholds(b, f, at, ts[..n], seen, k, c);
      LastPercent(ts);
      CountOne(before, ThresholdAlert(b, f, at, ts[n]), k, c);
      AboutThreshold(b, f, at, ts[n], k, c);
      assert before + [] == before;
    }
  }

  lemma AboutThreshold(b: MonthlyBudget, f: Forecast, at: Time, t: Threshold, k: Key, c: Condition)
    ensures IsAbout(ThresholdAlert(b, f, at, t), k, c)
       <==> c.Crossed? && k == Key(b.id, b.period.start) && c.percent == t.percent
  {
  }

  lemma LastPercent(ts: seq<Threshold>)
    requires ts != [] && Ascending(ts)
    ensures var n := |ts| - 1;
      && (forall p :: p in Percents(ts) <==> p in Percents(ts[..n]) || p == ts[n].percent)
      && (forall p <- Percents(ts[..n]) :: p < ts[n].percent)
  {
    hide Ascending, SixDecimals, Micro;
    var n := |ts| - 1;
    SplitLast(ts);
    PercentsAre(ts[..n]);
    assert Percents(ts) == Percents(ts[..n]) + [ts[n].percent];
  }

  lemma CountOne(before: seq<Alert>, a: Alert, k: Key, c: Condition)
    ensures Count(before + [a], k, c) == Count(before, k, c) + if IsAbout(a, k, c) then 1 else 0
    ensures Count([], k, c) == 0 && Count([a], k, c) == if IsAbout(a, k, c) then 1 else 0
  {
    hide IsAbout;
    assert (before + [a])[..|before|] == before;
    assert [a][..0] == [];
  }

  lemma ForecastIdTells(a: string, b: string)
    ensures ForecastId(a) == ForecastId(b) <==> a == b
  {
    if ForecastId(a) == ForecastId(b) {
      assert a == ForecastId(a)[..|ForecastId(a)| - 9] && b == ForecastId(b)[..|ForecastId(b)| - 9];
    }
  }

  /** A crossed threshold that prints like a lower crossed one: it is alerted, but will not be remembered. */
  ghost predicate Repeated(b: MonthlyBudget, spend: real, previous: Option<BudgetState>, c: Condition) {
    c.Crossed? && Masked(Triggered(b.limit, b.thresholds, spend), c.percent) && c.percent !in SeenPercents(previous)
  }

  /**
   * A run builds an alert for a condition of a budget exactly when the state it stores has the condition and
   * the state stored before has not, or the condition is a threshold that prints like a lower crossed one and the
   * state does not remember it; never more than one; and none for another budget or month.
   */
  lemma EdgesOfBudget(b: MonthlyBudget, spend: real, asOf: Time, previous: Option<BudgetState>, k: Key, c: Condition)
    requires b.Valid() && b.period.Contains(asOf) && spend >= 0.0
    ensures var a := Assess(b, spend, asOf, previous);
      && Count(a.alerts, k, c)
         == (if k == Key(b.id, b.period.start)
                && (Rising(previous, Some(a.state), c) || Repeated(b, spend, previous, c)) then 1 else 0)
      && !(Rising(previous, Some(a.state), c) && Repeated(b, spend, previous, c))
  {
    hide Triggered, ThresholdAlerts, DistinctPercents, ProjectMonthlySpend, ObservedDays, TotalDays, Micro, IsAbout,
         Count, Text.Trim, ForecastId, Masked, OverrunAlert, ForecastAlert;
    var a := Assess(b, spend, asOf, previous);
    var ts := Triggered(b.limit, b.thresholds, spend);
    var seen := SeenPercents(previous);
    TriggeredSubsequence(b.limit, b.thresholds, spend);
    CountThresholds(b, a.forecast, asOf, ts, seen, k, c);
    if c.Crossed? {
      KeptIff(ts, c.percent);
      MaskedIsCrossed(ts, c.percent);
    }
    var crossed := ThresholdAlerts(b, a.forecast, asOf, ts, seen);
    var over := if a.state.overrun && (previous.None? || !previous.value.overrun)
                then [OverrunAlert(b, a.forecast, asOf)] else [];
    var heading := if a.forecast.overrun > 0.0 && (previous.None? || !previous.value.forecastOverrun)
                   then [ForecastAlert(b, a.forecast, asOf)] else [];
    assert a.alerts == crossed + over + heading;
    CountAppend(crossed + over, heading, k, c);
    CountAppend(crossed, over, k, c);
    CountOne([], OverrunAlert(b, a.forecast, asOf), k, c);
    CountOne([], ForecastAlert(b, a.forecast, asOf), k, c);
    AboutOthers(b, a.forecast, asOf, k, c);
  }

  lemma MaskedIsCrossed(ts: seq<Threshold>, p: real)
    ensures Masked(ts, p) ==> p in Percents(ts)
  {
  }

  lemma AboutOthers(b: MonthlyBudget, f: Forecast, at: Time, k: Key, c: Condition)
    requires f.id == ForecastId(b.id)
    ensures IsAbout(OverrunAlert(b, f, at), k, c) <==> c.OverBudget? && k == Key(b.id, b.period.start)
    ensures IsAbout(ForecastAlert(b, f, at), k, c) <==> c.HeadingOver? && k == Key(b.id, b.period.start)
  {
    hide ForecastId;
    ForecastIdTells(b.id, k.budgetId);
  }

  /** A budget over its limit is also forecast to be, and has crossed every threshold. */
  lemma OverrunImplies(b: MonthlyBudget, spend: real, asOf: Time, previous: Option<BudgetState>)
    requires b.Valid() && b.period.Contains(asOf) && spend >= 0.0
    ensures var s := Assess(b, spend, asOf, previous).state;
      s.overrun ==>
        && s.forecastOverrun
        && Triggered(b.limit, b.thresholds, spend) == b.thresholds
        && (SixDecimals(b.thresholds) ==> s.percents == Percents(b.thresholds))
  {
    hide ThresholdAlerts, DistinctPercents, ProjectMonthlySpend, ObservedDays, TotalDays, Micro, Text.Trim;
    ForecastArithmetic(b.period, asOf, spend);
    if SixDecimals(b.thresholds) {
      AllPercentsKept(b.thresholds);
    }
    if spend > b.limit {
      AllTriggered(b.limit, b.thresholds, spend);
    }
  }

  lemma {:induction false} AllTriggered(limit: real, ts: seq<Threshold>, spend: real)
    requires limit > 0.0 && spend > limit && forall t <- ts :: t.percent < 1.0
    ensures Triggered(limit, ts, spend) == ts
  {
    if ts != [] {
      var n := |ts| - 1;
      AllTriggered(limit, ts[..n], spend);
      assert ts == ts[..n] + [ts[n]];
      assert ts[n] in ts;
      assert limit * ts[n].percent <= limit;
    }
  }

  lemma {:induction false} NoneWhenSeen(b: MonthlyBudget, f: Forecast, at: Time, ts: seq<Threshold>, seen: set<real>)
    requires forall t <- ts :: t.percent in seen
    ensures ThresholdAlerts(b, f, at, ts, seen) == []
  {
    if ts != [] {
      NoneWhenSeen(b, f, at, ts[..|ts| - 1], seen);
    }
  }

  /**
   * A second run with the same spend is silent if and only if no two crossed thresholds print alike with six
   * decimals: of those that do only the lowest is stored, and the others are alerted in every run.
   */
  lemma QuietRerunIff(b: MonthlyBudget, spend: real, asOf: Time, previous: Option<BudgetState>)
    requires b.Valid() && b.period.Contains(asOf) && spend >= 0.0
    ensures var stored := Some(Assess(b, spend, asOf, previous).state);
      Assess(b, spend, asOf, stored).alerts == [] <==> SixDecimals(Triggered(b.limit, b.thresholds, spend))
  {
    hide Triggered, ThresholdAlerts, DistinctPercents, ProjectMonthlySpend, ObservedDays, TotalDays, Micro,
         SixDecimals, Text.Trim, ForecastId, ThresholdAlert, OverrunAlert, ForecastAlert;
    var stored := Assess(b, spend, asOf, previous).state;
    var again := Assess(b, spend, asOf, Some(stored));
    var ts := Triggered(b.limit, b.thresholds, spend);
    TriggeredSubsequence(b.limit, b.thresholds, spend);
    var seen := SeenPercents(Some(stored));
    var crossed := ThresholdAlerts(b, again.forecast, asOf, ts, seen);
    assert again.alerts == crossed;
    ThresholdAlertsAre(b, again.forecast, asOf, ts, seen);
    if SixDecimals(ts) {
      PercentsAre(ts);
      AllPercentsKept(ts);
      NoneWhenSeen(b, again.forecast, asOf, ts, seen);
    } else {
      var t := APercentDropped(ts);
      assert ThresholdAlert(b, again.forecast, asOf, t) in crossed;
    }
  }

  // ------------------------------------------------------------------ one run

  ghost predicate Distinguishable(input: Input) {
    forall b <- input.budgets :: SixDecimals(b.thresholds)
  }

  function KeyAt(input: Input, i: nat): Key
    requires i < |input.budgets|
  {
    Key(input.budgets[i].id, input.period.start)
  }

  /** Some budget of the run repeats an alert for the condition. */
  ghost predicate RepeatedBefore(input: Input, states: map<Key, BudgetState>, n: nat, k: Key, c: Condition)
    requires input.Valid() && n <= |input.budgets|
  {
    exists i :: 0 <= i < n && KeyAt(input, i) == k
                && Repeated(input.budgets[i], input.spends[i], Previous(states, k), c)
  }

  ghost predicate RepeatedIn(input: Input, states: map<Key, BudgetState>, k: Key, c: Condition)
    requires input.Valid()
  {
    RepeatedBefore(input, states, |input.budgets|, k, c)
  }

  /** The first n assessments: the states they store, and the alerts they build for a condition. */
  lemma {:induction false} FirstAssessments(input: Input, states: map<Key, BudgetState>, n: nat, k: Key, c: Condition)
    requires input.Valid() && n <= |input.budgets|
    ensures var s := Assessments(input, states)[..n];
      && (forall i :: 0 <= i < n && KeyAt(input, i) == k ==>
            Previous(UpsertStates(states, s), k) == Some(Assessments(input, states)[i].state))
      && ((forall i :: 0 <= i < n ==> KeyAt(input, i) != k) ==>
            Previous(UpsertStates(states, s), k) == Previous(states, k))
      && Count(AllAlerts(s), k, c)
         == (if Rising(Previous(states, k), Previous(UpsertStates(states, s), k), c) then 1 else 0)
            + (if RepeatedBefore(input, states, n, k, c) then 1 else 0)
  {
    hide Assess, Rising, IsAbout, Count, Assessments, Repeated;
    var all := Assessments(input, states);
    NoEdge(Previous(states, k), c);
    if n == 0 {
      assert Count([], k, c) == 0 by { CountNone(k, c); }
    } else {
      var i := n - 1;
      FirstAssessments(input, states, i, k, c);
      assert all[..n][..i] == all[..i];
      CountAppend(AllAlerts(all[..i]), all[i].alerts, k, c);
      AssessedAt(input, states, i, k, c);
      OneBudgetAKey(input, i);
      OneMoreBudget(input, states, i, k, c);
      hide RepeatedBefore;
    }
  }

  lemma OneMoreBudget(input: Input, states: map<Key, BudgetState>, i: nat, k: Key, c: Condition)
    requires input.Valid() && i < |input.budgets|
    ensures RepeatedBefore(input, states, i + 1, k, c) <==>
      RepeatedBefore(input, states, i, k, c)
      || (KeyAt(input, i) == k && Repeated(input.budgets[i], input.spends[i], Previous(states, k), c))
    ensures KeyAt(input, i) == k ==> !RepeatedBefore(input, states, i, k, c)
  {
    hide Repeated;
    OneBudgetAKey(input, i);
  }

  lemma CountNone(k: Key, c: Condition)
    ensures Count([], k, c) == 0
  {
  }

  lemma OneBudgetAKey(input: Input, i: nat)
    requires input.Valid() && i < |input.budgets|
    ensures forall j :: 0 <= j < i ==> KeyAt(input, j) != KeyAt(input, i)
  {
  }

  lemma NoEdge(state: Option<BudgetState>, c: Condition)
    ensures !Rising(state, state, c)
  {
  }

  lemma AssessedAt(input: Input, states: map<Key, BudgetState>, i: nat, k: Key, c: Condition)
    requires input.Valid() && i < |input.budgets|
    ensures var a := Assessments(input, states)[i];
      var repeated := Repeated(input.budgets[i], input.spends[i], Previous(states, k), c);
      && Key(a.state.budgetId, a.state.period.start) == KeyAt(input, i)
      && Count(a.alerts, k, c)
         == (if k == KeyAt(input, i) && Rising(Previous(states, k), Some(a.state), c) then 1 else 0)
            + (if k == KeyAt(input, i) && repeated then 1 else 0)
  {
    hide Rising, Repeated, IsAbout, AlertsFor, ProjectMonthlySpend, DistinctPercents, Triggered, Text.Trim, Count;
    var b := input.budgets[i];
    assert input.ValidAt(i) && b in input.budgets;
    EdgesOfBudget(b, input.spends[i], input.asOfs[i], Previous(states, KeyAt(input, i)), k, c);
  }

  /**
   * One run: what reaches the alert repository for a condition is its rising edge, unless that write fails, and a
   * repeated alert, if no write fails.
   */
  lemma RunEdge(store: Store, input: Input, k: Key, c: Condition)
    requires input.Valid()
    ensures var next := Next(store, input);
      Count(next.alerts, k, c)
      == Count(store.alerts, k, c)
         + (if Rising(Previous(store.states, k), Previous(next.states, k), c) && !input.faults.alerts then 1 else 0)
         + (if RepeatedIn(input, store.states, k, c) && input.faults == NO_FAULTS then 1 else 0)
  {
    hide Assess, Rising, Assessments, IsAbout, RepeatedBefore;
    var s := Assessments(input, store.states);
    assert s[..|input.budgets|] == s;
    FirstAssessments(input, store.states, |input.budgets|, k, c);
    CountAppend(store.alerts, AllAlerts(s), k, c);
    NoEdge(Previous(store.states, k), c);
  }

  /** Nothing is repeated for another condition than a threshold, nor where no two thresholds print alike. */
  lemma NothingRepeated(input: Input, states: map<Key, BudgetState>, k: Key, c: Condition)
    requires input.Valid() && (!c.Crossed? || Distinguishable(input))
    ensures !RepeatedIn(input, states, k, c)
  {
    hide SixDecimals, Masked, Triggered;
    forall i | 0 <= i < |input.budgets|
      ensures !Repeated(input.budgets[i], input.spends[i], Previous(states, k), c)
    {
      var b, spend := input.budgets[i], input.spends[i];
      assert input.ValidAt(i) && b in input.budgets;
      if c.Crossed? {
        TriggeredSubsequence(b.limit, b.thresholds, spend);
        NoneMasked(Triggered(b.limit, b.thresholds, spend), c.percent);
      }
    }
  }

  // ------------------------------------------------------------------ sequences of runs

  ghost predicate Runs(trace: seq<Store>, inputs: seq<Input>) {
    && |trace| == |inputs| + 1
    && (forall i :: 0 <= i < |inputs| ==> inputs[i].Valid())
    && (forall i :: 0 <= i < |inputs| ==> trace[i + 1] == Next(trace[i], inputs[i]))
  }

  predicate RisesAt(trace: seq<Store>, i: nat, k: Key, c: Condition)
    requires i + 1 < |trace|
  {
    Rising(Previous(trace[i].states, k), Previous(trace[i + 1].states, k), c)
  }

  /** How often the stored state gained the condition in the first n runs. */
  function Rises(trace: seq<Store>, k: Key, c: Condition, n: nat): nat
    requires n < |trace|
  {
    if n == 0 then 0 else Rises(trace, k, c, n - 1) + if RisesAt(trace, n - 1, k, c) then 1 else 0
  }

  /** Those of them whose alert write failed: the state is written first, so these are never alerted. */
  function Lost(trace: seq<Store>, inputs: seq<Input>, k: Key, c: Condition, n: nat): nat
    requires n < |trace| && n <= |inputs|
  {
    if n == 0 then 0
    else Lost(trace, inputs, k, c, n - 1)
         + if RisesAt(trace, n - 1, k, c) && inputs[n - 1].faults.alerts then 1 else 0
  }

  /** How often a run in which no write failed repeated an alert for the condition. */
  ghost function Repeats(trace: seq<Store>, inputs: seq<Input>, k: Key, c: Condition, n: nat): nat
    requires n < |trace| && n <= |inputs| && forall i :: 0 <= i < |inputs| ==> inputs[i].Valid()
  {
    if n == 0 then 0
    else Repeats(trace, inputs, k, c, n - 1)
         + if RepeatedIn(inputs[n - 1], trace[n - 1].states, k, c) && inputs[n - 1].faults == NO_FAULTS then 1 else 0
  }

  /**
   * Over any sequence of runs with arbitrary budgets, spends and failing writes: the alerts handed on for a
   * condition and the rising edges lost to a failing alert write together are exactly the rising edges of the
   * stored state and the repeated alerts of thresholds that print like a lower one. So without such thresholds no
   * rising edge is alerted twice, and without a failing alert write each is alerted.
   */
  lemma {:induction false} AlertsAreRisingEdges(trace: seq<Store>, inputs: seq<Input>, k: Key, c: Condition, n: nat)
    requires Runs(trace, inputs) && n <= |inputs|
    ensures Count(trace[n].alerts, k, c) + Lost(trace, inputs, k, c, n)
         == Count(trace[0].alerts, k, c) + Rises(trace, k, c, n) + Repeats(trace, inputs, k, c, n)
    ensures Lost(trace, inputs, k, c, n) <= Rises(trace, k, c, n)
    ensures (forall i :: 0 <= i < n ==> !inputs[i].faults.alerts) ==> Lost(trace, inputs, k, c, n) == 0
    ensures !c.Crossed? || (forall i :: 0 <= i < n ==> Distinguishable(inputs[i])) ==>
      Repeats(trace, inputs, k, c, n) == 0
    decreases n
  {
    hide Next, Rising, Distinguishable, Count, RepeatedIn;
    if n > 0 {
      AlertsAreRisingEdges(trace, inputs, k, c, n - 1);
      assert trace[n - 1 + 1] == Next(trace[n - 1], inputs[n - 1]);
      RunEdge(trace[n - 1], inputs[n - 1], k, c);
      if !c.Crossed? || Distinguishable(inputs[n - 1]) {
        NothingRepeated(inputs[n - 1], trace[n - 1].states, k, c);
      }
    }
  }

  /** In every stored state a budget that is over its limit is also forecast to be. */
  ghost predicate Consistent(states: map<Key, BudgetState>) {
    forall k <- states.Keys :: states[k].overrun ==> states[k].forecastOverrun
  }

  lemma {:induction false} StatesStayConsistent(input: Input, states: map<Key, BudgetState>, n: nat)
    requires input.Valid() && n <= |input.budgets| && Consistent(states)
    ensures Consistent(UpsertStates(states, Assessments(input, states)[..n]))
  {
    hide Assess;
    if n > 0 {
      var all := Assessments(input, states);
      StatesStayConsistent(input, states, n - 1);
      assert all[..n][..n - 1] == all[..n - 1];
      assert input.ValidAt(n - 1);
      OverrunImplies(input.budgets[n - 1], input.spends[n - 1], input.asOfs[n - 1],
                     Previous(states, KeyAt(input, n - 1)));
    }
  }

  lemma {:induction false} AlwaysConsistent(trace: seq<Store>, inputs: seq<Input>, n: nat)
    requires Runs(trace, inputs) && n <= |inputs| && Consistent(trace[0].states)
    ensures Consistent(trace[n].states)
    decreases n
  {
    hide Assessments, Consistent;
    if n > 0 {
      AlwaysConsistent(trace, inputs, n - 1);
      var store, input := trace[n - 1], inputs[n - 1];
      assert trace[n - 1 + 1] == Next(store, input);
      var s := Assessments(input, store.states);
      assert s[..|input.budgets|] == s;
      StatesStayConsistent(input, store.states, |input.budgets|);
    }
  }
}
