/** The budget monitor: spend, forecast, stored state and edge-triggered alerts of every budget of a month. */
module BudgetMonitor {
  import opened AlertIds
  import opened Domain
  import opened Budget
  import Calendar
  import Sums
  import Text

  /** The part of a persisted subscription fee the monitor reads. */
  datatype Fee = Fee(subscriptionId: string, provider: string, chargedAt: Time, usd: real)

  function CostOf(e: UsageEntry): real { e.costs.total }

  function FeeOf(f: Fee): real { f.usd }

  // ------------------------------------------------------------------ the inputs of one budget

  function Tag(e: UsageEntry, key: string): string {
    if key in e.metadata then e.metadata[key] else ""
  }

  predicate EntryFits(b: MonthlyBudget, e: UsageEntry) {
    && (b.provider == "" || e.provider == b.provider)
    && (b.projectHash == "" || Tag(e, "project_hash") == b.projectHash)
  }

  predicate FeeFits(b: MonthlyBudget, f: Fee) {
    (b.provider == "" || f.provider == b.provider) && b.projectHash == ""
  }

  function FittingEntries(b: MonthlyBudget, es: seq<UsageEntry>): seq<UsageEntry> {
    if es == [] then []
    else FittingEntries(b, es[..|es| - 1]) + if EntryFits(b, es[|es| - 1]) then [es[|es| - 1]] else []
  }

  function FittingFees(b: MonthlyBudget, fs: seq<Fee>): seq<Fee> {
    if fs == [] then []
    else FittingFees(b, fs[..|fs| - 1]) + if FeeFits(b, fs[|fs| - 1]) then [fs[|fs| - 1]] else []
  }

  /** A budget for a provider counts what has that provider, one for a project what is tagged with it, and no fees. */
  lemma {:induction false} FittingEntriesAre(b: MonthlyBudget, es: seq<UsageEntry>)
    ensures forall e :: e in FittingEntries(b, es) <==>
      && e in es && (b.provider == "" || e.provider == b.provider)
      && (b.projectHash == "" || ("project_hash" in e.metadata && e.metadata["project_hash"] == b.projectHash))
  {
    hide EntryFits;
    if es != [] {
      var n := |es| - 1;
      FittingEntriesAre(b, es[..n]);
      EntryFitsIff(b, es[n]);
      assert es == es[..n] + [es[n]];
    }
  }

  lemma EntryFitsIff(b: MonthlyBudget, e: UsageEntry)
    ensures EntryFits(b, e) <==>
      && (b.provider == "" || e.provider == b.provider)
      && (b.projectHash == "" || ("project_hash" in e.metadata && e.metadata["project_hash"] == b.projectHash))
  {
  }

  lemma {:induction false} FittingFeesAre(b: MonthlyBudget, fs: seq<Fee>)
    ensures forall f :: f in FittingFees(b, fs) <==>
      f in fs && (b.provider == "" || f.provider == b.provider) && b.projectHash == ""
  {
    if fs != [] {
      var n := |fs| - 1;
      FittingFeesAre(b, fs[..n]);
      assert fs == fs[..n] + [fs[n]];
    }
  }

  method FilterBudgetInputs(b: MonthlyBudget, entries: seq<UsageEntry>, fees: seq<Fee>)
    returns (es: seq<UsageEntry>, fs: seq<Fee>)
    ensures es == FittingEntries(b, entries) && fs == FittingFees(b, fees)
  {
    es, fs := [], [];
    for i := 0 to |entries|
      invariant es == FittingEntries(b, entries[..i])
    {
      assert entries[..i + 1][..i] == entries[..i];
      if b.provider != "" && entries[i].provider != b.provider {
        continue;
      }
      if b.projectHash != "" && Tag(entries[i], "project_hash") != b.projectHash {
        continue;
      }
      es := es + [entries[i]];
    }
    assert entries[..|entries|] == entries;
    for i := 0 to |fees|
      invariant fs == FittingFees(b, fees[..i])
    {
      assert fees[..i + 1][..i] == fees[..i];
      if b.provider != "" && fees[i].provider != b.provider {
        continue;
      }
      if b.projectHash != "" {
        continue;
      }
      fs := fs + [fees[i]];
    }
    assert fees[..|fees|] == fees;
  }

  method SumUsageSpend(es: seq<UsageEntry>) returns (total: real)
    ensures total == Sums.Sum(REALS, es, CostOf)
  {
    total := 0.0;
    for i := 0 to |es|
      invariant total == Sums.Sum(REALS, es[..i], CostOf)
    {
      assert es[..i + 1][..i] == es[..i];
      total := total + es[i].costs.total;
    }
    assert es[..|es|] == es;
  }

  method SumSubscriptionSpend(fs: seq<Fee>) returns (total: real)
    ensures total == Sums.Sum(REALS, fs, FeeOf)
  {
    total := 0.0;
    for i := 0 to |fs|
      invariant total == Sums.Sum(REALS, fs[..i], FeeOf)
    {
      assert fs[..i + 1][..i] == fs[..i];
      total := total + fs[i].usd;
    }
    assert fs[..|fs|] == fs;
  }

  function Spend(b: MonthlyBudget, entries: seq<UsageEntry>, fees: seq<Fee>): real {
    Sums.Sum(REALS, FittingEntries(b, entries), CostOf) + Sums.Sum(REALS, FittingFees(b, fees), FeeOf)
  }

  // ------------------------------------------------------------------ the forecast

  /** Nothing observed reaches past t, which is the start or a time observed. */
  ghost predicate IsLatest(t: Time, p: Period, es: seq<UsageEntry>, fs: seq<Fee>) {
    && p.start <= t
    && (forall e <- es :: e.occurredAt <= t) && (forall f <- fs :: f.chargedAt <= t)
    && (t == p.start || (exists e <- es :: e.occurredAt == t) || exists f <- fs :: f.chargedAt == t)
  }

  ghost predicate ObservedAfter(p: Period, es: seq<UsageEntry>, fs: seq<Fee>) {
    (exists e <- es :: e.occurredAt >= p.end) || exists f <- fs :: f.chargedAt >= p.end
  }

  /** The latest time of what was observed, or the end of the period when something was observed after it. */
  ghost predicate IsAsOf(asOf: Time, p: Period, es: seq<UsageEntry>, fs: seq<Fee>) {
    p.Contains(asOf) && if ObservedAfter(p, es, fs) then asOf == p.end - 1 else IsLatest(asOf, p, es, fs)
  }

  lemma StartIsLatest(p: Period, es: seq<UsageEntry>)
    ensures IsLatest(p.start, p, es[..0], [])
  {
  }

  lemma LatestEntry(t: Time, p: Period, es: seq<UsageEntry>, i: nat)
    requires i < |es| && IsLatest(t, p, es[..i], [])
    ensures IsLatest(if es[i].occurredAt > t then es[i].occurredAt else t, p, es[..i + 1], [])
  {
    assert es[..i + 1] == es[..i] + [es[i]];
    assert es[i] in es[..i + 1];
    assert forall e <- es[..i] :: e in es[..i + 1];
  }

  lemma LatestFee(t: Time, p: Period, es: seq<UsageEntry>, fs: seq<Fee>, i: nat)
    requires i < |fs| && IsLatest(t, p, es, fs[..i])
    ensures IsLatest(if fs[i].chargedAt > t then fs[i].chargedAt else t, p, es, fs[..i + 1])
  {
    assert fs[..i + 1] == fs[..i] + [fs[i]];
    assert fs[i] in fs[..i + 1];
    assert forall f <- fs[..i] :: f in fs[..i + 1];
  }

  lemma LatestInPeriod(t: Time, p: Period, es: seq<UsageEntry>, fs: seq<Fee>)
    requires p.Valid() && IsLatest(t, p, es, fs)
    ensures p.start <= t
    ensures IsAsOf(if p.Contains(t) then t else p.end - 1, p, es, fs)
  {
  }

  method ForecastAsOf(p: Period, es: seq<UsageEntry>, fs: seq<Fee>, clock: Option<Time>) returns (asOf: Time)
    ensures p.Valid() ==> IsAsOf(asOf, p, es, fs)
  {
    hide IsLatest, IsAsOf;
    asOf := p.start;
    StartIsLatest(p, es);
    for i := 0 to |es|
      invariant IsLatest(asOf, p, es[..i], [])
    {
      LatestEntry(asOf, p, es, i);
      if es[i].occurredAt > asOf {
        asOf := es[i].occurredAt;
      }
    }
    assert es[..|es|] == es && fs[..0] == [];
    for i := 0 to |fs|
      invariant IsLatest(asOf, p, es, fs[..i])
    {
      LatestFee(asOf, p, es, fs, i);
      if fs[i].chargedAt > asOf {
        asOf := fs[i].chargedAt;
      }
    }
    assert fs[..|fs|] == fs;
    if p.Valid() {
      LatestInPeriod(asOf, p, es, fs);
    }
    if asOf == p.start && clock.Some? {
      if p.Contains(clock.value) {
        return p.start;
      }
    }
    if !p.Contains(asOf) {
      if asOf < p.start {
        return p.start;
      }
      return p.end - 1;
    }
  }

  function ObservedDays(p: Period, asOf: Time): int {
    var days := if p.Contains(asOf) then (asOf - p.start) / DAY + 1 else 1;
    if days < 1 then 1 else days
  }

  function TotalDays(p: Period): int {
    (p.end - p.start) / DAY
  }

  function ProjectMonthlySpend(p: Period, asOf: Time, spend: real): real {
    if spend == 0.0 then 0.0
    else if !p.Contains(asOf) then spend
    else if TotalDays(p) < ObservedDays(p, asOf) then spend
    else spend * TotalDays(p) as real / ObservedDays(p, asOf) as real
  }

  function ForecastId(budgetId: string): string {
    budgetId + ":forecast"
  }

  function NewForecastSnapshot(b: MonthlyBudget, p: Period, at: Time, actual: real, forecast: real): Result<Forecast> {
    var remaining := TotalDays(p) - ObservedDays(p, at);
    NewForecast(Forecast(ForecastId(b.id), b.period, at, actual, forecast, b.limit, 0.0, ObservedDays(p, at),
                         if remaining < 0 then 0 else remaining))
  }

  // ------------------------------------------------------------------ states and alerts

  function Percents(ts: seq<Threshold>): (ps: seq<real>)
    ensures |ps| == |ts|
  {
    seq(|ts|, i requires 0 <= i < |ts| => ts[i].percent)
  }

  method NewState(b: MonthlyBudget, f: Forecast, status: Status, updatedAt: Time) returns (r: Result<BudgetState>)
    ensures r.Ok? <==>
      && Text.Trim(b.id) != "" && b.period.IsSet() && f.actual >= 0.0 && f.forecast >= 0.0
      && updatedAt != ZERO_TIME && ValidPercents(Percents(status.triggered))
    ensures r.Ok? ==>
      r.value == BudgetState(b.id, b.period, f.actual, f.forecast, DistinctPercents(Percents(status.triggered)),
                             status.overrun, f.overrun > 0.0, updatedAt)
  {
    var percents: seq<real> := [];
    for i := 0 to |status.triggered|
      invariant percents == Percents(status.triggered[..i])
    {
      percents := percents + [status.triggered[i].percent];
    }
    assert status.triggered[..|status.triggered|] == status.triggered;
    r := NewBudgetState(BudgetState(b.id, b.period, f.actual, f.forecast, percents, status.overrun, f.overrun > 0.0,
                                    updatedAt));
  }

  function ThresholdAlert(b: MonthlyBudget, f: Forecast, at: Time, t: Threshold): Alert {
    Alert(ThresholdId(b.id, t.percent, at), BudgetThreshold, t.severity, at, b.period, b.id, "", f.actual, b.limit,
          t.percent)
  }

  function OverrunAlert(b: MonthlyBudget, f: Forecast, at: Time): Alert {
    Alert(OverrunId(b.id, at), BudgetOverrun, Critical, at, b.period, b.id, "", f.actual, b.limit, 0.0)
  }

  function ForecastAlert(b: MonthlyBudget, f: Forecast, at: Time): Alert {
    Alert(ForecastAlertId(b.id, at), ForecastOverrun, Warning, at, b.period, "", f.id, f.forecast, b.limit, 0.0)
  }

  function ThresholdAlerts(b: MonthlyBudget, f: Forecast, at: Time, ts: seq<Threshold>, seen: set<real>): seq<Alert> {
    if ts == [] then []
    else
      var n := |ts| - 1;
      ThresholdAlerts(b, f, at, ts[..n], seen)
      + if ts[n].percent in seen then [] else [ThresholdAlert(b, f, at, ts[n])]
  }

  function SeenPercents(previous: Option<BudgetState>): set<real> {
    if previous.Some? then set p <- previous.value.percents else {}
  }

  /** The alerts of one budget, in the order they are built. */
  function AlertsFor(b: MonthlyBudget, status: Status, f: Forecast, previous: Option<BudgetState>,
                     at: Time): seq<Alert>
  {
    ThresholdAlerts(b, f, at, status.triggered, SeenPercents(previous))
    + (if status.overrun && (previous.None? || !previous.value.overrun) then [OverrunAlert(b, f, at)] else [])
    + (if f.overrun > 0.0 && (previous.None? || !previous.value.forecastOverrun) then [ForecastAlert(b, f, at)] else [])
  }

  method BuildBudgetAlerts(b: MonthlyBudget, status: Status, f: Forecast, previous: Option<BudgetState>, at: Time)
    returns (r: Result<seq<Alert>>)
    ensures r.Ok? ==> r.value == AlertsFor(b, status, f, previous, at)
    ensures r.Err? ==> exists a <- AlertsFor(b, status, f, previous, at) :: NewAlert(a).Err?
  {
    hide ThresholdAlert, OverrunAlert, ForecastAlert, NewAlert;
    var alerts: seq<Alert> := [];
    var seen := SeenPercents(previous);
    for i := 0 to |status.triggered|
      invariant alerts == ThresholdAlerts(b, f, at, status.triggered[..i], seen)
    {
      ThresholdAlertsStep(b, f, at, status.triggered, i, seen);
      if status.triggered[i].percent in seen {
        continue;
      }
      var alert := NewAlert(ThresholdAlert(b, f, at, status.triggered[i]));
      if alert.Err? {
        return Err(alert.error);
      }
      NewAlertKeeps(ThresholdAlert(b, f, at, status.triggered[i]));
      alerts := alerts + [alert.value];
    }
    assert status.triggered[..|status.triggered|] == status.triggered;
    if status.overrun && (previous.None? || !previous.value.overrun) {
      var alert := NewAlert(OverrunAlert(b, f, at));
      if alert.Err? {
        return Err(alert.error);
      }
      NewAlertKeeps(OverrunAlert(b, f, at));
      alerts := alerts + [alert.value];
    }
    if f.overrun > 0.0 && (previous.None? || !previous.value.forecastOverrun) {
      var alert := NewAlert(ForecastAlert(b, f, at));
      if alert.Err? {
        return Err(alert.error);
      }
      NewAlertKeeps(ForecastAlert(b, f, at));
      alerts := alerts + [alert.value];
    }
    return Ok(alerts);
  }

  lemma NewAlertKeeps(a: Alert)
    ensures NewAlert(a).Ok? ==> NewAlert(a).value == a
  {
  }

  lemma ThresholdAlertsStep(b: MonthlyBudget, f: Forecast, at: Time, ts: seq<Threshold>, i: nat, seen: set<real>)
    requires i < |ts|
    ensures ThresholdAlerts(b, f, at, ts[..i + 1], seen)
         == ThresholdAlerts(b, f, at, ts[..i], seen)
            + if ts[i].percent in seen then [] else [ThresholdAlert(b, f, at, ts[i])]
    ensures ts[i].percent !in seen ==> ThresholdAlert(b, f, at, ts[i]) in ThresholdAlerts(b, f, at, ts, seen)
  {
    assert ts[..i + 1][..i] == ts[..i];
    ThresholdAlertIn(b, f, at, ts, i, seen);
  }

  lemma {:induction false} ThresholdAlertIn(b: MonthlyBudget, f: Forecast, at: Time, ts: seq<Threshold>, i: nat,
                                            seen: set<real>)
    requires i < |ts|
    ensures ts[i].percent !in seen ==> ThresholdAlert(b, f, at, ts[i]) in ThresholdAlerts(b, f, at, ts, seen)
    decreases |ts|
  {
    if i < |ts| - 1 {
      ThresholdAlertIn(b, f, at, ts[..|ts| - 1], i, seen);
    }
  }

  // ------------------------------------------------------------------ one budget

  datatype Assessment = Assessment(forecast: Forecast, state: BudgetState, alerts: seq<Alert>)

  /** What one run finds out about a budget, from its spend and the state stored before. */
  function Assess(b: MonthlyBudget, spend: real, asOf: Time, previous: Option<BudgetState>): Assessment {
    var projected := ProjectMonthlySpend(b.period, asOf, spend);
    var over := if projected - b.limit < 0.0 then 0.0 else projected - b.limit;
    var forecast := Forecast(ForecastId(b.id), b.period, asOf, spend, projected, b.limit, over,
                             ObservedDays(b.period, asOf), TotalDays(b.period) - ObservedDays(b.period, asOf));
    var status := Status(Triggered(b.limit, b.thresholds, spend), b.limit - spend, spend > b.limit);
    Assessment(forecast,
               BudgetState(b.id, b.period, spend, projected, DistinctPercents(Percents(status.triggered)),
                           spend > b.limit, projected > b.limit, asOf),
               AlertsFor(b, status, forecast, previous, asOf))
  }

  method MonitorBudget(b: MonthlyBudget, p: Period, entries: seq<UsageEntry>, fees: seq<Fee>, clock: Option<Time>,
                       previous: Option<BudgetState>) returns (r: Result<Assessment>)
    ensures b.Valid() && b.period == p && NonNegative(entries, fees) ==>
      exists asOf :: IsAsOf(asOf, p, FittingEntries(b, entries), FittingFees(b, fees))
                     && r == Ok(Assess(b, Spend(b, entries, fees), asOf, previous))
  {
    hide AlertsFor, IsAsOf, ThresholdAlerts, Triggered, DistinctPercents, NewAlert, NonNegative, Sums.Sum, Text.Trim,
         ProjectMonthlySpend, ObservedDays, TotalDays, ForecastId;
    var es, fs := FilterBudgetInputs(b, entries, fees);
    var variable := SumUsageSpend(es);
    var fixed := SumSubscriptionSpend(fs);
    var actual := variable + fixed;
    var asOf := ForecastAsOf(p, es, fs, clock);
    var projected := ProjectMonthlySpend(p, asOf, actual);
    ghost var valid := b.Valid() && b.period == p && NonNegative(entries, fees);
    if valid {
      SpendIsNonNegative(b, entries, fees);
      assert p.Contains(asOf) by { AsOfInPeriod(asOf, p, es, fs); }
      NothingIsRefused(b, actual, asOf, previous);
    }
    var forecast := NewForecastSnapshot(b, p, asOf, actual, projected);
    if forecast.Err? {
      return Err(forecast.error);
    }
    var status := EvaluateSpend(b, actual);
    if status.Err? {
      return Err(status.error);
    }
    var state := NewState(b, forecast.value, status.value, asOf);
    if state.Err? {
      return Err(state.error);
    }
    var alerts := BuildBudgetAlerts(b, status.value, forecast.value, previous, asOf);
    if alerts.Err? {
      return Err(alerts.error);
    }
    return Ok(Assessment(forecast.value, state.value, alerts.value));
  }

  /** What the repositories hold: no entry and no fee is negative. */
  predicate NonNegative(entries: seq<UsageEntry>, fees: seq<Fee>) {
    (forall e <- entries :: e.costs.total >= 0.0) && (forall f <- fees :: f.usd >= 0.0)
  }

  lemma AsOfInPeriod(asOf: Time, p: Period, es: seq<UsageEntry>, fs: seq<Fee>)
    requires IsAsOf(asOf, p, es, fs)
    ensures p.Contains(asOf)
  {
  }

  lemma {:induction false} FittingMembers(b: MonthlyBudget, es: seq<UsageEntry>, fs: seq<Fee>)
    ensures forall e <- FittingEntries(b, es) :: e in es && EntryFits(b, e)
    ensures forall f <- FittingFees(b, fs) :: f in fs && FeeFits(b, f)
    decreases |es| + |fs|
  {
    hide EntryFits, FeeFits;
    if es != [] {
      FittingMembers(b, es[..|es| - 1], fs);
    } else if fs != [] {
      FittingMembers(b, es, fs[..|fs| - 1]);
    }
  }

  lemma {:induction false} SumIsNonNegative<T>(s: seq<T>, f: T -> real)
    requires forall x <- s :: f(x) >= 0.0
    ensures Sums.Sum(REALS, s, f) >= 0.0
  {
    if s != [] {
      SumIsNonNegative(s[..|s| - 1], f);
    }
  }

  lemma SpendIsNonNegative(b: MonthlyBudget, entries: seq<UsageEntry>, fees: seq<Fee>)
    requires NonNegative(entries, fees)
    ensures Spend(b, entries, fees) >= 0.0
  {
    FittingMembers(b, entries, fees);
    SumIsNonNegative(FittingEntries(b, entries), CostOf);
    SumIsNonNegative(FittingFees(b, fees), FeeOf);
  }

  // ------------------------------------------------------------------ forecast arithmetic

  /**
   * Inside its month a run has observed at least one day and no more than the month has, and the projection
   * is at least what was spent: the spend of the observed days, scaled to the month.
   */
  lemma ForecastArithmetic(p: Period, asOf: Time, spend: real)
    requires p.Valid() && p.Contains(asOf) && spend >= 0.0
    ensures 1 <= ObservedDays(p, asOf) <= TotalDays(p) && 28 <= TotalDays(p) <= 31
    ensures ProjectMonthlySpend(p, asOf, spend) >= spend
    ensures ProjectMonthlySpend(p, asOf, spend) * ObservedDays(p, asOf) as real == spend * TotalDays(p) as real
  {
    hide ObservedDays, TotalDays, Period.Valid, Period.Contains;
    DaysInPeriod(p, asOf);
    if spend != 0.0 {
      Scaled(spend, TotalDays(p) as real, ObservedDays(p, asOf) as real);
    }
  }

  lemma DaysInPeriod(p: Period, asOf: Time)
    requires p.Valid() && p.Contains(asOf)
    ensures 1 <= ObservedDays(p, asOf) <= TotalDays(p) && 28 <= TotalDays(p) <= 31
  {
    var days :| 28 <= days <= 31 && p.end == p.start + days * DAY;
    assert TotalDays(p) == days;
    assert 0 <= (asOf - p.start) / DAY < days;
  }

  /** In its month the observed days are the day of the month. */
  lemma ObservedIsDay(month: int, asOf: Time)
    requires month > 0 && Calendar.MonthPeriod(month).Contains(asOf)
    ensures ObservedDays(Calendar.MonthPeriod(month), asOf) == Calendar.CivilOf(asOf).day
    ensures TotalDays(Calendar.MonthPeriod(month)) == Calendar.DaysIn(month)
  {
    Calendar.MonthPeriodIs(month);
    hide Calendar.MonthPeriod, Calendar.DaysIn, Calendar.CivilOf;
    Calendar.InItsMonth(month, asOf);
  }

  /** Outside its period a time counts for one day, and nothing is scaled. */
  lemma OutsidePeriod(p: Period, asOf: Time, spend: real)
    requires !p.Contains(asOf)
    ensures ObservedDays(p, asOf) == 1 && ProjectMonthlySpend(p, asOf, spend) == spend
  {
  }

  /** The forecast of a run is the spend of the days of the month so far, scaled to the month. */
  lemma ForecastIs(b: MonthlyBudget, month: int, spend: real, asOf: Time, previous: Option<BudgetState>)
    requires month > 0 && b.period == Calendar.MonthPeriod(month) && b.period.Contains(asOf) && spend >= 0.0
    ensures var f := Assess(b, spend, asOf, previous).forecast;
      && f.actual == spend && f.limit == b.limit && f.period == b.period && f.generatedAt == asOf
      && f.forecast * Calendar.CivilOf(asOf).day as real == spend * Calendar.DaysIn(month) as real
      && f.overrun == (if f.forecast > b.limit then f.forecast - b.limit else 0.0)
      && f.observedDays == Calendar.CivilOf(asOf).day
      && f.observedDays + f.remainingDays == Calendar.DaysIn(month)
  {
    hide *;
    Calendar.MonthPeriodIs(month);
    ObservedIsDay(month, asOf);
    ForecastArithmetic(b.period, asOf, spend);
    ForecastParts(b, spend, asOf, previous);
  }

  lemma ForecastParts(b: MonthlyBudget, spend: real, asOf: Time, previous: Option<BudgetState>)
    ensures var f := Assess(b, spend, asOf, previous).forecast;
      && f.actual == spend && f.limit == b.limit && f.period == b.period && f.generatedAt == asOf
      && f.forecast == ProjectMonthlySpend(b.period, asOf, spend)
      && f.overrun == (if f.forecast > b.limit then f.forecast - b.limit else 0.0)
      && f.observedDays == ObservedDays(b.period, asOf)
      && f.remainingDays == TotalDays(b.period) - ObservedDays(b.period, asOf)
  {
    hide ObservedDays, TotalDays, ProjectMonthlySpend, Triggered, AlertsFor, DistinctPercents;
  }

  lemma Scaled(s: real, t: real, o: real)
    requires s >= 0.0 && t >= o > 0.0
    ensures s * t / o >= s && (s * t / o) * o == s * t
  {
    assert s * t >= s * o;
    assert (s * t) / o >= (s * o) / o;
  }

  // ------------------------------------------------------------------ nothing is refused

  lemma {:induction false} TriggeredAre(limit: real, ts: seq<Threshold>, spend: real)
    ensures forall t :: t in Triggered(limit, ts, spend) <==> t in ts && spend >= limit * t.percent
  {
    if ts != [] {
      var n := |ts| - 1;
      TriggeredAre(limit, ts[..n], spend);
      assert ts == ts[..n] + [ts[n]];
    }
  }

  lemma NamedIdIsVisible(id: string, suffix: string)
    requires suffix != "" && suffix[0] == ':'
    ensures Text.Trim(id + suffix) != ""
  {
    assert (id + suffix)[|id|] == ':';
    Text.VisibleStays(id + suffix, |id|);
  }

  /** For a valid budget and a spend that is not negative no constructor on the way refuses its value. */
  lemma NothingIsRefused(b: MonthlyBudget, spend: real, asOf: Time, previous: Option<BudgetState>)
    requires b.Valid() && b.period.Contains(asOf) && spend >= 0.0
    ensures var a := Assess(b, spend, asOf, previous);
      && NewForecastSnapshot(b, b.period, asOf, spend, ProjectMonthlySpend(b.period, asOf, spend)) == Ok(a.forecast)
      && a.forecast.forecast >= spend
      && a.forecast.observedDays >= 1 && a.forecast.remainingDays >= 0
      && a.forecast.observedDays + a.forecast.remainingDays == TotalDays(b.period)
      && (a.forecast.overrun > 0.0 <==> ProjectMonthlySpend(b.period, asOf, spend) > b.limit)
      && ValidPercents(Percents(Triggered(b.limit, b.thresholds, spend)))
      && forall x <- a.alerts :: NewAlert(x).Ok?
  {
    hide Text.Trim, Triggered, ThresholdAlerts, DistinctPercents, ProjectMonthlySpend, ObservedDays, TotalDays,
         ThresholdId, OverrunId, ForecastAlertId;
    ForecastArithmetic(b.period, asOf, spend);
    NamedIdIsVisible(b.id, ":forecast");
    IdsAreVisible(b.id, asOf);
    var ts := Triggered(b.limit, b.thresholds, spend);
    TriggeredAre(b.limit, b.thresholds, spend);
    assert forall p <- Percents(ts) :: exists t <- ts :: p == t.percent;
    var a := Assess(b, spend, asOf, previous);
    ThresholdAlertsAre(b, a.forecast, asOf, ts, SeenPercents(previous));
  }

  lemma {:induction false} ThresholdAlertsAre(b: MonthlyBudget, f: Forecast, at: Time, ts: seq<Threshold>,
                                              seen: set<real>)
    ensures forall a :: a in ThresholdAlerts(b, f, at, ts, seen) <==>
      exists t <- ts :: t.percent !in seen && a == ThresholdAlert(b, f, at, t)
  {
    hide ThresholdAlert;
    if ts != [] {
      var n := |ts| - 1;
      ThresholdAlertsAre(b, f, at, ts[..n], seen);
      assert forall t :: t in ts <==> t in ts[..n] || t == ts[n];
    }
  }

  /** What each alert of a run says: the threshold with its severity, or which overrun, and the spend that is meant. */
  lemma AlertsSay(b: MonthlyBudget, spend: real, asOf: Time, previous: Option<BudgetState>)
    ensures var r := Assess(b, spend, asOf, previous);
      forall a <- r.alerts ::
        && a.at == asOf && a.period == b.period && a.limit == b.limit
        && match a.kind
           case BudgetThreshold =>
             && a.budgetId == b.id && a.forecastId == "" && a.current == spend && spend >= b.limit * a.percent
             && Threshold(a.severity, a.percent) in b.thresholds
           case BudgetOverrun =>
             && a.budgetId == b.id && a.forecastId == "" && a.current == spend && spend > b.limit
             && a.severity == Critical && a.percent == 0.0
           case ForecastOverrun =>
             && a.budgetId == "" && a.forecastId == r.forecast.id && a.current == r.forecast.forecast > b.limit
             && a.severity == Warning && a.percent == 0.0
  {
    hide Triggered, ThresholdAlerts, DistinctPercents, ProjectMonthlySpend, ObservedDays, TotalDays, ThresholdId,
         OverrunId, ForecastAlertId, ForecastId;
    var r := Assess(b, spend, asOf, previous);
    var ts := Triggered(b.limit, b.thresholds, spend);
    TriggeredAre(b.limit, b.thresholds, spend);
    ThresholdAlertsAre(b, r.forecast, asOf, ts, SeenPercents(previous));
  }
}
