/** Budgets: thresholds, forecasts, stored states and alerts, with the validation of their constructors. */
module Budget {
  import opened Domain
  import Sums
  import Text

  const REALS := Sums.Adder(0.0, (a: real, b: real) => a + b)

  lemma RealsAdd()
    ensures Sums.Lawful(REALS)
  {
  }

  // ------------------------------------------------------------------ periods

  datatype Period = Period(start: Time, end: Time)
  {
    /** A calendar month: whole days, and not the unset value. */
    predicate Valid() {
      start > 0 && start % DAY == 0 && exists days :: 28 <= days <= 31 && end == start + days * DAY
    }
    predicate IsSet() {
      start != ZERO_TIME && end != ZERO_TIME
    }
    predicate Contains(t: Time) {
      t != ZERO_TIME && IsSet() && start <= t < end
    }
  }

  /** The days from a midnight on. */
  function Days(start: Time, n: nat): seq<Time> {
    if n == 0 then [] else Days(start, n - 1) + [start + (n - 1) * DAY]
  }

  lemma DayOfTime(start: Time, t: Time)
    requires start % DAY == 0
    ensures Day(t) == start + (t - start) / DAY * DAY
  {
    assert t / DAY == start / DAY + (t - start) / DAY;
  }

  /** A time falls on one of these days exactly when it lies between the first and the last. */
  lemma DayAmong(start: Time, n: nat, t: Time)
    requires start % DAY == 0
    ensures Day(t) in Days(start, n) <==> start <= t < start + n * DAY
  {
    DaysAre(start, n);
    DayOfTime(start, t);
    hide Days;
    var k := (t - start) / DAY;
    if start <= t < start + n * DAY {
      assert Days(start, n)[k] == Day(t);
    }
    if Day(t) in Days(start, n) {
      var i :| 0 <= i < n && Days(start, n)[i] == Day(t);
      assert i == k;
    }
  }

  lemma {:induction false} DaysAre(start: Time, n: nat)
    ensures |Days(start, n)| == n && forall k :: 0 <= k < n ==> Days(start, n)[k] == start + k * DAY
    ensures Sums.Distinct(Days(start, n))
  {
    if n > 0 {
      DaysAre(start, n - 1);
    }
  }

  // ------------------------------------------------------------------ budgets

  datatype Severity = Info | Warning | Critical | UnknownSeverity

  datatype Threshold = Threshold(severity: Severity, percent: real)
  {
    predicate Valid() {
      !severity.UnknownSeverity? && 0.0 < percent < 1.0
    }
  }

  datatype MonthlyBudget = MonthlyBudget(id: string, period: Period, limit: real, thresholds: seq<Threshold>,
                                         provider: string, projectHash: string)
  {
    /** What NewMonthlyBudget returns: thresholds are valid, sorted and distinct. */
    predicate Valid() {
      && Text.Trim(id) != "" && period.Valid() && limit > 0.0 && thresholds != []
      && (forall t <- thresholds :: t.Valid())
      && (forall i, j :: 0 <= i < j < |thresholds| ==> thresholds[i].percent < thresholds[j].percent)
    }
  }

  datatype Status = Status(triggered: seq<Threshold>, remaining: real, overrun: bool)

  function Triggered(limit: real, thresholds: seq<Threshold>, spend: real): seq<Threshold> {
    if thresholds == [] then []
    else
      var n := |thresholds| - 1;
      Triggered(limit, thresholds[..n], spend)
      + if spend >= limit * thresholds[n].percent then [thresholds[n]] else []
  }

  method EvaluateSpend(b: MonthlyBudget, spend: real) returns (r: Result<Status>)
    ensures r == if spend < 0.0 then Err(NegativeCost("spend_usd"))
                 else Ok(Status(Triggered(b.limit, b.thresholds, spend), b.limit - spend, spend > b.limit))
  {
    if spend < 0.0 {
      return Err(NegativeCost("spend_usd"));
    }
    var triggered: seq<Threshold> := [];
    for i := 0 to |b.thresholds|
      invariant triggered == Triggered(b.limit, b.thresholds[..i], spend)
    {
      assert b.thresholds[..i + 1][..i] == b.thresholds[..i];
      if spend >= b.limit * b.thresholds[i].percent {
        triggered := triggered + [b.thresholds[i]];
      }
    }
    assert b.thresholds[..|b.thresholds|] == b.thresholds;
    return Ok(Status(triggered, b.limit - spend, spend > b.limit));
  }

  // ------------------------------------------------------------------ forecasts

  datatype Forecast = Forecast(id: string, period: Period, generatedAt: Time, actual: real, forecast: real, limit: real,
                               overrun: real, observedDays: int, remainingDays: int)

  function NewForecast(f: Forecast): Result<Forecast> {
    if Text.Trim(f.id) == "" then Err(Required("forecast_id"))
    else if !f.period.IsSet() then Err(Required("period"))
    else if f.generatedAt == ZERO_TIME then Err(InvalidTimestamp("generated_at"))
    else if f.actual < 0.0 || f.forecast < 0.0 || f.limit < 0.0 then Err(NegativeCost("forecast"))
    else if f.observedDays < 0 || f.remainingDays < 0 then Err(InvalidThreshold("day_count"))
    else Ok(f.(overrun := if f.forecast - f.limit < 0.0 then 0.0 else f.forecast - f.limit))
  }

  /** Exactly these forecasts are accepted, and given their overrun. */
  lemma ForecastAcceptedIff(f: Forecast)
    ensures NewForecast(f).Ok? <==>
      && Text.Trim(f.id) != "" && f.period.start != 0 && f.period.end != 0 && f.generatedAt != 0
      && 0.0 <= f.actual && 0.0 <= f.forecast && 0.0 <= f.limit && 0 <= f.observedDays && 0 <= f.remainingDays
    ensures NewForecast(f).Ok? ==>
      var g := NewForecast(f).value;
      && g.(overrun := f.overrun) == f
      && g.overrun == if f.limit < f.forecast then f.forecast - f.limit else 0.0
  {
    hide Text.Trim;
  }

  // ------------------------------------------------------------------ states

  datatype BudgetState = BudgetState(budgetId: string, period: Period, current: real, forecast: real,
                                     percents: seq<real>, overrun: bool, forecastOverrun: bool, updatedAt: Time)

  /** The nearest whole number; at a tie the even one. */
  function Nearest(x: real): int {
    var down := x.Floor;
    var rest := x - down as real;
    if rest < 0.5 || (rest == 0.5 && down % 2 == 0) then down else down + 1
  }

  /** The percent printed with six decimals, as a whole number of millionths. */
  function Micro(percent: real): int {
    Nearest(percent * 1_000_000.0)
  }

  /** The nearest whole number of millionths, and an even one where two are equally near. */
  lemma MicroIsNearest(percent: real)
    ensures -0.5 <= percent * 1_000_000.0 - Micro(percent) as real <= 0.5
    ensures percent * 1_000_000.0 - Micro(percent) as real in {-0.5, 0.5} ==> Micro(percent) % 2 == 0
  {
  }

  /** Two different thresholds that print alike because a tie is rounded to an even digit. */
  lemma TiesPrintAlike()
    ensures Micro(0.507812) == Micro(0.5078125) == 507812
  {
    assert 0.507812 * 1_000_000.0 == 507812.0 && 0.5078125 * 1_000_000.0 == 507812.5;
    assert (507812.0).Floor == 507812 && (507812.5).Floor == 507812;
  }

  /** The percents without those that print like an earlier one. */
  function DistinctPercents(percents: seq<real>): seq<real> {
    if percents == [] then []
    else
      var n := |percents| - 1;
      DistinctPercents(percents[..n])
      + if exists p <- percents[..n] :: Micro(p) == Micro(percents[n]) then [] else [percents[n]]
  }

  predicate ValidPercents(percents: seq<real>) {
    forall p <- percents :: 0.0 < p < 1.0
  }

  /** NewBudgetState, on percents that are sorted already. */
  method NewBudgetState(s: BudgetState) returns (r: Result<BudgetState>)
    ensures r.Ok? <==>
      && Text.Trim(s.budgetId) != "" && s.period.IsSet() && s.current >= 0.0 && s.forecast >= 0.0
      && s.updatedAt != ZERO_TIME && ValidPercents(s.percents)
    ensures r.Ok? ==> r.value == s.(percents := DistinctPercents(s.percents))
  {
    if Text.Trim(s.budgetId) == "" {
      return Err(Required("budget_id"));
    }
    if !s.period.IsSet() {
      return Err(Required("period"));
    }
    if s.current < 0.0 || s.forecast < 0.0 {
      return Err(NegativeCost("budget_state"));
    }
    if s.updatedAt == ZERO_TIME {
      return Err(InvalidTimestamp("updated_at"));
    }
    hide Text.Trim, Period.IsSet, ValidPercents, DistinctPercents;
    var thresholds := UniquePercents(s.percents);
    if thresholds.Err? {
      return Err(thresholds.error);
    }
    return Ok(s.(percents := thresholds.value));
  }

  method UniquePercents(percents: seq<real>) returns (r: Result<seq<real>>)
    ensures r.Ok? <==> ValidPercents(percents)
    ensures r.Ok? ==> r.value == DistinctPercents(percents)
  {
    hide Micro;
    var thresholds: seq<real> := [];
    var seen: set<int> := {};
    for i := 0 to |percents|
      invariant ValidPercents(percents[..i])
      invariant seen == set p <- percents[..i] :: Micro(p)
      invariant thresholds == DistinctPercents(percents[..i])
    {
      var percent := percents[i];
      assert percents[..i + 1] == percents[..i] + [percent];
      if percent <= 0.0 || percent >= 1.0 {
        assert percent in percents;
        return Err(InvalidThreshold("triggered_threshold_percents"));
      }
      var key := Micro(percent);
      assert key in seen <==> exists p <- percents[..i] :: Micro(p) == key;
      if key !in seen {
        seen := seen + {key};
        thresholds := thresholds + [percent];
      }
    }
    assert percents[..|percents|] == percents;
    return Ok(thresholds);
  }

  // ------------------------------------------------------------------ alerts

  datatype AlertKind = BudgetThreshold | BudgetOverrun | ForecastOverrun

  datatype Alert = Alert(id: string, kind: AlertKind, severity: Severity, at: Time, period: Period, budgetId: string,
                         forecastId: string, current: real, limit: real, percent: real)

  function NewAlert(a: Alert): Result<Alert> {
    if Text.Trim(a.id) == "" then Err(Required("alert_id"))
    else if a.severity.UnknownSeverity? then Err(InvalidSeverity)
    else if a.at == ZERO_TIME then Err(InvalidTimestamp("triggered_at"))
    else if a.current < 0.0 || a.limit < 0.0 || a.percent < 0.0 then Err(NegativeCost("alert"))
    else if !a.kind.ForecastOverrun? && Text.Trim(a.budgetId) == "" then Err(Required("budget_id"))
    else if a.kind.ForecastOverrun? && Text.Trim(a.forecastId) == "" then Err(Required("forecast_id"))
    else if a.kind.BudgetOverrun? && a.current <= a.limit then Err(InvalidThreshold("current_spend_usd"))
    else Ok(a)
  }

  /** Exactly these alerts are accepted: they say what they are about, and an overrun is one. */
  lemma AlertAcceptedIff(a: Alert)
    ensures NewAlert(a).Ok? <==>
      && Text.Trim(a.id) != "" && a.severity in {Info, Warning, Critical} && a.at != ZERO_TIME
      && 0.0 <= a.current && 0.0 <= a.limit && 0.0 <= a.percent
      && match a.kind
         case BudgetThreshold => Text.Trim(a.budgetId) != ""
         case BudgetOverrun => Text.Trim(a.budgetId) != "" && a.limit < a.current
         case ForecastOverrun => Text.Trim(a.forecastId) != ""
    ensures NewAlert(a).Ok? ==> NewAlert(a).value == a
  {
    hide Text.Trim;
  }
}
