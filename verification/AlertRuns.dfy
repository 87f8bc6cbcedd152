/** Which alerts of a run of the monitor keep their rows in the alert table. */
module AlertRuns {
  import opened AlertIds
  import opened AlertTable
  import opened Budget
  import opened BudgetAlerts
  import opened BudgetMonitor
  import opened Domain
  import opened Timestamps

  // ------------------------------------------------------------------ what is built has a telling id

  /** The id names kind, budget, percent and time. */
  ghost predicate Stamped(a: Alert) {
    FourDigitYear(a.at) && match a.kind
      case BudgetThreshold => IsPercent(a.percent) && a.id == ThresholdId(a.budgetId, a.percent, a.at)
      case BudgetOverrun => a.id == OverrunId(a.budgetId, a.at)
      case ForecastOverrun => exists b :: a.forecastId == ForecastId(b) && a.id == ForecastAlertId(b, a.at)
  }

  /** Of one kind, budget and time, and, for thresholds, printed alike with two decimals. */
  predicate SharesRow(a: Alert, b: Alert) {
    a.kind == b.kind && a.at == b.at && match a.kind
      case BudgetThreshold => a.budgetId == b.budgetId && Hundredths(a.percent) == Hundredths(b.percent)
      case BudgetOverrun => a.budgetId == b.budgetId
      case ForecastOverrun => a.forecastId == b.forecastId
  }

  lemma SharesRowIff(a: Alert, b: Alert)
    requires Stamped(a) && Stamped(b)
    ensures a.id == b.id <==> SharesRow(a, b)
  {
    hide ThresholdId, OverrunId, ForecastAlertId, FourDigitYear, Hundredths, IsPercent, ForecastId;
    match (a.kind, b.kind) {
      case (BudgetThreshold, BudgetThreshold) =>
        ThresholdIdsAlike(a.budgetId, a.percent, a.at, b.budgetId, b.percent, b.at);
      case (BudgetOverrun, BudgetOverrun) =>
        OverrunIdsAlike(a.budgetId, a.at, b.budgetId, b.at);
      case (ForecastOverrun, ForecastOverrun) =>
        var x :| a.forecastId == ForecastId(x) && a.id == ForecastAlertId(x, a.at);
        var y :| b.forecastId == ForecastId(y) && b.id == ForecastAlertId(y, b.at);
        OverrunIdsAlike(x, a.at, y, b.at);
        ForecastIdsTold(x, y);
      case _ =>
        IdsOfKinds(a, b);
    }
  }

  lemma ForecastIdsTold(x: string, y: string)
    ensures ForecastId(x) == ForecastId(y) <==> x == y
  {
    assert ForecastId(x)[..|x|] == x && ForecastId(y)[..|y|] == y;
  }

  lemma IdsOfKinds(a: Alert, b: Alert)
    requires Stamped(a) && Stamped(b) && a.kind != b.kind
    ensures a.id != b.id
  {
    hide ThresholdId, OverrunId, ForecastAlertId, FourDigitYear;
    var x := BudgetOf(a);
    var y := BudgetOf(b);
    KindsApart(x, a.at, y, b.at, if a.kind.BudgetThreshold? then a.percent else 0.5);
    KindsApart(y, b.at, x, a.at, if b.kind.BudgetThreshold? then b.percent else 0.5);
  }

  lemma BudgetOf(a: Alert) returns (b: string)
    requires Stamped(a)
    ensures match a.kind
      case BudgetThreshold => a.id == ThresholdId(b, a.percent, a.at)
      case BudgetOverrun => a.id == OverrunId(b, a.at)
      case ForecastOverrun => a.id == ForecastAlertId(b, a.at)
  {
    hide ThresholdId, OverrunId, ForecastAlertId, ForecastId;
    if a.kind.ForecastOverrun? {
      b :| a.forecastId == ForecastId(b) && a.id == ForecastAlertId(b, a.at);
    } else {
      b := a.budgetId;
    }
  }

  lemma AssessedAreStamped(b: MonthlyBudget, spend: real, asOf: Time, previous: Option<BudgetState>)
    requires b.Valid() && FourDigitYear(asOf)
    ensures forall a <- Assess(b, spend, asOf, previous).alerts :: Stamped(a)
  {
    hide Triggered, ThresholdAlerts, DistinctPercents, ThresholdId, OverrunId, ForecastAlertId, FourDigitYear,
         ForecastId, ProjectMonthlySpend, ObservedDays, TotalDays;
    var a := Assess(b, spend, asOf, previous);
    var ts := Triggered(b.limit, b.thresholds, spend);
    TriggeredAre(b.limit, b.thresholds, spend);
    ThresholdAlertsAre(b, a.forecast, asOf, ts, SeenPercents(previous));
  }

  /** The times of a run's input have years of four digits. */
  ghost predicate FourDigitTimes(input: Input) {
    forall t <- input.asOfs :: FourDigitYear(t)
  }

  lemma {:induction false} AllAreStamped(s: seq<Assessment>)
    requires forall i :: 0 <= i < |s| ==> forall a <- s[i].alerts :: Stamped(a)
    ensures forall a <- AllAlerts(s) :: Stamped(a)
  {
    hide Stamped;
    if s != [] {
      AllAreStamped(s[..|s| - 1]);
    }
  }

  lemma RunIsStamped(store: Store, input: Input)
    requires input.Valid() && FourDigitTimes(input)
    ensures store.alerts <= Next(store, input).alerts
    ensures forall a <- Next(store, input).alerts[|store.alerts|..] :: Stamped(a)
  {
    hide Stamped, Assess, AllAlerts, UpsertForecasts, UpsertStates, FourDigitYear;
    var s := Assessments(input, store.states);
    forall i | 0 <= i < |s|
      ensures forall a <- s[i].alerts :: Stamped(a)
    {
      assert input.ValidAt(i) && input.asOfs[i] in input.asOfs;
      AssessedAreStamped(input.budgets[i], input.spends[i], input.asOfs[i],
                         Previous(store.states, Key(input.budgets[i].id, input.period.start)));
    }
    AllAreStamped(s);
    assert store.alerts[|store.alerts|..] == [];
    assert (store.alerts + AllAlerts(s))[|store.alerts|..] == AllAlerts(s);
  }

  lemma {:induction false} LogIsStamped(trace: seq<Store>, inputs: seq<Input>, n: nat)
    requires Runs(trace, inputs) && n < |trace| && trace[0].alerts == []
    requires forall i :: 0 <= i < |inputs| ==> FourDigitTimes(inputs[i])
    ensures forall a <- trace[n].alerts :: Stamped(a)
    decreases n
  {
    hide Stamped, Next, FourDigitTimes;
    if n > 0 {
      LogIsStamped(trace, inputs, n - 1);
      RunIsStamped(trace[n - 1], inputs[n - 1]);
      var before, log := trace[n - 1].alerts, trace[n].alerts;
      assert log == before + log[|before|..];
    }
  }

  // ------------------------------------------------------------------ the table over runs

  /** The tables beside a sequence of stores: empty at first, and written with what each run adds to the log. */
  ghost predicate Tables(trace: seq<Store>, tables: seq<map<string, Alert>>) {
    && |tables| == |trace| > 0
    && trace[0].alerts == [] && tables[0] == map[]
    && forall i :: 0 <= i < |trace| - 1 ==>
         && trace[i].alerts <= trace[i + 1].alerts
         && Upserted(trace[i + 1].alerts[|trace[i].alerts|..], tables[i], tables[i + 1])
  }

  lemma {:induction false} TableRecords(trace: seq<Store>, tables: seq<map<string, Alert>>, n: nat)
    requires Tables(trace, tables) && n < |trace|
    ensures Records(tables[n], trace[n].alerts)
    decreases n
  {
    hide Records, Upserted;
    if n == 0 {
      NothingRecorded();
    } else {
      TableRecords(trace, tables, n - 1);
      var before, log := trace[n - 1].alerts, trace[n].alerts;
      UpsertRecords(before, log[|before|..], tables[n - 1], tables[n]);
      assert log == before + log[|before|..];
    }
  }

  lemma NothingRecorded()
    ensures Records(map[], [])
  {
  }

  /**
   * Over any sequence of runs and failing writes the table has one of the alerts handed on under each of their ids. All
   * of them have their rows exactly when no two different ones are of one kind, budget and time and, for thresholds,
   * print alike with two decimals.
   */
  lemma AlertsSurviveIff(trace: seq<Store>, inputs: seq<Input>, tables: seq<map<string, Alert>>, n: nat)
    requires Runs(trace, inputs) && Tables(trace, tables) && n < |trace|
    requires forall i :: 0 <= i < |inputs| ==> FourDigitTimes(inputs[i])
    ensures var log, table := trace[n].alerts, tables[n];
      && Records(table, log)
      && ((forall a <- log :: a.id in table && table[a.id] == a) <==>
            forall a, b | a in log && b in log :: SharesRow(a, b) ==> a == b)
  {
    hide Stamped, Records, SharesRow, Runs, Upserted, FourDigitTimes;
    TableRecords(trace, tables, n);
    LogIsStamped(trace, inputs, n);
    var log := trace[n].alerts;
    AllSurviveIff(log, tables[n]);
    forall a, b | a in log && b in log
      ensures a.id == b.id <==> SharesRow(a, b)
    {
      SharesRowIff(a, b);
    }
  }

  /** Thresholds of 80.1 and 80.4 per cent, crossed in one run: two alerts are built, and one of them is stored. */
  lemma LostAlert(b: MonthlyBudget, spend: real, asOf: Time, t: Threshold, u: Threshold, table: map<string, Alert>,
                  table': map<string, Alert>)
    requires b.Valid() && b.period.Contains(asOf) && FourDigitYear(asOf)
    requires t in b.thresholds && u in b.thresholds && t.percent == 0.801 && u.percent == 0.804
    requires spend >= 0.0 && spend >= b.limit * 0.804
    requires Upserted(Assess(b, spend, asOf, None).alerts, table, table')
    ensures exists x, y ::
      && x in Assess(b, spend, asOf, None).alerts && y in Assess(b, spend, asOf, None).alerts
      && x.percent == 0.801 && y.percent == 0.804
      && x.id == y.id && x.id in table' && !(table'[x.id] == x && table'[y.id] == y)
  {
    hide Triggered, ThresholdAlerts, DistinctPercents, ThresholdId, OverrunId, ForecastAlertId, FourDigitYear,
         ForecastId, ProjectMonthlySpend, ObservedDays, TotalDays, Hundredths;
    var a := Assess(b, spend, asOf, None);
    TriggeredAre(b.limit, b.thresholds, spend);
    ThresholdAlertsAre(b, a.forecast, asOf, Triggered(b.limit, b.thresholds, spend), SeenPercents(None));
    var x, y := ThresholdAlert(b, a.forecast, asOf, t), ThresholdAlert(b, a.forecast, asOf, u);
    assert x in a.alerts && y in a.alerts;
    CloseThresholds();
    ThresholdIdsAlike(b.id, 0.801, asOf, b.id, 0.804, asOf);
    assert HasId(a.alerts, x.id);
  }
}
