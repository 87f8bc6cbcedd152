/** The graph snapshot of a month: usage and cost by model, and the tokens of every day. */
module GraphSnapshot {
  import BarBlocks
  import opened Budget
  import Calendar
  import opened Domain
  import opened GraphRollUp
  import Sorting
  import Sums
  import Timestamps

  const INTS := Sums.Adder(0, (a: int, b: int) => a + b)

  lemma IntsAdd()
    ensures Sums.Lawful(INTS)
    ensures forall a, b :: INTS.plus(a, b) == a + b
  {
  }

  // ------------------------------------------------------------------ the tokens of a day

  datatype DayTokens = DayTokens(name: string, tokens: int)

  datatype Trend = Trend(date: Time, breakdown: seq<DayTokens>)

  function Breakdown(models: seq<Model>, date: Time): seq<DayTokens> {
    if models == [] then []
    else
      var last := models[|models| - 1];
      Breakdown(models[..|models| - 1], date)
      + if At(last.load.daily, date) == 0 then [] else [DayTokens(last.name, At(last.load.daily, date))]
  }

  /** One trend a day, from the first day of the period to its last. */
  ghost predicate Trends(trends: seq<Trend>, p: Period, models: seq<Model>) {
    && (forall k :: 0 <= k < |trends| ==>
          trends[k] == Trend(p.start + k * DAY, Breakdown(models, p.start + k * DAY)) && trends[k].date < p.end)
    && p.end <= p.start + |trends| * DAY
  }

  method BuildDailyTrends(p: Period, models: seq<Model>) returns (trends: seq<Trend>)
    ensures if p.IsSet() then Trends(trends, p, models) else trends == []
  {
    trends := [];
    if !p.IsSet() {
      return;
    }
    var date := p.start;
    while date < p.end
      invariant date == p.start + |trends| * DAY
      invariant forall k :: 0 <= k < |trends| ==>
        trends[k] == Trend(p.start + k * DAY, Breakdown(models, p.start + k * DAY)) && trends[k].date < p.end
      decreases p.end - date
    {
      var breakdown: seq<DayTokens> := [];
      for i := 0 to |models|
        invariant breakdown == Breakdown(models[..i], date)
      {
        assert models[..i + 1][..i] == models[..i];
        var total := At(models[i].load.daily, date);
        if total == 0 {
          continue;
        }
        breakdown := breakdown + [DayTokens(models[i].name, total)];
      }
      assert models[..|models|] == models;
      trends := trends + [Trend(date, breakdown)];
      date := date + DAY;
    }
  }

  function TokensOfDay(d: DayTokens): int {
    d.tokens
  }

  function DayTotal<T>(f: T -> Load, day: Time): T -> int {
    (x: T) => At(f(x).daily, day)
  }

  /** The tokens of a day add up like the loads they are part of. */
  lemma {:induction false} DayOfSum<T>(s: seq<T>, f: T -> Load, day: Time)
    ensures At(Sums.Sum(LOADS, s, f).daily, day) == Sums.Sum(INTS, s, DayTotal(f, day))
  {
    if s != [] {
      DayOfSum(s[..|s| - 1], f, day);
    }
  }

  lemma {:induction false} ZerosDropped(models: seq<Model>, date: Time)
    ensures Sums.Sum(INTS, Breakdown(models, date), TokensOfDay) == Sums.Sum(INTS, models, DayTotal(ModelLoad, date))
  {
    if models != [] {
      var n := |models| - 1;
      var last := models[n];
      ZerosDropped(models[..n], date);
      assert DayTotal(ModelLoad, date)(last) == At(ModelLoad(last).daily, date);
      if At(last.load.daily, date) == 0 {
        assert Breakdown(models[..n], date) + [] == Breakdown(models[..n], date);
      } else {
        Sums.SumOne(INTS, Breakdown(models[..n], date), DayTokens(last.name, At(last.load.daily, date)), TokensOfDay);
      }
    }
  }

  lemma {:induction false} EntriesOfDay(entries: seq<UsageEntry>, date: Time)
    ensures Sums.Sum(INTS, entries, DayTotal(LoadOf, date)) == Sums.GroupSum(INTS, entries, TotalOf, DayOf, date)
  {
    if entries != [] {
      var n := |entries| - 1;
      var before, e := entries[..n], entries[n];
      EntriesOfDay(before, date);
      hide DayOf, TotalOf;
      if DayOf(e) == date {
        Sums.SumOne(INTS, Sums.Group(before, DayOf, date), e, TotalOf);
      } else {
        assert Sums.Group(before, DayOf, date) + [] == Sums.Group(before, DayOf, date);
      }
      DayOfOne(e, date);
    }
  }

  lemma DayOfOne(e: UsageEntry, date: Time)
    ensures DayTotal(LoadOf, date)(e) == if DayOf(e) == date then TotalOf(e) else 0
  {
    assert DayTotal(LoadOf, date)(e) == At(LoadOf(e).daily, date);
  }

  /** The models of a day, folded ones included, hold exactly the tokens of that day's entries. */
  lemma DayAddsUp(models: seq<Model>, entries: seq<UsageEntry>, date: Time)
    requires Ranking(MoreTokens, models, entries)
    ensures Sums.Sum(INTS, Breakdown(Limit(models), date), TokensOfDay)
         == Sums.GroupSum(INTS, entries, TotalOf, DayOf, date)
  {
    hide *;
    RollUpConserves(MoreTokens, models, entries);
    ZerosDropped(Limit(models), date);
    DayOfSum(Limit(models), ModelLoad, date);
    DayOfSum(entries, LoadOf, date);
    EntriesOfDay(entries, date);
  }

  function TrendTokens(t: Trend): int {
    Sums.Sum(INTS, t.breakdown, TokensOfDay)
  }

  /** The entries that lie outside the period. */
  function Elsewhere(p: Period, entries: seq<UsageEntry>): seq<UsageEntry> {
    if entries == [] then []
    else
      var last := entries[|entries| - 1];
      Elsewhere(p, entries[..|entries| - 1]) + if p.start <= last.occurredAt < p.end then [] else [last]
  }

  /**
    * For any entries, over the whole month the days hold all tokens but those of entries outside the month: they add up
    * exactly when these carry none.
    */
  lemma DaysAddUpIff(trends: seq<Trend>, p: Period, models: seq<Model>, entries: seq<UsageEntry>)
    requires p.Valid() && Ranking(MoreTokens, models, entries) && Trends(trends, p, Limit(models))
    ensures Sums.Sum(INTS, trends, TrendTokens) + Sums.Sum(INTS, Elsewhere(p, entries), TotalOf)
         == Sums.Sum(INTS, entries, TotalOf)
    ensures Sums.Sum(INTS, trends, TrendTokens) == Sums.Sum(INTS, entries, TotalOf)
       <==> Sums.Sum(INTS, Elsewhere(p, entries), TotalOf) == 0
  {
    hide *;
    var n := |trends|;
    AllDays(trends, p, Limit(models));
    DaysAre(p.start, n);
    IntsAdd();
    Sums.GroupsAndOutside(INTS, entries, TotalOf, DayOf, Days(p.start, n));
    TrendsAreGroups(trends, p.start, models, entries);
    ElsewhereIs(p, entries, n);
  }

  lemma AllDays(trends: seq<Trend>, p: Period, models: seq<Model>)
    requires p.Valid() && Trends(trends, p, models)
    ensures p.end == p.start + |trends| * DAY && p.start % DAY == 0
    ensures forall k :: 0 <= k < |trends| ==>
      trends[k] == Trend(p.start + k * DAY, Breakdown(models, p.start + k * DAY))
  {
    hide Breakdown;
    var days :| 28 <= days <= 31 && p.end == p.start + days * DAY;
    if trends != [] {
      assert trends[|trends| - 1].date < p.end;
    }
  }

  lemma {:induction false} ElsewhereIs(p: Period, entries: seq<UsageEntry>, n: nat)
    requires p.start % DAY == 0 && p.end == p.start + n * DAY
    ensures Elsewhere(p, entries) == Sums.Outside(entries, DayOf, Days(p.start, n))
  {
    if entries != [] {
      ElsewhereIs(p, entries[..|entries| - 1], n);
      DayAmong(p.start, n, entries[|entries| - 1].occurredAt);
      hide Days;
    }
  }

  /**
    * Of the entries that the usage query lists for a month, those elsewhere lie within the first second of the next
    * month: the days add up exactly when these carry no tokens.
    */
  lemma DaysOfListedEntries(trends: seq<Trend>, month: int, models: seq<Model>, entries: seq<UsageEntry>)
    requires 0 < month < Timestamps.LAST_MONTH
    requires var p := Calendar.MonthPeriod(month);
      && (forall e <- entries :: Timestamps.FourDigitYear(e.occurredAt) && Timestamps.UsageFilter(e.occurredAt, p))
      && Ranking(MoreTokens, models, entries) && Trends(trends, p, Limit(models))
    ensures var p := Calendar.MonthPeriod(month);
      && (forall e <- Elsewhere(p, entries) :: e in entries && Timestamps.JustAfter(e.occurredAt, p.end))
      && (Sums.Sum(INTS, trends, TrendTokens) == Sums.Sum(INTS, entries, TotalOf) <==>
            Sums.Sum(INTS, Elsewhere(p, entries), TotalOf) == 0)
  {
    hide *;
    Calendar.MonthPeriodIs(month);
    var p := Calendar.MonthPeriod(month);
    DaysAddUpIff(trends, p, models, entries);
    ElsewhereMembers(p, entries);
    forall e <- Elsewhere(p, entries)
      ensures Timestamps.JustAfter(e.occurredAt, p.end)
    {
      Timestamps.ListedIs(e.occurredAt, month);
      ElsewhereIsLater(p, e.occurredAt);
    }
  }

  lemma ElsewhereIsLater(p: Period, t: Time)
    requires !(p.start <= t < p.end) && (t == p.start || p.start + SECOND <= t) && t < p.end + SECOND && t != p.end
    ensures Timestamps.JustAfter(t, p.end)
  {
  }

  lemma {:induction false} ElsewhereMembers(p: Period, entries: seq<UsageEntry>)
    ensures forall e <- Elsewhere(p, entries) :: e in entries && !(p.start <= e.occurredAt < p.end)
  {
    if entries != [] {
      ElsewhereMembers(p, entries[..|entries| - 1]);
    }
  }

  lemma {:induction false} TrendsAreGroups(trends: seq<Trend>, start: Time, models: seq<Model>,
                                           entries: seq<UsageEntry>)
    requires Ranking(MoreTokens, models, entries)
    requires forall k :: 0 <= k < |trends| ==>
      trends[k] == Trend(start + k * DAY, Breakdown(Limit(models), start + k * DAY))
    ensures Sums.Sum(INTS, trends, TrendTokens) == Sums.GroupSums(INTS, entries, TotalOf, DayOf, Days(start, |trends|))
  {
    hide Ranking, Breakdown, Limit, Sums.GroupSum;
    if trends != [] {
      var n := |trends| - 1;
      TrendsAreGroups(trends[..n], start, models, entries);
      DayAddsUp(models, entries, start + n * DAY);
      Sums.GroupSumsStep(INTS, entries, TotalOf, DayOf, Days(start, n), start + n * DAY);
    }
  }

  // ------------------------------------------------------------------ the snapshot

  datatype ModelTokens = ModelTokens(name: string, tokens: Tokens)

  datatype ModelCost = ModelCost(name: string, cost: real)

  datatype Snapshot = Snapshot(usages: seq<ModelTokens>, costs: seq<ModelCost>, trends: seq<Trend>,
                               breakdowns: seq<ModelTokens>)

  function ByTokens(models: seq<Model>): seq<ModelTokens> {
    seq(|models|, i requires 0 <= i < |models| => ModelTokens(models[i].name, models[i].load.tokens))
  }

  function ByCost(models: seq<Model>): seq<ModelCost> {
    seq(|models|, i requires 0 <= i < |models| => ModelCost(models[i].name, models[i].load.cost))
  }

  /** The snapshot of some entries; the rankings are the only freedom, and they leave none. */
  ghost predicate IsSnapshot(s: Snapshot, p: Period, entries: seq<UsageEntry>, byTokens: seq<Model>,
                             byCost: seq<Model>)
  {
    && Ranking(MoreTokens, byTokens, entries) && Ranking(MoreCost, byCost, entries)
    && s.usages == s.breakdowns == ByTokens(Limit(byTokens))
    && s.costs == ByCost(Limit(byCost))
    && if p.IsSet() then Trends(s.trends, p, Limit(byTokens)) else s.trends == []
  }

  method BuildGraphSnapshot(p: Period, entries: seq<UsageEntry>)
    returns (s: Snapshot, ghost byTokens: seq<Model>, ghost byCost: seq<Model>)
    ensures entries == [] ==> s == Snapshot([], [], [], [])
    ensures entries != [] ==> IsSnapshot(s, p, entries, byTokens, byCost)
  {
    hide Ranking, RanksModels, Limit, Trends, Accumulates;
    byTokens, byCost := [], [];
    if entries == [] {
      return Snapshot([], [], [], []), byTokens, byCost;
    }
    TokensRank();
    CostsRank();
    var accumulators := BuildAccumulators(entries);
    var tokenModels := SortedModels(accumulators, MoreTokens, entries);
    var costModels := SortedModels(accumulators, MoreCost, entries);
    byTokens, byCost := tokenModels, costModels;
    tokenModels := LimitModels(tokenModels);
    costModels := LimitModels(costModels);
    var trends := BuildDailyTrends(p, tokenModels);
    s := Snapshot(ByTokens(tokenModels), ByCost(costModels), trends, ByTokens(tokenModels));
  }

  function TokensBy(m: ModelTokens): Tokens {
    m.tokens
  }

  function CostBy(m: ModelCost): real {
    m.cost
  }

  function EntryTokens(e: UsageEntry): Tokens {
    e.tokens
  }

  function EntryCost(e: UsageEntry): real {
    e.costs.total
  }

  /** The graphs show every kind of token and every dollar of the entries. */
  lemma SnapshotConserves(s: Snapshot, p: Period, entries: seq<UsageEntry>, byTokens: seq<Model>, byCost: seq<Model>)
    requires IsSnapshot(s, p, entries, byTokens, byCost)
    ensures Sums.Sum(TOKENS, s.usages, TokensBy) == Sums.Sum(TOKENS, entries, EntryTokens)
    ensures Sums.Sum(REALS, s.costs, CostBy) == Sums.Sum(REALS, entries, EntryCost)
  {
    hide Ranking, Limit, Trends, Sums.Sum, ByTokens, ByCost;
    RollUpConserves(MoreTokens, byTokens, entries);
    RollUpConserves(MoreCost, byCost, entries);
    TokensProjected(Limit(byTokens));
    CostsProjected(Limit(byCost));
    EntriesProjected(entries);
  }

  lemma {:induction false} TokensProjected(models: seq<Model>)
    ensures Sums.Sum(TOKENS, ByTokens(models), TokensBy) == Sums.Sum(LOADS, models, ModelLoad).tokens
  {
    hide AddTokens, AddDays;
    if models != [] {
      var n := |models| - 1;
      TokensProjected(models[..n]);
      assert ByTokens(models) == ByTokens(models[..n]) + [ModelTokens(models[n].name, models[n].load.tokens)];
    } else {
      assert ByTokens(models) == [];
    }
  }

  lemma {:induction false} CostsProjected(models: seq<Model>)
    ensures Sums.Sum(REALS, ByCost(models), CostBy) == Sums.Sum(LOADS, models, ModelLoad).cost
  {
    hide AddTokens, AddDays;
    if models != [] {
      var n := |models| - 1;
      CostsProjected(models[..n]);
      assert ByCost(models) == ByCost(models[..n]) + [ModelCost(models[n].name, models[n].load.cost)];
    } else {
      assert ByCost(models) == [];
    }
  }

  lemma {:induction false} EntriesProjected(entries: seq<UsageEntry>)
    ensures Sums.Sum(LOADS, entries, LoadOf).tokens == Sums.Sum(TOKENS, entries, EntryTokens)
    ensures Sums.Sum(LOADS, entries, LoadOf).cost == Sums.Sum(REALS, entries, EntryCost)
  {
    hide AddTokens, AddDays;
    if entries != [] {
      EntriesProjected(entries[..|entries| - 1]);
    }
  }

  /** The snapshot does not depend on the order of the entries, nor on map iteration. */
  lemma SnapshotIgnoresOrder(s: Snapshot, s': Snapshot, p: Period, entries: seq<UsageEntry>, entries': seq<UsageEntry>,
                             byTokens: seq<Model>, byTokens': seq<Model>, byCost: seq<Model>, byCost': seq<Model>)
    requires multiset(entries) == multiset(entries')
    requires IsSnapshot(s, p, entries, byTokens, byCost) && IsSnapshot(s', p, entries', byTokens', byCost')
    ensures s == s'
  {
    hide Ranking, RanksModels, Limit, Breakdown, ByTokens, ByCost;
    TokensRank();
    CostsRank();
    RankingIgnoresOrder(MoreTokens, byTokens, byTokens', entries, entries');
    RankingIgnoresOrder(MoreCost, byCost, byCost', entries, entries');
    if p.IsSet() {
      SameTrends(s.trends, s'.trends, p, Limit(byTokens));
    }
  }

  lemma SameTrends(a: seq<Trend>, b: seq<Trend>, p: Period, models: seq<Model>)
    requires Trends(a, p, models) && Trends(b, p, models)
    ensures a == b
  {
    hide Breakdown;
    NoLonger(a, b, p, models);
    NoLonger(b, a, p, models);
  }

  lemma NoLonger(a: seq<Trend>, b: seq<Trend>, p: Period, models: seq<Model>)
    requires Trends(a, p, models) && Trends(b, p, models)
    ensures |a| <= |b|
  {
    if a != [] {
      assert a[|a| - 1].date < p.end;
    }
  }

  /** At most ten models and the rest; a model that is not shown has no more tokens, or cost, than any that is. */
  lemma SnapshotShowsLargest(s: Snapshot, p: Period, entries: seq<UsageEntry>, byTokens: seq<Model>, byCost: seq<Model>,
                             i: nat, e: UsageEntry)
    requires IsSnapshot(s, p, entries, byTokens, byCost) && e in entries && i < 10
    ensures |s.usages| <= 11 && |s.costs| <= 11
    ensures var m := Accumulated(entries, NameOf(e));
      i < |s.usages| ==>
        ModelTokens(m.name, m.load.tokens) in s.usages || m.load.tokens.total <= s.usages[i].tokens.total
    ensures var m := Accumulated(entries, NameOf(e));
      i < |s.costs| ==> ModelCost(m.name, m.load.cost) in s.costs || m.load.cost <= s.costs[i].cost
  {
    hide Ranking, Accumulated, Trends;
    var m := Accumulated(entries, NameOf(e));
    if i < |s.usages| {
      LargestAreKept(MoreTokens, byTokens, entries, i, e);
      if m in Limit(byTokens) {
        var k :| 0 <= k < |Limit(byTokens)| && Limit(byTokens)[k] == m;
        assert s.usages[k] == ModelTokens(m.name, m.load.tokens);
      }
    }
    if i < |s.costs| {
      LargestAreKept(MoreCost, byCost, entries, i, e);
      if m in Limit(byCost) {
        var k :| 0 <= k < |Limit(byCost)| && Limit(byCost)[k] == m;
        assert s.costs[k] == ModelCost(m.name, m.load.cost);
      }
    }
  }

  // ------------------------------------------------------------------ the bars

  /** Every breakdown with tokens can be drawn: its four parts add up to its total. */
  lemma BarsCanBeDrawn(s: Snapshot, p: Period, entries: seq<UsageEntry>, byTokens: seq<Model>, byCost: seq<Model>,
                       m: ModelTokens)
    requires IsSnapshot(s, p, entries, byTokens, byCost) && m in s.breakdowns && m.tokens.total != 0
    requires forall e <- entries :: e.tokens.Valid()
    ensures var t := m.tokens;
      BarBlocks.Breakdown([t.input, t.output, t.cacheRead, t.cacheWrite], t.total).Valid()
  {
    hide Trends, Ranking, Tokens.Valid, Limit;
    var k :| 0 <= k < |Limit(byTokens)| && m == ByTokens(Limit(byTokens))[k];
    assert Limit(byTokens)[k] in Limit(byTokens);
    LimitedAreValid(byTokens, entries, Limit(byTokens)[k]);
    ValidIsDrawable(m.tokens);
  }

  lemma ValidIsDrawable(t: Tokens)
    requires t.Valid() && t.total != 0
    ensures BarBlocks.Breakdown([t.input, t.output, t.cacheRead, t.cacheWrite], t.total).Valid()
  {
  }

  lemma LimitedAreValid(models: seq<Model>, entries: seq<UsageEntry>, m: Model)
    requires Ranking(MoreTokens, models, entries) && m in Limit(models)
    requires forall e <- entries :: e.tokens.Valid()
    ensures m.load.tokens.Valid()
  {
    hide *;
    forall x <- models
      ensures x.load.tokens.Valid()
    {
      RankedIs(models, entries, x);
      GroupIsValid(entries, x.name);
    }
    ValidKeptOrFolded(models, m);
  }

  lemma RankedIs(models: seq<Model>, entries: seq<UsageEntry>, m: Model)
    requires Ranking(MoreTokens, models, entries) && m in models
    ensures m == Accumulated(entries, m.name)
  {
    hide Sums.Lists, Sorting.Sorted, Accumulated;
  }

  lemma ValidKeptOrFolded(models: seq<Model>, m: Model)
    requires m in Limit(models)
    requires forall x <- models :: x.load.tokens.Valid()
    ensures m.load.tokens.Valid()
  {
    hide Tokens.Valid, Sums.Sum;
    if m !in models {
      var rest := models[TOP_MODELS..];
      assert m == Model(OTHER_MODEL, Sums.Sum(LOADS, rest, ModelLoad));
      SumIsValid(rest, ModelLoad);
    }
  }

  lemma GroupIsValid(entries: seq<UsageEntry>, name: string)
    requires forall e <- entries :: e.tokens.Valid()
    ensures Accumulated(entries, name).load.tokens.Valid()
  {
    hide Tokens.Valid, Sums.Sum, Sums.Group;
    forall e <- Sums.Group(entries, NameOf, name)
      ensures LoadOf(e).tokens.Valid()
    {
      assert e in multiset(Sums.Group(entries, NameOf, name));
      Sums.GroupCounts(entries, NameOf, name, e);
      assert e in multiset(entries);
    }
    SumIsValid(Sums.Group(entries, NameOf, name), LoadOf);
  }

  lemma {:induction false} SumIsValid<T>(s: seq<T>, f: T -> Load)
    requires forall x <- s :: f(x).tokens.Valid()
    ensures Sums.Sum(LOADS, s, f).tokens.Valid()
  {
    if s != [] {
      SumIsValid(s[..|s| - 1], f);
    }
  }
}
