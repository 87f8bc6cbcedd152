/** The graphs: usage by model, the ten largest models kept and the rest folded into one, day by day. */
module GraphRollUp {
  import opened Domain
  import Sorting
  import Sums
  import Text

  const TOP_MODELS := 10
  const OTHER_MODEL := "Other"
  const UNKNOWN_MODEL := "unknown-model"

  // ------------------------------------------------------------------ what is added up

  /** What an accumulator holds for its model: tokens of every kind, cost, tokens by day. */
  datatype Load = Load(tokens: Tokens, cost: real, daily: map<Time, int>)

  function At(daily: map<Time, int>, day: Time): int {
    if day in daily then daily[day] else 0
  }

  function AddDays(a: map<Time, int>, b: map<Time, int>): map<Time, int> {
    map d | d in a.Keys + b.Keys :: At(a, d) + At(b, d)
  }

  function AddLoads(a: Load, b: Load): Load {
    Load(AddTokens(a.tokens, b.tokens), a.cost + b.cost, AddDays(a.daily, b.daily))
  }

  const NO_LOAD := Load(NO_TOKENS, 0.0, map[])

  const LOADS := Sums.Adder(NO_LOAD, AddLoads)

  lemma LoadsAdd()
    ensures Sums.Lawful(LOADS)
  {
    hide AddTokens, AddDays;
    forall a: Load
      ensures AddLoads(NO_LOAD, a) == a
    {
      assert AddTokens(NO_TOKENS, a.tokens) == a.tokens by { TokensAdd(); }
      assert AddDays(map[], a.daily) == a.daily by { DaysAdd(map[], a.daily, map[]); }
    }
    forall a: Load, b: Load
      ensures AddLoads(a, b) == AddLoads(b, a)
    {
      assert AddTokens(a.tokens, b.tokens) == AddTokens(b.tokens, a.tokens) by { TokensAdd(); }
      DaysAdd(a.daily, b.daily, map[]);
    }
    forall a: Load, b: Load, c: Load
      ensures AddLoads(AddLoads(a, b), c) == AddLoads(a, AddLoads(b, c))
    {
      assert AddTokens(AddTokens(a.tokens, b.tokens), c.tokens)
          == AddTokens(a.tokens, AddTokens(b.tokens, c.tokens)) by {
        TokensAdd();
      }
      DaysAdd(a.daily, b.daily, c.daily);
    }
  }

  lemma DaysAdd(a: map<Time, int>, b: map<Time, int>, c: map<Time, int>)
    ensures AddDays(map[], a) == a && AddDays(map[], b) == b
    ensures AddDays(a, b) == AddDays(b, a)
    ensures AddDays(AddDays(a, b), c) == AddDays(a, AddDays(b, c))
  {
    hide AddDays;
    NoDays(a);
    NoDays(b);
    DaysCommute(a, b);
    DaysAssociate(a, b, c);
  }

  lemma NoDays(a: map<Time, int>)
    ensures AddDays(map[], a) == a
  {
  }

  lemma DaysCommute(a: map<Time, int>, b: map<Time, int>)
    ensures AddDays(a, b) == AddDays(b, a)
  {
  }

  lemma DaysAssociate(a: map<Time, int>, b: map<Time, int>, c: map<Time, int>)
    ensures AddDays(AddDays(a, b), c) == AddDays(a, AddDays(b, c))
  {
    assert AddDays(a, b).Keys == a.Keys + b.Keys && AddDays(b, c).Keys == b.Keys + c.Keys;
  }

  function NameOf(e: UsageEntry): string {
    match e.pricing
    case None => UNKNOWN_MODEL
    case Some(ref) => if Text.Trim(ref.modelId) == "" then UNKNOWN_MODEL else Text.Trim(ref.modelId)
  }

  /** Two entries priced by a model are of one model exactly when the trimmed model ids agree. */
  lemma SharesModelIff(a: UsageEntry, b: UsageEntry)
    requires a.pricing.Some? && Text.Trim(a.pricing.value.modelId) != ""
    requires b.pricing.Some? && Text.Trim(b.pricing.value.modelId) != ""
    ensures NameOf(a) == NameOf(b) <==> Text.Trim(a.pricing.value.modelId) == Text.Trim(b.pricing.value.modelId)
  {
  }

  /** All others are of the unknown model, and so is what names it. */
  lemma UnknownModelIff(e: UsageEntry)
    ensures NameOf(e) == "unknown-model" <==>
      e.pricing.None? || Text.Trim(e.pricing.value.modelId) in {"", "unknown-model"}
  {
  }

  function DayOf(e: UsageEntry): Time {
    Day(e.occurredAt)
  }

  function TotalOf(e: UsageEntry): int {
    e.tokens.total
  }

  function LoadOf(e: UsageEntry): Load {
    Load(e.tokens, e.costs.total, map[DayOf(e) := e.tokens.total])
  }

  datatype Model = Model(name: string, load: Load)

  function ModelLoad(m: Model): Load {
    m.load
  }

  function ModelName(m: Model): string {
    m.name
  }

  /** The accumulator of a model: its entries, added up. */
  function Accumulated(entries: seq<UsageEntry>, name: string): Model {
    Model(name, Sums.GroupSum(LOADS, entries, LoadOf, NameOf, name))
  }

  function Names(entries: seq<UsageEntry>): set<string> {
    set e <- entries :: NameOf(e)
  }

  ghost predicate Accumulates(accumulators: map<string, Model>, entries: seq<UsageEntry>) {
    && accumulators.Keys == Names(entries)
    && forall name <- accumulators.Keys :: accumulators[name] == Accumulated(entries, name)
  }

  method BuildAccumulators(entries: seq<UsageEntry>) returns (accumulators: map<string, Model>)
    ensures Accumulates(accumulators, entries)
  {
    hide *;
    accumulators := map[];
    NothingAccumulated();
    assert entries[..0] == [];
    for i := 0 to |entries|
      invariant Accumulates(accumulators, entries[..i])
    {
      var entry := entries[i];
      var name := NameOf(entry);
      var current := if name in accumulators then accumulators[name] else Model(name, NO_LOAD);
      AccumulateOne(accumulators, entries[..i], entry, current);
      assert entries[..i + 1] == entries[..i] + [entry];
      var updated := AddEntry(current, entry);
      accumulators := accumulators[name := updated];
    }
    assert entries[..|entries|] == entries;
  }

  lemma NothingAccumulated()
    ensures Accumulates(map[], [])
  {
  }

  method AddEntry(current: Model, entry: UsageEntry) returns (updated: Model)
    ensures updated == Model(current.name, AddLoads(current.load, LoadOf(entry)))
  {
    hide AddDays, At, Day;
    var load, day := current.load, DayOf(entry);
    DayAdded(load.daily, day, entry.tokens.total);
    var tokens := Tokens(
      load.tokens.input + entry.tokens.input,
      load.tokens.output + entry.tokens.output,
      load.tokens.cacheRead + entry.tokens.cacheRead,
      load.tokens.cacheWrite + entry.tokens.cacheWrite,
      load.tokens.total + entry.tokens.total);
    var daily := load.daily[day := At(load.daily, day) + entry.tokens.total];
    updated := Model(current.name, Load(tokens, load.cost + entry.costs.total, daily));
  }

  lemma DayAdded(daily: map<Time, int>, day: Time, tokens: int)
    ensures daily[day := At(daily, day) + tokens] == AddDays(daily, map[day := tokens])
  {
  }

  lemma AccumulateOne(accumulators: map<string, Model>, entries: seq<UsageEntry>, entry: UsageEntry, current: Model)
    requires Accumulates(accumulators, entries)
    requires current
          == if NameOf(entry) in accumulators then accumulators[NameOf(entry)] else Model(NameOf(entry), NO_LOAD)
    ensures current.name == NameOf(entry)
    ensures Accumulates(accumulators[NameOf(entry) := Model(NameOf(entry), AddLoads(current.load, LoadOf(entry)))],
                        entries + [entry])
  {
    hide NameOf, LoadOf, AddLoads, Sums.Group;
    var all := entries + [entry];
    assert Names(all) == Names(entries) + {NameOf(entry)} by {
      assert forall e :: e in all <==> e in entries || e == entry;
    }
    AccumulatedOne(entries, entry);
    if NameOf(entry) !in accumulators {
      NotAccumulated(entries, NameOf(entry));
    }
  }

  lemma AccumulatedOne(entries: seq<UsageEntry>, entry: UsageEntry)
    ensures Accumulated(entries + [entry], NameOf(entry))
         == Model(NameOf(entry), AddLoads(Accumulated(entries, NameOf(entry)).load, LoadOf(entry)))
    ensures forall name :: name != NameOf(entry) ==> Accumulated(entries + [entry], name) == Accumulated(entries, name)
  {
    hide NameOf, LoadOf, AddLoads;
    forall name: string
      ensures Accumulated(entries + [entry], name)
           == if name == NameOf(entry) then Model(name, AddLoads(Accumulated(entries, name).load, LoadOf(entry)))
              else Accumulated(entries, name)
    {
      Sums.GroupOne(entries, entry, NameOf, name);
      if name == NameOf(entry) {
        Sums.SumOne(LOADS, Sums.Group(entries, NameOf, name), entry, LoadOf);
      } else {
        assert Sums.Group(entries, NameOf, name) + [] == Sums.Group(entries, NameOf, name);
      }
    }
  }

  lemma {:induction false} NotAccumulated(entries: seq<UsageEntry>, name: string)
    requires name !in Names(entries)
    ensures Accumulated(entries, name).load == NO_LOAD
  {
    if entries != [] {
      var n := |entries| - 1;
      hide Accumulated, NameOf;
      assert entries[n] in entries && forall e <- entries[..n] :: e in entries;
      NotAccumulated(entries[..n], name);
      assert entries == entries[..n] + [entries[n]];
      AccumulatedOne(entries[..n], entries[n]);
    }
  }

  // ------------------------------------------------------------------ ranking

  /** Most tokens first, then by name. */
  predicate MoreTokens(a: Model, b: Model) {
    if a.load.tokens.total != b.load.tokens.total then a.load.tokens.total > b.load.tokens.total
    else Text.Less(a.name, b.name)
  }

  /** Highest cost first, then by name. */
  predicate MoreCost(a: Model, b: Model) {
    if a.load.cost != b.load.cost then a.load.cost > b.load.cost else Text.Less(a.name, b.name)
  }

  /** An order that settles ties by name. */
  ghost predicate RanksModels(less: (Model, Model) -> bool) {
    && Sorting.StrictOrder(less)
    && forall a: Model, b: Model :: a.name != b.name ==> less(a, b) || less(b, a)
  }

  lemma TokensRank()
    ensures RanksModels(MoreTokens)
  {
    hide Text.Less;
    forall a: Model, b: Model
      ensures !MoreTokens(a, a) && (a.name != b.name ==> MoreTokens(a, b) || MoreTokens(b, a))
    {
      Text.LessTotal(a.name, a.name);
      Text.LessTotal(a.name, b.name);
    }
    forall a: Model, b: Model, c: Model | MoreTokens(a, b) && MoreTokens(b, c)
      ensures MoreTokens(a, c)
    {
      if a.load.tokens.total == b.load.tokens.total == c.load.tokens.total {
        Text.LessTransitive(a.name, b.name, c.name);
      }
    }
  }

  lemma CostsRank()
    ensures RanksModels(MoreCost)
  {
    hide Text.Less;
    forall a: Model, b: Model
      ensures !MoreCost(a, a) && (a.name != b.name ==> MoreCost(a, b) || MoreCost(b, a))
    {
      Text.LessTotal(a.name, a.name);
      Text.LessTotal(a.name, b.name);
    }
    forall a: Model, b: Model, c: Model | MoreCost(a, b) && MoreCost(b, c)
      ensures MoreCost(a, c)
    {
      if a.load.cost == b.load.cost == c.load.cost {
        Text.LessTransitive(a.name, b.name, c.name);
      }
    }
  }

  function NamesOf(models: seq<Model>): seq<string> {
    seq(|models|, i requires 0 <= i < |models| => models[i].name)
  }

  /** Every model of the entries once, with all its entries, in order. */
  ghost predicate Ranking(less: (Model, Model) -> bool, models: seq<Model>, entries: seq<UsageEntry>) {
    && Sorting.Sorted(less, models)
    && Sums.Lists(NamesOf(models), Names(entries))
    && forall m <- models :: m == Accumulated(entries, m.name)
  }

  method SortedModels(accumulators: map<string, Model>, less: (Model, Model) -> bool, ghost entries: seq<UsageEntry>)
    returns (models: seq<Model>)
    requires Accumulates(accumulators, entries) && RanksModels(less)
    ensures Ranking(less, models, entries)
  {
    hide Sums.GroupSum, RanksModels, Sorting.Sort, Sorting.Sorted;
    models := [];
    var remaining := accumulators.Keys;
    assert NamesOf([]) == [];
    while remaining != {}
      invariant remaining <= accumulators.Keys
      invariant Sums.Lists(NamesOf(models), accumulators.Keys - remaining)
      invariant forall m <- models :: m == Accumulated(entries, m.name)
      decreases remaining
    {
      var name :| name in remaining;
      Sums.ListedOneMore(NamesOf(models), accumulators.Keys, remaining, name);
      assert NamesOf(models + [accumulators[name]]) == NamesOf(models) + [name];
      models := models + [accumulators[name]];
      remaining := remaining - {name};
    }
    assert accumulators.Keys - {} == accumulators.Keys;
    SortingRanks(less, models, entries);
    models := Sorting.Sort(less, models);
  }

  lemma SortingRanks(less: (Model, Model) -> bool, models: seq<Model>, entries: seq<UsageEntry>)
    requires RanksModels(less) && Sums.Lists(NamesOf(models), Names(entries))
    requires forall m <- models :: m == Accumulated(entries, m.name)
    ensures Ranking(less, Sorting.Sort(less, models), entries)
  {
    hide Accumulated, Names, Sorting.Sort, Sorting.Sorted, Sorting.StrictOrder;
    NamesTellApart(less, models);
    Sorting.SortSorts(less, models);
    var sorted := Sorting.Sort(less, models);
    Sorting.SameElements(sorted, models);
    SameNames(models, sorted, Names(entries));
  }

  lemma NamesTellApart(less: (Model, Model) -> bool, models: seq<Model>)
    requires RanksModels(less) && Sums.Distinct(NamesOf(models))
    ensures Sorting.Comparable(less, models)
  {
    hide Sorting.StrictOrder;
    forall x, y | x in models && y in models
      ensures x == y || less(x, y) || less(y, x)
    {
      var i :| 0 <= i < |models| && models[i] == x;
      var j :| 0 <= j < |models| && models[j] == y;
      assert NamesOf(models)[i] == x.name && NamesOf(models)[j] == y.name;
    }
  }

  lemma {:induction false} NamesPermute(a: seq<Model>, name: string)
    ensures multiset(NamesOf(a))[name] == |Sums.Group(a, ModelName, name)|
  {
    if a != [] {
      var n := |a| - 1;
      NamesPermute(a[..n], name);
      assert NamesOf(a) == NamesOf(a[..n]) + [a[n].name];
    } else {
      assert NamesOf(a) == [];
    }
  }

  /** A permutation of the models lists the same names. */
  lemma SameNames(a: seq<Model>, b: seq<Model>, names: set<string>)
    requires multiset(a) == multiset(b) && Sums.Lists(NamesOf(a), names)
    ensures Sums.Lists(NamesOf(b), names)
  {
    hide Sums.Group;
    forall name: string
      ensures multiset(NamesOf(b))[name] == if name in names then 1 else 0
    {
      NamesPermute(a, name);
      NamesPermute(b, name);
      Sums.GroupIgnoresOrder(a, b, ModelName, name);
      var g, h := Sums.Group(a, ModelName, name), Sums.Group(b, ModelName, name);
      assert |g| == |multiset(g)| == |multiset(h)| == |h|;
      Sums.OnceEach(NamesOf(a));
      assert name in (set k <- NamesOf(a)) <==> name in names;
    }
    OnceIsListed(NamesOf(b), names);
  }

  lemma OnceIsListed(ks: seq<string>, s: set<string>)
    requires forall k: string :: multiset(ks)[k] == if k in s then 1 else 0
    ensures Sums.Lists(ks, s)
  {
    forall k: string
      ensures k in (set x <- ks) <==> k in s
    {
      assert k in ks <==> k in multiset(ks);
    }
    forall i, j | 0 <= i < j < |ks|
      ensures ks[i] != ks[j]
    {
      TwiceCountsTwo(ks, i, j);
      assert multiset(ks)[ks[i]] <= 1;
    }
  }

  lemma TwiceCountsTwo(ks: seq<string>, i: nat, j: nat)
    requires i < j < |ks|
    ensures ks[i] == ks[j] ==> multiset(ks)[ks[i]] >= 2
  {
    assert ks == ks[..j] + [ks[j]] + ks[j + 1..];
    assert ks[i] in ks[..j];
    assert multiset(ks) == multiset(ks[..j]) + multiset([ks[j]]) + multiset(ks[j + 1..]);
  }

  // ------------------------------------------------------------------ the ten largest and the rest

  /** The first ten, then one model that stands for all others. */
  function Limit(models: seq<Model>): seq<Model> {
    if |models| <= TOP_MODELS then models
    else models[..TOP_MODELS] + [Model(OTHER_MODEL, Sums.Sum(LOADS, models[TOP_MODELS..], ModelLoad))]
  }

  method AddDailyTokens(daily: map<Time, int>, more: map<Time, int>) returns (sum: map<Time, int>)
    ensures sum == AddDays(daily, more)
  {
    sum := daily;
    var remaining := more.Items;
    while remaining != {}
      invariant remaining <= more.Items
      invariant forall d :: d in sum <==> d in daily || (d in more && (d, more[d]) !in remaining)
      invariant forall d <- sum.Keys ::
        sum[d] == At(daily, d) + if d in more && (d, more[d]) !in remaining then more[d] else 0
      decreases remaining
    {
      var item :| item in remaining;
      sum := sum[item.0 := At(sum, item.0) + item.1];
      remaining := remaining - {item};
    }
    AddedUp(sum, daily, more);
  }

  lemma AddedUp(sum: map<Time, int>, daily: map<Time, int>, more: map<Time, int>)
    requires forall d :: d in sum <==> d in daily || d in more
    requires forall d <- sum.Keys :: sum[d] == At(daily, d) + At(more, d)
    ensures sum == AddDays(daily, more)
  {
    forall d: Time
      ensures d in sum <==> d in AddDays(daily, more)
      ensures d in sum ==> sum[d] == AddDays(daily, more)[d]
    {
    }
  }

  method LimitModels(models: seq<Model>) returns (limited: seq<Model>)
    ensures limited == Limit(models)
  {
    if |models| <= TOP_MODELS {
      return models;
    }
    hide AddDays;
    var rest := models[TOP_MODELS..];
    var other := NO_LOAD;
    for i := 0 to |rest|
      invariant other == Sums.Sum(LOADS, rest[..i], ModelLoad)
    {
      assert rest[..i + 1] == rest[..i] + [rest[i]];
      Sums.SumOne(LOADS, rest[..i], rest[i], ModelLoad);
      var load := rest[i].load;
      var daily := AddDailyTokens(other.daily, load.daily);
      var tokens := Tokens(
        other.tokens.input + load.tokens.input,
        other.tokens.output + load.tokens.output,
        other.tokens.cacheRead + load.tokens.cacheRead,
        other.tokens.cacheWrite + load.tokens.cacheWrite,
        other.tokens.total + load.tokens.total);
      other := Load(tokens, other.cost + load.cost, daily);
    }
    assert rest[..|rest|] == rest;
    limited := models[..TOP_MODELS] + [Model(OTHER_MODEL, other)];
  }

  // ------------------------------------------------------------------ what the roll-up keeps

  /** Nothing is lost or counted twice: every kind of token, the cost, and the tokens of every day. */
  lemma RollUpConserves(less: (Model, Model) -> bool, models: seq<Model>, entries: seq<UsageEntry>)
    requires Ranking(less, models, entries)
    ensures Sums.Sum(LOADS, Limit(models), ModelLoad) == Sums.Sum(LOADS, entries, LoadOf)
  {
    hide Accumulated, AddLoads, Sums.Group, Sums.Sum, Sums.Lawful, Sorting.Sorted;
    LoadsAdd();
    LimitConserves(models);
    ModelsAreGroups(models, entries);
    forall e <- entries
      ensures NameOf(e) in NamesOf(models)
    {
      assert NameOf(e) in Names(entries);
      assert NameOf(e) in (set n <- NamesOf(models));
    }
    Sums.GroupsConserve(LOADS, entries, LoadOf, NameOf, NamesOf(models));
  }

  lemma {:induction false} ModelsAreGroups(models: seq<Model>, entries: seq<UsageEntry>)
    requires forall m <- models :: m == Accumulated(entries, m.name)
    ensures Sums.Sum(LOADS, models, ModelLoad) == Sums.GroupSums(LOADS, entries, LoadOf, NameOf, NamesOf(models))
  {
    hide AddLoads, LoadOf, NameOf, Sums.GroupSum;
    if models != [] {
      var n := |models| - 1;
      ModelsAreGroups(models[..n], entries);
      assert NamesOf(models) == NamesOf(models[..n]) + [models[n].name];
      Sums.GroupSumsStep(LOADS, entries, LoadOf, NameOf, NamesOf(models[..n]), models[n].name);
    } else {
      assert NamesOf(models) == [];
    }
  }

  lemma LimitConserves(models: seq<Model>)
    ensures Sums.Sum(LOADS, Limit(models), ModelLoad) == Sums.Sum(LOADS, models, ModelLoad)
  {
    hide AddLoads, Sums.Sum, Sums.Lawful;
    LoadsAdd();
    if |models| > TOP_MODELS {
      var kept, rest := models[..TOP_MODELS], models[TOP_MODELS..];
      assert models == kept + rest;
      Sums.SumAppend(LOADS, kept, rest, ModelLoad);
      Sums.SumOne(LOADS, kept, Model(OTHER_MODEL, Sums.Sum(LOADS, rest, ModelLoad)), ModelLoad);
    }
  }

  // ------------------------------------------------------------------ one ranking only

  /** The ranking depends on the entries alone: not on their order, nor on the iteration of the map. */
  lemma RankingIgnoresOrder(less: (Model, Model) -> bool, a: seq<Model>, b: seq<Model>,
                            entries: seq<UsageEntry>, entries': seq<UsageEntry>)
    requires RanksModels(less) && multiset(entries) == multiset(entries')
    requires Ranking(less, a, entries) && Ranking(less, b, entries')
    ensures a == b
  {
    hide Accumulated, RanksModels, Sorting.Sorted, Sums.Distinct;
    Sorting.SameElements(entries, entries');
    forall name: string
      ensures Accumulated(entries, name) == Accumulated(entries', name)
    {
      SameAccumulated(entries, entries', name);
    }
    assert Names(entries) == Names(entries');
    SameModels(a, b, entries, Names(entries));
    NamesTellApart(less, a);
    StrictlyRanked(less);
    Sorting.SortedIsUnique(less, a, b);
  }

  lemma StrictlyRanked(less: (Model, Model) -> bool)
    requires RanksModels(less)
    ensures Sorting.StrictOrder(less)
  {
  }

  lemma SameAccumulated(entries: seq<UsageEntry>, entries': seq<UsageEntry>, name: string)
    requires multiset(entries) == multiset(entries')
    ensures Accumulated(entries, name) == Accumulated(entries', name)
  {
    hide Sums.Lawful, Sums.Sum, Sums.Group, NameOf, LoadOf;
    LoadsAdd();
    Sums.GroupIgnoresOrder(entries, entries', NameOf, name);
    Sums.SumPermuted(LOADS, Sums.Group(entries, NameOf, name), Sums.Group(entries', NameOf, name), LoadOf);
  }

  /** Two rankings hold the same models, each once. */
  lemma SameModels(a: seq<Model>, b: seq<Model>, entries: seq<UsageEntry>, names: set<string>)
    requires Sums.Lists(NamesOf(a), names) && Sums.Lists(NamesOf(b), names)
    requires forall m <- a :: m == Accumulated(entries, m.name)
    requires forall m <- b :: m == Accumulated(entries, m.name)
    ensures multiset(a) == multiset(b)
  {
    hide Accumulated;
    var models := set m <- a;
    ModelsListed(a, names);
    ModelsListed(b, names);
    forall m: Model
      ensures m in a <==> m in b
    {
      assert m in a <==> m.name in names && m == Accumulated(entries, m.name) by { InRanking(a, entries, names, m); }
      assert m in b <==> m.name in names && m == Accumulated(entries, m.name) by { InRanking(b, entries, names, m); }
    }
    assert (set m <- b) == models;
    Sums.ListingsAgree(a, b, models);
  }

  lemma ModelsListed(a: seq<Model>, names: set<string>)
    requires Sums.Lists(NamesOf(a), names)
    ensures Sums.Distinct(a)
  {
    forall i, j | 0 <= i < j < |a|
      ensures a[i] != a[j]
    {
      assert NamesOf(a)[i] != NamesOf(a)[j];
    }
  }

  lemma InRanking(a: seq<Model>, entries: seq<UsageEntry>, names: set<string>, m: Model)
    requires Sums.Lists(NamesOf(a), names)
    requires forall x <- a :: x == Accumulated(entries, x.name)
    ensures m in a <==> m.name in names && m == Accumulated(entries, m.name)
  {
    hide Accumulated;
    if m in a {
      var i :| 0 <= i < |a| && a[i] == m;
      assert NamesOf(a)[i] == m.name;
      assert m.name in (set n <- NamesOf(a));
    }
    if m.name in names && m == Accumulated(entries, m.name) {
      assert m.name in (set n <- NamesOf(a));
      var i :| 0 <= i < |a| && NamesOf(a)[i] == m.name;
      assert a[i] in a;
    }
  }

  /** No model that is folded ranks before one that is kept. */
  lemma LargestAreKept(less: (Model, Model) -> bool, models: seq<Model>, entries: seq<UsageEntry>, i: nat,
                       e: UsageEntry)
    requires Ranking(less, models, entries) && e in entries
    requires i < |Limit(models)| && i < TOP_MODELS
    ensures Accumulated(entries, NameOf(e)) in Limit(models)[..if |models| < TOP_MODELS then |models| else TOP_MODELS]
         || !less(Accumulated(entries, NameOf(e)), Limit(models)[i])
  {
    hide Accumulated;
    assert NameOf(e) in Names(entries);
    assert NameOf(e) in (set n <- NamesOf(models));
    var k :| 0 <= k < |models| && NamesOf(models)[k] == NameOf(e);
    assert models[k] in models;
    if k < TOP_MODELS {
      assert Limit(models)[k] == models[k];
    }
  }

  /** A ranking by tokens or cost, spelled out: the larger first, and of equals the smaller name. */
  lemma RankingIs(models: seq<Model>, entries: seq<UsageEntry>, i: nat, j: nat)
    requires i < j < |models|
    ensures Ranking(MoreTokens, models, entries) ==>
      || models[i].load.tokens.total > models[j].load.tokens.total
      || (models[i].load.tokens.total == models[j].load.tokens.total && Text.Less(models[i].name, models[j].name))
    ensures Ranking(MoreCost, models, entries) ==>
      || models[i].load.cost > models[j].load.cost
      || (models[i].load.cost == models[j].load.cost && Text.Less(models[i].name, models[j].name))
  {
    hide Text.Less, Accumulated, Names;
    Text.LessTotal(models[i].name, models[j].name);
    assert NamesOf(models)[i] == models[i].name && NamesOf(models)[j] == models[j].name;
  }

  /** Up to ten models are shown as they are; of more, the first ten and one for all others. */
  lemma LimitIs(models: seq<Model>)
    ensures |models| <= 10 ==> Limit(models) == models
    ensures |models| > 10 ==>
      |Limit(models)| == 11 && Limit(models)[..10] == models[..10] && Limit(models)[10].name == "Other"
  {
    hide Sums.Sum;
  }
}
