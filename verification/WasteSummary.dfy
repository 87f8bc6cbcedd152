/** The waste summary: every wasted entry is charged to one insight, and the charges are added up. */
module WasteSummary {
  import opened Domain
  import opened Budget
  import Calendar
  import Sums
  import Text

  datatype Category =
    | ContextAvalanche | RepeatedFileReads | RetryAmplification | OverQualifiedModel
    | ToolSchemaBloat | PlanningTax | ZombieLoops | MissedPromptCaching

  const DETECTOR_ORDER: seq<Category> :=
    [ContextAvalanche, RepeatedFileReads, RetryAmplification, OverQualifiedModel,
     ToolSchemaBloat, PlanningTax, ZombieLoops, MissedPromptCaching]

  datatype Level = CriticalLevel | High | Medium | Low

  datatype Insight = Insight(id: string, category: Category, severity: Level, detectedAt: Time, entryIds: seq<string>)

  datatype Owner = Owner(id: string, category: Category, severity: Level, detectedAt: Time)

  function OwnerOf(i: Insight): Owner {
    Owner(i.id, i.category, i.severity, i.detectedAt)
  }

  function Rank(s: Level): int {
    match s
    case CriticalLevel => 3
    case High => 2
    case Medium => 1
    case Low => 0
  }

  /** Severer first, then earlier, then by id. */
  predicate OwnerLess(a: Owner, b: Owner) {
    if Rank(a.severity) != Rank(b.severity) then Rank(a.severity) > Rank(b.severity)
    else if a.detectedAt != b.detectedAt then a.detectedAt < b.detectedAt
    else Text.Less(a.id, b.id)
  }

  // ------------------------------------------------------------------ ownership

  /** The insights that name the entry. */
  function Candidates(insights: seq<Insight>, entryId: string): set<Owner> {
    set i <- insights | entryId in i.entryIds :: OwnerOf(i)
  }

  ghost predicate IsLeast(o: Owner, candidates: set<Owner>) {
    o in candidates && forall c <- candidates :: !OwnerLess(c, o)
  }

  /** Every entry that some insight names is owned by a least of them. */
  ghost predicate Owned(owned: map<string, Owner>, ids: set<string>, insights: seq<Insight>) {
    && (forall id :: id in owned <==> id in ids && Candidates(insights, id) != {})
    && (forall id <- owned.Keys :: IsLeast(owned[id], Candidates(insights, id)))
  }

  method OwnEntries(insights: seq<Insight>, ids: set<string>) returns (owned: map<string, Owner>)
    ensures Owned(owned, ids, insights)
  {
    hide OwnerLess, IsLeast;
    owned := map[];
    for i := 0 to |insights|
      invariant Owned(owned, ids, insights[..i])
    {
      var insight := insights[i];
      var part := insights[..i];
      assert insights[..i + 1] == part + [insight];
      NothingNamedYet(part, insight, owned, ids);
      for j := 0 to |insight.entryIds|
        invariant Owned(owned, ids, part + [insight.(entryIds := insight.entryIds[..j])])
      {
        var entryId := insight.entryIds[j];
        assert insight.entryIds[..j + 1] == insight.entryIds[..j] + [entryId];
        ghost var before := part + [insight.(entryIds := insight.entryIds[..j])];
        var candidate := OwnerOf(insight);
        NamedOnce(part, insight, insight.entryIds[..j], entryId);
        if entryId !in ids {
          NameIgnored(owned, ids, before, part + [insight.(entryIds := insight.entryIds[..j + 1])], entryId, candidate);
          continue;
        }
        if entryId !in owned || OwnerLess(candidate, owned[entryId]) {
          NameTaken(owned, ids, before, part + [insight.(entryIds := insight.entryIds[..j + 1])], entryId, candidate);
          owned := owned[entryId := candidate];
        } else {
          NameKept(owned, ids, before, part + [insight.(entryIds := insight.entryIds[..j + 1])], entryId, candidate);
        }
      }
      assert insight.entryIds[..|insight.entryIds|] == insight.entryIds;
      assert insight.(entryIds := insight.entryIds) == insight;
    }
    assert insights[..|insights|] == insights;
  }

  lemma CandidatesOfOneMore(part: seq<Insight>, insight: Insight, id: string)
    ensures Candidates(part + [insight], id)
         == Candidates(part, id) + if id in insight.entryIds then {OwnerOf(insight)} else {}
  {
    var all := part + [insight];
    assert forall i :: i in all <==> i in part || i == insight;
  }

  lemma NothingNamedYet(part: seq<Insight>, insight: Insight, owned: map<string, Owner>, ids: set<string>)
    requires Owned(owned, ids, part)
    ensures Owned(owned, ids, part + [insight.(entryIds := insight.entryIds[..0])])
  {
    hide IsLeast;
    forall id: string
      ensures Candidates(part + [insight.(entryIds := insight.entryIds[..0])], id) == Candidates(part, id)
    {
      CandidatesOfOneMore(part, insight.(entryIds := insight.entryIds[..0]), id);
    }
  }

  ghost predicate OneMoreCandidate(before: seq<Insight>, after: seq<Insight>, name: string, o: Owner) {
    forall id: string ::
      Candidates(after, id) == if id == name then Candidates(before, id) + {o} else Candidates(before, id)
  }

  /** Reading one more entry id of an insight gives that entry one more candidate. */
  lemma NamedOnce(part: seq<Insight>, insight: Insight, names: seq<string>, name: string)
    ensures OneMoreCandidate(part + [insight.(entryIds := names)], part + [insight.(entryIds := names + [name])], name,
                             OwnerOf(insight))
  {
    forall id: string
      ensures Candidates(part + [insight.(entryIds := names + [name])], id)
           == if id == name then Candidates(part + [insight.(entryIds := names)], id) + {OwnerOf(insight)}
              else Candidates(part + [insight.(entryIds := names)], id)
    {
      CandidatesOfOneMore(part, insight.(entryIds := names + [name]), id);
      CandidatesOfOneMore(part, insight.(entryIds := names), id);
    }
  }

  lemma NameIgnored(owned: map<string, Owner>, ids: set<string>, before: seq<Insight>, after: seq<Insight>,
                    name: string, o: Owner)
    requires Owned(owned, ids, before) && OneMoreCandidate(before, after, name, o) && name !in ids
    ensures Owned(owned, ids, after)
  {
    hide IsLeast, Candidates;
  }

  lemma NameTaken(owned: map<string, Owner>, ids: set<string>, before: seq<Insight>, after: seq<Insight>,
                  name: string, o: Owner)
    requires Owned(owned, ids, before) && OneMoreCandidate(before, after, name, o) && name in ids
    requires name !in owned || OwnerLess(o, owned[name])
    ensures Owned(owned[name := o], ids, after)
  {
    hide Candidates, OwnerLess;
    OwnerLessIsOrder();
    assert o in Candidates(after, name);
    forall c <- Candidates(after, name)
      ensures !OwnerLess(c, o)
    {
      assert c == o || c in Candidates(before, name);
    }
  }

  lemma NameKept(owned: map<string, Owner>, ids: set<string>, before: seq<Insight>, after: seq<Insight>,
                 name: string, o: Owner)
    requires Owned(owned, ids, before) && OneMoreCandidate(before, after, name, o) && name in owned
    requires !OwnerLess(o, owned[name])
    ensures Owned(owned, ids, after)
  {
    hide Candidates, OwnerLess;
  }

  /** The order on owners is strict, and leaves no two insights with different ids unordered. */
  lemma OwnerLessIsOrder()
    ensures forall a: Owner :: !OwnerLess(a, a)
    ensures forall a: Owner, b: Owner, c: Owner :: OwnerLess(a, b) && OwnerLess(b, c) ==> OwnerLess(a, c)
    ensures forall a: Owner, b: Owner :: a.id != b.id ==> OwnerLess(a, b) || OwnerLess(b, a)
  {
    hide Text.Less;
    forall a: Owner, b: Owner
      ensures !OwnerLess(a, a)
      ensures a.id != b.id ==> OwnerLess(a, b) || OwnerLess(b, a)
    {
      Text.LessTotal(a.id, a.id);
      Text.LessTotal(a.id, b.id);
    }
    forall a: Owner, b: Owner, c: Owner | OwnerLess(a, b) && OwnerLess(b, c)
      ensures OwnerLess(a, c)
    {
      if a.detectedAt == b.detectedAt == c.detectedAt && Rank(a.severity) == Rank(b.severity) == Rank(c.severity) {
        Text.LessTransitive(a.id, b.id, c.id);
      }
    }
  }

  /** Insight ids tell insights apart: they are the repository's key. */
  ghost predicate DistinctIds(insights: seq<Insight>) {
    forall a, b | a in insights && b in insights :: a.id == b.id ==> a == b
  }

  /** The owner of an entry is unique: whatever order the insights come in, the same one is charged. */
  lemma OwnershipIgnoresOrder(owned: map<string, Owner>, owned': map<string, Owner>, ids: set<string>,
                              insights: seq<Insight>, insights': seq<Insight>)
    requires DistinctIds(insights) && forall i :: i in insights <==> i in insights'
    requires Owned(owned, ids, insights) && Owned(owned', ids, insights')
    ensures owned == owned'
  {
    hide OwnerLess, IsLeast, DistinctIds;
    forall id: string
      ensures Candidates(insights, id) == Candidates(insights', id)
    {
    }
    forall id <- owned.Keys
      ensures owned[id] == owned'[id]
    {
      LeastIsUnique(insights, id, owned[id], owned'[id]);
    }
  }

  lemma LeastIsUnique(insights: seq<Insight>, id: string, a: Owner, b: Owner)
    requires DistinctIds(insights)
    requires IsLeast(a, Candidates(insights, id)) && IsLeast(b, Candidates(insights, id))
    ensures a == b
  {
    hide OwnerLess;
    OwnerLessIsOrder();
    var i :| i in insights && OwnerOf(i) == a;
    var j :| j in insights && OwnerOf(j) == b;
    assert OwnerOf(i).id == i.id && OwnerOf(j).id == j.id;
    if i.id == j.id {
      assert i == j;
    }
  }

  /** Some insight of this severity names the entry. */
  ghost predicate NamedAt(insights: seq<Insight>, entryId: string, severity: Level) {
    exists i <- insights :: entryId in i.entryIds && i.severity == severity
  }

  /**
    * An entry is owned when some insight names it, and the owner is one of these: a critical one if there is any, else
    * a high one, else a medium one, else a low one; of those of its severity none was detected earlier, and of those
    * detected at the same time none has a smaller id.
    */
  lemma OwnerIs(owned: map<string, Owner>, ids: set<string>, insights: seq<Insight>, entryId: string)
    requires Owned(owned, ids, insights)
    ensures entryId in owned <==> entryId in ids && exists i <- insights :: entryId in i.entryIds
    ensures entryId in owned ==>
      var o := owned[entryId];
      && (exists i <- insights :: entryId in i.entryIds && o.id == i.id && o.category == i.category
                                  && o.severity == i.severity && o.detectedAt == i.detectedAt)
      && (o.severity == CriticalLevel <==> NamedAt(insights, entryId, CriticalLevel))
      && (o.severity == High <==> !NamedAt(insights, entryId, CriticalLevel) && NamedAt(insights, entryId, High))
      && (o.severity == Medium <==> !NamedAt(insights, entryId, CriticalLevel) && !NamedAt(insights, entryId, High)
                                    && NamedAt(insights, entryId, Medium))
      && (o.severity == Low <==> !NamedAt(insights, entryId, CriticalLevel) && !NamedAt(insights, entryId, High)
                                 && !NamedAt(insights, entryId, Medium))
      && (forall i <- insights | entryId in i.entryIds && i.severity == o.severity ::
            o.detectedAt < i.detectedAt || (o.detectedAt == i.detectedAt && !Text.Less(i.id, o.id)))
  {
    hide OwnerLess, Text.Less;
    NamedIsCandidate(insights, entryId);
    if entryId in owned {
      var o := owned[entryId];
      assert o in Candidates(insights, entryId);
      forall i <- insights | entryId in i.entryIds
        ensures !OwnerLess(OwnerOf(i), o)
      {
        assert OwnerOf(i) in Candidates(insights, entryId);
      }
      hide Owned, Candidates, IsLeast;
      var owner :| owner in insights && entryId in owner.entryIds && OwnerOf(owner) == o;
      forall i <- insights | entryId in i.entryIds
        ensures (i.severity == CriticalLevel ==> o.severity == CriticalLevel)
        ensures (i.severity == High ==> o.severity in {CriticalLevel, High})
        ensures (i.severity == Medium ==> o.severity != Low)
        ensures i.severity == o.severity ==>
          o.detectedAt < i.detectedAt || (o.detectedAt == i.detectedAt && !Text.Less(i.id, o.id))
      {
        NotLess(OwnerOf(i), o);
      }
    }
  }

  lemma NamedIsCandidate(insights: seq<Insight>, entryId: string)
    ensures Candidates(insights, entryId) != {} <==> exists i <- insights :: entryId in i.entryIds
  {
    forall i <- insights | entryId in i.entryIds
      ensures OwnerOf(i) in Candidates(insights, entryId)
    {
    }
  }

  /** What it means that one owner does not come before another. */
  lemma NotLess(a: Owner, b: Owner)
    requires !OwnerLess(a, b)
    ensures a.severity == CriticalLevel ==> b.severity == CriticalLevel
    ensures a.severity == High ==> b.severity in {CriticalLevel, High}
    ensures a.severity == Medium ==> b.severity != Low
    ensures a.severity == b.severity ==>
      b.detectedAt < a.detectedAt || (b.detectedAt == a.detectedAt && !Text.Less(a.id, b.id))
  {
    hide Text.Less;
  }

  // ------------------------------------------------------------------ the sums

  function SpendOf(e: UsageEntry): real { e.costs.total }

  /** The entries by id; a later entry with the same id replaces an earlier one. */
  function ById(entries: seq<UsageEntry>): map<string, UsageEntry> {
    if entries == [] then map[]
    else ById(entries[..|entries| - 1])[entries[|entries| - 1].entryId := entries[|entries| - 1]]
  }

  function CostBy(byId: map<string, UsageEntry>): string -> real {
    (id: string) => if id in byId then byId[id].costs.total else 0.0
  }

  function CategoryBy(owned: map<string, Owner>): string -> Category {
    (id: string) => if id in owned then owned[id].category else ContextAvalanche
  }

  function DayBy(byId: map<string, UsageEntry>): string -> Time {
    (id: string) => if id in byId then Day(byId[id].occurredAt) else 0
  }

  function ElapsedDays(p: Period, at: Time): nat
    requires p.Valid()
  {
    if at < p.start then 0
    else if at >= p.end then (p.end - p.start) / DAY
    else (at - p.start) / DAY + 1
  }

  function Percent(waste: real, spend: real): real {
    if spend > 0.0 then waste / spend * 100.0 else 0.0
  }

  function ProjectMonthEnd(waste: real, p: Period, at: Time): real
    requires p.Valid()
  {
    if ElapsedDays(p, at) == 0 then waste
    else waste * ((p.end - p.start) / DAY) as real / ElapsedDays(p, at) as real
  }

  function CountOf(insights: seq<Insight>, c: Category): nat {
    if insights == [] then 0
    else CountOf(insights[..|insights| - 1], c) + if insights[|insights| - 1].category == c then 1 else 0
  }

  datatype DetectorWaste = DetectorWaste(category: Category, cost: real, insights: nat)

  datatype DayWaste = DayWaste(day: Time, cost: real)

  datatype Waste = Waste(total: real, spend: real, percent: real, projected: real, byDetector: seq<DetectorWaste>,
                         trend: seq<DayWaste>)

  /** The summary that charges the owned entries, taken in some order. */
  ghost predicate IsSummary(w: Waste, p: Period, at: Time, entries: seq<UsageEntry>, insights: seq<Insight>,
                            owned: map<string, Owner>, order: seq<string>)
    requires p.Valid()
  {
    var byId := ById(entries);
    && Owned(owned, byId.Keys, insights)
    && Sums.Lists(order, owned.Keys)
    && w.total == Sums.Sum(REALS, order, CostBy(byId))
    && w.spend == Sums.Sum(REALS, entries, SpendOf)
    && w.percent == Percent(w.total, w.spend)
    && w.projected == ProjectMonthEnd(w.total, p, at)
    && ByDetector(w.byDetector, insights, byId, owned, order)
    && Trend(w.trend, p.start, ElapsedDays(p, at), byId, order)
  }

  ghost predicate ByDetector(ds: seq<DetectorWaste>, insights: seq<Insight>, byId: map<string, UsageEntry>,
                             owned: map<string, Owner>, order: seq<string>)
  {
    && |ds| <= |DETECTOR_ORDER|
    && forall i :: 0 <= i < |ds| ==>
         var c := DETECTOR_ORDER[i];
         ds[i] == DetectorWaste(c, Sums.GroupSum(REALS, order, CostBy(byId), CategoryBy(owned), c),
                                CountOf(insights, c))
  }

  ghost predicate Trend(trend: seq<DayWaste>, start: Time, n: nat, byId: map<string, UsageEntry>, order: seq<string>) {
    && |trend| == n
    && forall k :: 0 <= k < n ==>
         trend[k] == DayWaste(start + k * DAY, Sums.GroupSum(REALS, order, CostBy(byId), DayBy(byId), start + k * DAY))
  }

  /** A table of sums by key; what is missing is zero. */
  ghost predicate Tabulates<K(!new)>(table: map<K, real>, order: seq<string>, cost: string -> real, key: string -> K) {
    forall k :: (if k in table then table[k] else 0.0) == Sums.GroupSum(REALS, order, cost, key, k)
  }

  lemma NothingTabulated<K(!new)>(cost: string -> real, key: string -> K)
    ensures Tabulates(map[], [], cost, key)
  {
  }

  lemma TabulateOne<K(!new)>(table: map<K, real>, order: seq<string>, cost: string -> real, key: string -> K,
                             id: string)
    requires Tabulates(table, order, cost, key)
    ensures var k := key(id);
      Tabulates(table[k := (if k in table then table[k] else 0.0) + cost(id)], order + [id], cost, key)
  {
    hide Sums.Group;
    var k := key(id);
    var table' := table[k := (if k in table then table[k] else 0.0) + cost(id)];
    forall g: K
      ensures (if g in table' then table'[g] else 0.0) == Sums.GroupSum(REALS, order + [id], cost, key, g)
    {
      Sums.GroupOne(order, id, key, g);
      if g == k {
        Sums.SumOne(REALS, Sums.Group(order, key, g), id, cost);
      } else {
        assert Sums.Group(order, key, g) + [] == Sums.Group(order, key, g);
      }
    }
  }

  method CountInsights(insights: seq<Insight>) returns (counts: map<Category, nat>)
    ensures forall c :: (if c in counts then counts[c] else 0) == CountOf(insights, c)
  {
    counts := map[];
    for i := 0 to |insights|
      invariant forall c :: (if c in counts then counts[c] else 0) == CountOf(insights[..i], c)
    {
      assert insights[..i + 1][..i] == insights[..i];
      var c := insights[i].category;
      counts := counts[c := (if c in counts then counts[c] else 0) + 1];
    }
    assert insights[..|insights|] == insights;
  }

  method IndexEntries(entries: seq<UsageEntry>) returns (byId: map<string, UsageEntry>, spend: real)
    ensures byId == ById(entries) && spend == Sums.Sum(REALS, entries, SpendOf)
  {
    byId := map[];
    spend := 0.0;
    for i := 0 to |entries|
      invariant byId == ById(entries[..i]) && spend == Sums.Sum(REALS, entries[..i], SpendOf)
    {
      assert entries[..i + 1][..i] == entries[..i];
      byId := byId[entries[i].entryId := entries[i]];
      spend := spend + entries[i].costs.total;
    }
    assert entries[..|entries|] == entries;
  }

  /** Charges every owned entry to its detector and its day, in map iteration order. */
  method ChargeOwned(owned: map<string, Owner>, byId: map<string, UsageEntry>)
    returns (total: real, attributed: map<Category, real>, daily: map<Time, real>)
    requires owned.Keys <= byId.Keys
    ensures exists order ::
      && Sums.Lists(order, owned.Keys) && total == Sums.Sum(REALS, order, CostBy(byId))
      && Tabulates(attributed, order, CostBy(byId), CategoryBy(owned))
      && Tabulates(daily, order, CostBy(byId), DayBy(byId))
  {
    hide CostBy, CategoryBy, DayBy, Day, Tabulates, Sums.Lists, Sums.Sum;
    ghost var cost, category, day := CostBy(byId), CategoryBy(owned), DayBy(byId);
    ghost var order: seq<string> := [];
    total, attributed, daily := 0.0, map[], map[];
    NothingTabulated(cost, category);
    NothingTabulated(cost, day);
    NothingListed(owned.Keys, cost);
    var remaining := owned.Keys;
    while remaining != {}
      invariant remaining <= owned.Keys
      invariant Sums.Lists(order, owned.Keys - remaining)
      invariant total == Sums.Sum(REALS, order, cost)
      invariant Tabulates(attributed, order, cost, category)
      invariant Tabulates(daily, order, cost, day)
      decreases remaining
    {
      var id :| id in remaining;
      var entry := byId[id];
      var usd := entry.costs.total;
      LooksUp(byId, owned, id);
      TabulateOne(attributed, order, cost, category, id);
      TabulateOne(daily, order, cost, day, id);
      Sums.SumOne(REALS, order, id, cost);
      Sums.ListedOneMore(order, owned.Keys, remaining, id);
      var c := owned[id].category;
      attributed := attributed[c := (if c in attributed then attributed[c] else 0.0) + usd];
      total := total + usd;
      var d := Day(entry.occurredAt);
      daily := daily[d := (if d in daily then daily[d] else 0.0) + usd];
      order := order + [id];
      remaining := remaining - {id};
    }
    assert owned.Keys - {} == owned.Keys;
    assert Sums.Lists(order, owned.Keys) && total == Sums.Sum(REALS, order, cost);
  }

  lemma NothingListed(all: set<string>, cost: string -> real)
    ensures Sums.Lists([], all - all) && Sums.Sum(REALS, [], cost) == 0.0
  {
  }

  method QueryWasteSummary(p: Period, at: Time, entries: seq<UsageEntry>, insights: seq<Insight>)
    returns (w: Waste, ghost owned': map<string, Owner>, ghost order: seq<string>)
    requires p.Valid()
    ensures IsSummary(w, p, at, entries, insights, owned', order) && |w.byDetector| == |DETECTOR_ORDER|
  {
    hide Owned, CostBy, CategoryBy, DayBy, Day, ElapsedDays, Sums.GroupSum, Sums.Sum, ById, Sums.Lists, CountOf,
         Percent, ProjectMonthEnd, Tabulates, ByDetector, Trend;
    var insightCounts := CountInsights(insights);
    var entryById, totalSpend := IndexEntries(entries);
    var owned := OwnEntries(insights, entryById.Keys);
    owned' := owned;
    OwnedAreEntries(owned, entryById.Keys, insights);
    var totalWaste, attributed, dailyWaste := ChargeOwned(owned, entryById);
    order :|
      && Sums.Lists(order, owned.Keys) && totalWaste == Sums.Sum(REALS, order, CostBy(entryById))
      && Tabulates(attributed, order, CostBy(entryById), CategoryBy(owned))
      && Tabulates(dailyWaste, order, CostBy(entryById), DayBy(entryById));

    var byDetector: seq<DetectorWaste> := [];
    NoneListed(insights, p.start, entryById, owned, order);
    for i := 0 to |DETECTOR_ORDER|
      invariant |byDetector| == i && ByDetector(byDetector, insights, entryById, owned, order)
    {
      var c := DETECTOR_ORDER[i];
      DetectorListed(byDetector, insights, entryById, owned, order, attributed, insightCounts);
      byDetector := byDetector + [DetectorWaste(c, if c in attributed then attributed[c] else 0.0,
                                                if c in insightCounts then insightCounts[c] else 0)];
    }
    var elapsed := ElapsedDays(p, at);
    var trend: seq<DayWaste> := [];
    for k := 0 to elapsed
      invariant Trend(trend, p.start, k, entryById, order)
    {
      var d := p.start + k * DAY;
      DayListed(trend, p.start, k, entryById, order, dailyWaste);
      trend := trend + [DayWaste(d, if d in dailyWaste then dailyWaste[d] else 0.0)];
    }
    w := Waste(totalWaste, totalSpend, Percent(totalWaste, totalSpend), ProjectMonthEnd(totalWaste, p, at), byDetector,
               trend);
  }

  lemma NoneListed(insights: seq<Insight>, start: Time, byId: map<string, UsageEntry>, owned: map<string, Owner>,
                   order: seq<string>)
    ensures ByDetector([], insights, byId, owned, order) && Trend([], start, 0, byId, order)
  {
  }

  lemma DetectorListed(ds: seq<DetectorWaste>, insights: seq<Insight>, byId: map<string, UsageEntry>,
                       owned: map<string, Owner>, order: seq<string>, attributed: map<Category, real>,
                       counts: map<Category, nat>)
    requires |ds| < |DETECTOR_ORDER| && ByDetector(ds, insights, byId, owned, order)
    requires Tabulates(attributed, order, CostBy(byId), CategoryBy(owned))
    requires forall c :: CountOf(insights, c) == if c in counts then counts[c] else 0
    ensures var c := DETECTOR_ORDER[|ds|];
      ByDetector(ds + [DetectorWaste(c, if c in attributed then attributed[c] else 0.0,
                                     if c in counts then counts[c] else 0)], insights, byId, owned, order)
  {
    hide CostBy, CategoryBy, Sums.GroupSum, CountOf;
  }

  lemma DayListed(trend: seq<DayWaste>, start: Time, k: nat, byId: map<string, UsageEntry>, order: seq<string>,
                  daily: map<Time, real>)
    requires Trend(trend, start, k, byId, order) && Tabulates(daily, order, CostBy(byId), DayBy(byId))
    ensures var d := start + k * DAY;
      Trend(trend + [DayWaste(d, if d in daily then daily[d] else 0.0)], start, k + 1, byId, order)
  {
    hide CostBy, DayBy, Sums.GroupSum;
  }

  lemma OwnedAreEntries(owned: map<string, Owner>, ids: set<string>, insights: seq<Insight>)
    requires Owned(owned, ids, insights)
    ensures owned.Keys <= ids
  {
    hide Candidates, IsLeast;
  }

  lemma LooksUp(byId: map<string, UsageEntry>, owned: map<string, Owner>, id: string)
    requires id in byId && id in owned
    ensures CostBy(byId)(id) == byId[id].costs.total && CategoryBy(owned)(id) == owned[id].category
    ensures DayBy(byId)(id) == Day(byId[id].occurredAt)
  {
  }

  // ------------------------------------------------------------------ what the summary keeps

  /** The detectors' costs add up to the total waste. */
  lemma DetectorsAddUp(w: Waste, p: Period, at: Time, entries: seq<UsageEntry>, insights: seq<Insight>,
                       owned: map<string, Owner>, order: seq<string>)
    requires p.Valid() && IsSummary(w, p, at, entries, insights, owned, order) && |w.byDetector| == |DETECTOR_ORDER|
    ensures Sums.Sum(REALS, w.byDetector, DetectorCost) == w.total
  {
    hide Owned, CostBy, Sums.Sum, ElapsedDays, Sums.GroupSum, Sums.GroupSums, Sums.Lists;
    RealsAdd();
    var cost, category := CostBy(ById(entries)), CategoryBy(owned);
    EveryCategory();
    Sums.GroupsConserve(REALS, order, cost, category, DETECTOR_ORDER);
    DetectorSums(w.byDetector, insights, ById(entries), owned, order);
    assert DETECTOR_ORDER[..|w.byDetector|] == DETECTOR_ORDER;
  }

  lemma EveryCategory()
    ensures forall c: Category :: c in DETECTOR_ORDER
    ensures Sums.Distinct(DETECTOR_ORDER)
  {
    forall c: Category
      ensures c in DETECTOR_ORDER
    {
      match c
      case ContextAvalanche => assert DETECTOR_ORDER[0] == c;
      case RepeatedFileReads => assert DETECTOR_ORDER[1] == c;
      case RetryAmplification => assert DETECTOR_ORDER[2] == c;
      case OverQualifiedModel => assert DETECTOR_ORDER[3] == c;
      case ToolSchemaBloat => assert DETECTOR_ORDER[4] == c;
      case PlanningTax => assert DETECTOR_ORDER[5] == c;
      case ZombieLoops => assert DETECTOR_ORDER[6] == c;
      case MissedPromptCaching => assert DETECTOR_ORDER[7] == c;
    }
  }

  function DetectorCost(d: DetectorWaste): real { d.cost }

  function DayCost(d: DayWaste): real { d.cost }

  lemma {:induction false} DetectorSums(ds: seq<DetectorWaste>, insights: seq<Insight>, byId: map<string, UsageEntry>,
                                        owned: map<string, Owner>, order: seq<string>)
    requires ByDetector(ds, insights, byId, owned, order)
    ensures Sums.Sum(REALS, ds, DetectorCost)
         == Sums.GroupSums(REALS, order, CostBy(byId), CategoryBy(owned), DETECTOR_ORDER[..|ds|])
  {
    hide CostBy, CategoryBy, Sums.GroupSum, CountOf;
    if ds != [] {
      var n := |ds| - 1;
      DetectorSums(ds[..n], insights, byId, owned, order);
      assert DETECTOR_ORDER[..n + 1] == DETECTOR_ORDER[..n] + [DETECTOR_ORDER[n]];
      Sums.GroupSumsStep(REALS, order, CostBy(byId), CategoryBy(owned), DETECTOR_ORDER[..n], DETECTOR_ORDER[n]);
    }
  }

  /** The charged entries that fall on none of the elapsed days. */
  function Undated(p: Period, at: Time, byId: map<string, UsageEntry>, order: seq<string>): seq<string>
    requires p.Valid()
  {
    Sums.Outside(order, DayBy(byId), Days(p.start, ElapsedDays(p, at)))
  }

  /**
    * The days of the trend leave out the charged entries outside the elapsed days, and nothing else. So they add up to
    * the total exactly when those cost nothing.
    */
  lemma TrendAddsUpIff(w: Waste, p: Period, at: Time, entries: seq<UsageEntry>, insights: seq<Insight>,
                       owned: map<string, Owner>, order: seq<string>)
    requires p.Valid() && IsSummary(w, p, at, entries, insights, owned, order)
    ensures var byId := ById(entries);
      var undated := Undated(p, at, byId, order);
      && Sums.Sum(REALS, w.trend, DayCost) + Sums.Sum(REALS, undated, CostBy(byId)) == w.total
      && (Sums.Sum(REALS, w.trend, DayCost) == w.total <==> Sums.Sum(REALS, undated, CostBy(byId)) == 0.0)
    ensures var byId := ById(entries);
      forall id :: id in Undated(p, at, byId, order) <==>
        id in order && id in byId && !(p.start <= byId[id].occurredAt < p.start + ElapsedDays(p, at) * DAY)
    ensures (forall e <- entries :: e.costs.total >= 0.0) ==>
      (Sums.Sum(REALS, w.trend, DayCost) == w.total <==>
         forall id <- Undated(p, at, ById(entries), order) :: CostBy(ById(entries))(id) == 0.0)
  {
    hide *;
    SummaryParts(w, p, at, entries, insights, owned, order);
    TrendLeavesOut(w.trend, p, at, ById(entries), order);
    ChargedAreEntries(ById(entries), owned, insights, order);
    UndatedIs(p, at, ById(entries), order);
    if forall e <- entries :: e.costs.total >= 0.0 {
      CostsNothing(entries, Undated(p, at, ById(entries), order));
    }
  }

  lemma SummaryParts(w: Waste, p: Period, at: Time, entries: seq<UsageEntry>, insights: seq<Insight>,
                     owned: map<string, Owner>, order: seq<string>)
    requires p.Valid() && IsSummary(w, p, at, entries, insights, owned, order)
    ensures var byId := ById(entries);
      && Owned(owned, byId.Keys, insights) && Sums.Lists(order, owned.Keys)
      && Trend(w.trend, p.start, ElapsedDays(p, at), byId, order)
      && w.total == Sums.Sum(REALS, order, CostBy(byId))
  {
    hide Owned, Sums.Lists, Sums.Sum, ElapsedDays, ByDetector, Trend, ById, CostBy, Period.Valid;
  }

  lemma TrendLeavesOut(trend: seq<DayWaste>, p: Period, at: Time, byId: map<string, UsageEntry>, order: seq<string>)
    requires p.Valid() && Trend(trend, p.start, ElapsedDays(p, at), byId, order)
    ensures Sums.Sum(REALS, trend, DayCost) + Sums.Sum(REALS, Undated(p, at, byId, order), CostBy(byId))
         == Sums.Sum(REALS, order, CostBy(byId))
  {
    hide Sums.Sum, ElapsedDays, Sums.GroupSums, Days, CostBy, DayBy, Sums.Outside, Period.Valid, Sums.Lawful, Trend;
    RealsAdd();
    var n := ElapsedDays(p, at);
    DaysAre(p.start, n);
    Sums.GroupsAndOutside(REALS, order, CostBy(byId), DayBy(byId), Days(p.start, n));
    TrendSums(trend, p.start, n, byId, order);
  }

  lemma UndatedIs(p: Period, at: Time, byId: map<string, UsageEntry>, order: seq<string>)
    requires p.Valid() && forall id <- order :: id in byId
    ensures forall id :: id in Undated(p, at, byId, order) <==>
      id in order && id in byId && !(p.start <= byId[id].occurredAt < p.start + ElapsedDays(p, at) * DAY)
  {
    hide ElapsedDays, Days, DayBy, Period.Valid, Sums.Outside;
    var n := ElapsedDays(p, at);
    forall id <- order
      ensures DayBy(byId)(id) in Days(p.start, n) <==> p.start <= byId[id].occurredAt < p.start + n * DAY
    {
      OnSomeDay(p, n, byId, id);
    }
  }

  lemma ChargedAreEntries(byId: map<string, UsageEntry>, owned: map<string, Owner>, insights: seq<Insight>,
                          order: seq<string>)
    requires Owned(owned, byId.Keys, insights) && Sums.Lists(order, owned.Keys)
    ensures forall id <- order :: id in byId
  {
    OwnedAreEntries(owned, byId.Keys, insights);
    assert forall id <- order :: id in (set k <- order);
  }

  /** A time falls on one of the days from a midnight on exactly when it lies between the first and the last. */
  lemma OnSomeDay(p: Period, n: nat, byId: map<string, UsageEntry>, id: string)
    requires p.Valid() && id in byId
    ensures DayBy(byId)(id) in Days(p.start, n) <==> p.start <= byId[id].occurredAt < p.start + n * DAY
  {
    DayAmong(p.start, n, byId[id].occurredAt);
  }

  lemma {:induction false} CostsNothing(entries: seq<UsageEntry>, ids: seq<string>)
    requires forall e <- entries :: e.costs.total >= 0.0
    ensures var byId := ById(entries);
      && Sums.Sum(REALS, ids, CostBy(byId)) >= 0.0
      && (Sums.Sum(REALS, ids, CostBy(byId)) == 0.0 <==> forall id <- ids :: CostBy(byId)(id) == 0.0)
    decreases |ids|
  {
    if ids != [] {
      var n := |ids| - 1;
      CostsNothing(entries, ids[..n]);
      ByIdIs(entries);
      hide ById;
      assert ids == ids[..n] + [ids[n]];
    }
  }

  lemma {:induction false} TrendSums(trend: seq<DayWaste>, start: Time, n: nat, byId: map<string, UsageEntry>,
                                     order: seq<string>)
    requires Trend(trend, start, n, byId, order)
    ensures Sums.Sum(REALS, trend, DayCost) == Sums.GroupSums(REALS, order, CostBy(byId), DayBy(byId), Days(start, n))
  {
    hide CostBy, DayBy, Sums.GroupSum;
    if n > 0 {
      TrendSums(trend[..n - 1], start, n - 1, byId, order);
      Sums.GroupSumsStep(REALS, order, CostBy(byId), DayBy(byId), Days(start, n - 1), start + (n - 1) * DAY);
    }
  }

  /** The places of the insights of a detector. */
  function PlacesOf(insights: seq<Insight>, c: Category): set<int> {
    set i | 0 <= i < |insights| && insights[i].category == c
  }

  /** One row a detector, in this order, with the number of its insights. */
  lemma DetectorRows(w: Waste, p: Period, at: Time, entries: seq<UsageEntry>, insights: seq<Insight>,
                     owned: map<string, Owner>, order: seq<string>)
    requires p.Valid() && IsSummary(w, p, at, entries, insights, owned, order) && |w.byDetector| == |DETECTOR_ORDER|
    ensures |w.byDetector| == 8 && forall k :: 0 <= k < 8 ==>
      && w.byDetector[k].category
         == [ContextAvalanche, RepeatedFileReads, RetryAmplification, OverQualifiedModel, ToolSchemaBloat, PlanningTax,
             ZombieLoops, MissedPromptCaching][k]
      && w.byDetector[k].insights == |PlacesOf(insights, w.byDetector[k].category)|
  {
    hide Owned, CountOf, ElapsedDays, Sums.Sum, Sums.GroupSum, Trend, PlacesOf;
    forall k | 0 <= k < 8
      ensures w.byDetector[k].category == DETECTOR_ORDER[k]
      ensures w.byDetector[k].insights == |PlacesOf(insights, w.byDetector[k].category)|
    {
      CountIs(insights, DETECTOR_ORDER[k]);
    }
  }

  lemma {:induction false} CountIs(insights: seq<Insight>, c: Category)
    ensures CountOf(insights, c) == |PlacesOf(insights, c)|
  {
    if insights != [] {
      var n := |insights| - 1;
      CountIs(insights[..n], c);
      OnePlaceMore(insights[..n], insights[n], c);
      assert insights == insights[..n] + [insights[n]];
    }
  }

  lemma OnePlaceMore(insights: seq<Insight>, x: Insight, c: Category)
    ensures PlacesOf(insights + [x], c) == PlacesOf(insights, c) + (if x.category == c then {|insights|} else {})
    ensures |insights| !in PlacesOf(insights, c)
  {
    var all := insights + [x];
    forall i: int
      ensures i in PlacesOf(all, c) <==> i in PlacesOf(insights, c) || (i == |insights| && x.category == c)
    {
      assert 0 <= i < |insights| ==> all[i] == insights[i];
    }
  }

  /** Waste never exceeds spend. */
  lemma WasteIsSpent(w: Waste, p: Period, at: Time, entries: seq<UsageEntry>, insights: seq<Insight>,
                     owned: map<string, Owner>, order: seq<string>)
    requires p.Valid() && IsSummary(w, p, at, entries, insights, owned, order)
    requires forall e <- entries :: e.costs.total >= 0.0
    ensures 0.0 <= w.total <= w.spend && 0.0 <= w.percent <= 100.0
    ensures w.percent * w.spend == w.total * 100.0
  {
    hide ByDetector, Trend, ElapsedDays, Sums.Sum, CostBy, ById, Owned, ProjectMonthEnd;
    OwnedAreEntries(owned, ById(entries).Keys, insights);
    assert forall id <- order :: id in (set k <- order);
    ChargedOnce(entries, order);
    if w.spend > 0.0 {
      Percentage(w.total, w.spend);
    }
  }

  lemma Percentage(a: real, b: real)
    requires 0.0 <= a <= b && b > 0.0
    ensures 0.0 <= a / b * 100.0 <= 100.0 && a / b * 100.0 * b == a * 100.0
  {
    assert a / b <= 1.0;
    assert a / b * b == a;
  }

  /** Distinct entries cost no more than all entries together. */
  lemma {:induction false} ChargedOnce(entries: seq<UsageEntry>, order: seq<string>)
    requires Sums.Distinct(order) && forall id <- order :: id in ById(entries)
    requires forall e <- entries :: e.costs.total >= 0.0
    ensures 0.0 <= Sums.Sum(REALS, order, CostBy(ById(entries))) <= Sums.Sum(REALS, entries, SpendOf)
    decreases |entries|
  {
    if entries == [] {
      NoneCharged(order);
    } else {
      var n := |entries| - 1;
      var e, before := entries[n], entries[..n];
      var byId, byId' := ById(entries), ById(before);
      assert byId == byId'[e.entryId := e];
      hide ById, Sums.Sum, CostBy;
      assert entries == before + [e];
      Sums.SumOne(REALS, before, e, SpendOf);
      if e.entryId in order {
        var i :| 0 <= i < |order| && order[i] == e.entryId;
        var rest := order[..i] + order[i + 1..];
        RestCharged(order, i, e, byId');
        ChargedOnce(before, rest);
      } else {
        OthersCharged(order, e, byId');
        ChargedOnce(before, order);
      }
    }
  }

  /** Taking the id of one entry out of the list takes its cost out of the sum. */
  lemma RestCharged(order: seq<string>, i: nat, e: UsageEntry, byId: map<string, UsageEntry>)
    requires Sums.Distinct(order) && i < |order| && order[i] == e.entryId
    requires forall id <- order :: id in byId || id == e.entryId
    ensures var rest := order[..i] + order[i + 1..];
      && Sums.Distinct(rest) && (forall id <- rest :: id in byId)
      && Sums.Sum(REALS, order, CostBy(byId[e.entryId := e])) == Sums.Sum(REALS, rest, CostBy(byId)) + e.costs.total
  {
    hide Sums.Sum, Sums.Lawful;
    RealsAdd();
    var rest := order[..i] + order[i + 1..];
    assert forall j :: 0 <= j < |rest| ==> rest[j] == if j < i then order[j] else order[j + 1];
    assert forall id <- rest :: id in order && id != e.entryId;
    Sums.SumWithout(REALS, order, i, CostBy(byId[e.entryId := e]));
    Sums.SameSum(REALS, rest, CostBy(byId[e.entryId := e]), CostBy(byId));
  }

  lemma OthersCharged(order: seq<string>, e: UsageEntry, byId: map<string, UsageEntry>)
    requires e.entryId !in order
    ensures Sums.Sum(REALS, order, CostBy(byId[e.entryId := e])) == Sums.Sum(REALS, order, CostBy(byId))
  {
    Sums.SameSum(REALS, order, CostBy(byId[e.entryId := e]), CostBy(byId));
  }

  lemma {:induction false} NoneCharged(order: seq<string>)
    ensures Sums.Sum(REALS, order, CostBy(map[])) == 0.0
  {
    if order != [] {
      NoneCharged(order[..|order| - 1]);
    }
  }

  /** In its month the elapsed days are the day of the month; after it they are all its days, before it none. */
  lemma ElapsedIsDay(month: int, at: Time)
    requires month > 0
    ensures var p := Calendar.MonthPeriod(month);
      && p.Valid()
      && ElapsedDays(p, at) == if p.Contains(at) then Calendar.CivilOf(at).day
                               else if at < p.start then 0 else Calendar.DaysIn(month)
  {
    hide *;
    Calendar.MonthPeriodIs(month);
    var p := Calendar.MonthPeriod(month);
    ElapsedIs(p, at, Calendar.DaysIn(month));
    if p.start <= at < p.end {
      Calendar.InItsMonth(month, at);
    }
  }

  lemma ElapsedIs(p: Period, at: Time, days: int)
    requires p.Valid() && p.end == p.start + days * DAY
    ensures ElapsedDays(p, at) == if p.Contains(at) then (at - p.start) / DAY + 1 else if at < p.start then 0 else days
    ensures p.Contains(at) <==> p.start <= at < p.end
  {
    assert p.start > 0;
    hide Period.Valid;
  }

  /** The projection scales the waste of the elapsed days to the month, so it is at least that waste. */
  lemma ProjectionScales(waste: real, p: Period, at: Time)
    requires p.Valid() && waste >= 0.0
    ensures 0 <= ElapsedDays(p, at) <= (p.end - p.start) / DAY
    ensures ProjectMonthEnd(waste, p, at) >= waste
    ensures ElapsedDays(p, at) > 0 ==>
      ProjectMonthEnd(waste, p, at) * ElapsedDays(p, at) as real == waste * ((p.end - p.start) / DAY) as real
  {
    ElapsedInPeriod(p, at);
    hide Period.Valid, ElapsedDays;
    var days, elapsed := (p.end - p.start) / DAY, ElapsedDays(p, at);
    if elapsed > 0 {
      Scaled(waste, days as real, elapsed as real);
    }
  }

  lemma ElapsedInPeriod(p: Period, at: Time)
    requires p.Valid()
    ensures 0 <= ElapsedDays(p, at) <= (p.end - p.start) / DAY
  {
  }

  lemma Scaled(waste: real, days: real, elapsed: real)
    requires waste >= 0.0 && 0.0 < elapsed <= days
    ensures waste * days / elapsed >= waste && waste * days / elapsed * elapsed == waste * days
  {
    assert waste * days >= waste * elapsed;
    assert waste * elapsed / elapsed == waste;
  }

  // ------------------------------------------------------------------ order independence

  /** Entry ids tell entries apart: they are the repository's key. */
  ghost predicate DistinctEntries(entries: seq<UsageEntry>) {
    forall a, b | a in entries && b in entries :: a.entryId == b.entryId ==> a == b
  }

  lemma {:induction false} ByIdIs(entries: seq<UsageEntry>)
    ensures forall id <- ById(entries).Keys :: ById(entries)[id] in entries && ById(entries)[id].entryId == id
    ensures forall e <- entries :: e.entryId in ById(entries)
  {
    if entries != [] {
      var n := |entries| - 1;
      ByIdIs(entries[..n]);
      assert entries == entries[..n] + [entries[n]];
    }
  }

  lemma SameIndex(entries: seq<UsageEntry>, entries': seq<UsageEntry>)
    requires DistinctEntries(entries) && forall e :: e in entries <==> e in entries'
    ensures ById(entries) == ById(entries')
  {
    hide ById;
    ByIdIs(entries);
    ByIdIs(entries');
    var a, b := ById(entries), ById(entries');
    forall id: string
      ensures id in a <==> id in b
      ensures id in a && id in b ==> a[id] == b[id]
    {
      if id in a {
        assert a[id] in entries';
      }
      if id in b {
        assert b[id] in entries;
      }
    }
  }

  /** The summary does not depend on the order of insights, of entries, or of map iteration. */
  lemma SummaryIgnoresOrder(w: Waste, w': Waste, p: Period, at: Time,
                            entries: seq<UsageEntry>, entries': seq<UsageEntry>,
                            insights: seq<Insight>, insights': seq<Insight>,
                            owned: map<string, Owner>, owned': map<string, Owner>,
                            order: seq<string>, order': seq<string>)
    requires p.Valid() && |w.byDetector| == |w'.byDetector|
    requires IsSummary(w, p, at, entries, insights, owned, order)
    requires IsSummary(w', p, at, entries', insights', owned', order')
    requires multiset(entries) == multiset(entries') && multiset(insights) == multiset(insights')
    requires DistinctEntries(entries) && DistinctIds(insights)
    ensures w == w'
  {
    hide Owned, CostBy, CategoryBy, DayBy, ById, Sums.Sum, Sums.GroupSum, ElapsedDays, Sums.Lists, CountOf,
         Sums.Lawful, DistinctEntries, DistinctIds, Percent, ProjectMonthEnd;
    RealsAdd();
    Elements(entries, entries');
    Elements(insights, insights');
    SameIndex(entries, entries');
    var byId := ById(entries);
    OwnershipIgnoresOrder(owned, owned', byId.Keys, insights, insights');
    Sums.SumPermuted(REALS, entries, entries', SpendOf);
    Sums.SumOfListings(REALS, order, order', owned.Keys, CostBy(byId));
    forall c: Category
      ensures CountOf(insights, c) == CountOf(insights', c)
      ensures Sums.GroupSum(REALS, order, CostBy(byId), CategoryBy(owned), c)
           == Sums.GroupSum(REALS, order', CostBy(byId), CategoryBy(owned), c)
    {
      CountIgnoresOrder(insights, insights', c);
      Sums.GroupSumOfListings(REALS, order, order', owned.Keys, CostBy(byId), CategoryBy(owned), c);
    }
    forall d: Time
      ensures Sums.GroupSum(REALS, order, CostBy(byId), DayBy(byId), d)
           == Sums.GroupSum(REALS, order', CostBy(byId), DayBy(byId), d)
    {
      Sums.GroupSumOfListings(REALS, order, order', owned.Keys, CostBy(byId), DayBy(byId), d);
    }
    assert w.byDetector == w'.byDetector;
    assert w.trend == w'.trend;
    assert w.total == w'.total && w.spend == w'.spend;
    assert w.percent == w'.percent && w.projected == w'.projected;
  }

  lemma Elements<T>(a: seq<T>, b: seq<T>)
    requires multiset(a) == multiset(b)
    ensures forall x :: x in a <==> x in b
  {
    assert forall x :: x in a <==> x in multiset(a);
    assert forall x :: x in b <==> x in multiset(b);
  }

  function CategoryOf(i: Insight): Category { i.category }

  lemma CountIgnoresOrder(a: seq<Insight>, b: seq<Insight>, c: Category)
    requires multiset(a) == multiset(b)
    ensures CountOf(a, c) == CountOf(b, c)
  {
    CountIsGroup(a, c);
    CountIsGroup(b, c);
    Sums.GroupIgnoresOrder(a, b, CategoryOf, c);
    var g, h := Sums.Group(a, CategoryOf, c), Sums.Group(b, CategoryOf, c);
    assert |g| == |multiset(g)| == |multiset(h)| == |h|;
  }

  lemma {:induction false} CountIsGroup(a: seq<Insight>, c: Category)
    ensures CountOf(a, c) == |Sums.Group(a, CategoryOf, c)|
  {
    if a != [] {
      CountIsGroup(a[..|a| - 1], c);
    }
  }
}
