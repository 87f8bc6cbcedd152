/** The monthly roll-up of subscription fees, and the fees it keeps in the database. */
module SubscriptionRollup {
  import opened Billing
  import opened Budget
  import opened Calendar
  import opened Domain
  import Text
  import Timestamps

  /** The fee table's key: subscription id and start of the period. */
  datatype FeeKey = FeeKey(id: string, start: Time)

  function KeyOf(f: Fee): FeeKey {
    FeeKey(f.id, f.period.start)
  }

  /** ListSubscriptions for a period: the active ones that the query finds, which compares times as texts. */
  function Listed(subscriptions: seq<Subscription>, p: Period): seq<Subscription> {
    if subscriptions == [] then []
    else
      var last := subscriptions[|subscriptions| - 1];
      Listed(subscriptions[..|subscriptions| - 1], p)
      + if last.active && Timestamps.SubscriptionFilter(last, p) then [last] else []
  }

  function Active(subscriptions: seq<Subscription>): seq<Subscription> {
    if subscriptions == [] then []
    else
      var last := subscriptions[|subscriptions| - 1];
      Active(subscriptions[..|subscriptions| - 1]) + if last.active then [last] else []
  }

  /** The first error ends the roll-up; a month that is not charged adds no fee. */
  function AddFee(due: Result<seq<Fee>>, fee: Result<Option<Fee>>): Result<seq<Fee>> {
    match due
    case Err(x) => Err(x)
    case Ok(fees) =>
      match fee
      case Err(x) => Err(x)
      case Ok(None) => Ok(fees)
      case Ok(Some(f)) => Ok(fees + [f])
  }

  function FeesOf(subscriptions: seq<Subscription>, p: Period): Result<seq<Fee>> {
    if subscriptions == [] then Ok([])
    else
      var n := |subscriptions| - 1;
      AddFee(FeesOf(subscriptions[..n], p), FeeForPeriod(subscriptions[n], p))
  }

  lemma FeesOfOne(subscriptions: seq<Subscription>, s: Subscription, p: Period)
    ensures FeesOf(subscriptions + [s], p) == AddFee(FeesOf(subscriptions, p), FeeForPeriod(s, p))
  {
    hide AddFee, FeeForPeriod;
    assert (subscriptions + [s])[..|subscriptions|] == subscriptions;
  }

  function UpsertFees(table: map<FeeKey, Fee>, fees: seq<Fee>): map<FeeKey, Fee> {
    if fees == [] then table
    else UpsertFees(table, fees[..|fees| - 1])[KeyOf(fees[|fees| - 1]) := fees[|fees| - 1]]
  }

  function Ids(subscriptions: seq<Subscription>): set<string> {
    set s <- subscriptions :: s.id
  }

  /** The fees of a period in the table, for the given subscriptions. */
  function FeesListed(table: map<FeeKey, Fee>, p: Period, ids: set<string>): map<FeeKey, Fee> {
    map k | k in table && k.start == p.start && k.id in ids :: table[k]
  }

  class SubscriptionService {
    var subscriptions: seq<Subscription>
    var fees: map<FeeKey, Fee>

    constructor (rows: seq<Subscription>)
      ensures subscriptions == rows && fees == map[]
    {
      subscriptions, fees := rows, map[];
    }

    /** The flag is a failure of the fee table's transaction, which is not begun when no fee is due. */
    method RollupMonthlySpend(p: Period, upsertFails: bool) returns (r: Result<map<FeeKey, Fee>>)
      modifies this`fees
      ensures var due := FeesOf(Listed(subscriptions, p), p);
        if due.Err? then r == Err(due.error) && fees == old(fees)
        else if due.value != [] && upsertFails then r == Err(RepositoryFailure) && fees == old(fees)
        else
          && fees == UpsertFees(old(fees), due.value)
          && r == Ok(FeesListed(fees, p, Ids(Listed(subscriptions, p))))
    {
      hide FeeForPeriod, UpsertFees, FeesListed, Listed;
      var listed := Listed(subscriptions, p);
      var due: seq<Fee> := [];
      for i := 0 to |listed|
        invariant FeesOf(listed[..i], p) == Ok(due) && fees == old(fees)
      {
        assert listed[..i + 1][..i] == listed[..i];
        var fee := FeeForPeriod(listed[i], p);
        if fee.Err? {
          ErrorStays(listed, i + 1, p);
          return Err(fee.error);
        }
        if fee.value.Some? {
          due := due + [fee.value.value];
        }
      }
      assert listed[..|listed|] == listed;
      if due != [] && upsertFails {
        return Err(RepositoryFailure);
      }
      fees := UpsertFees(fees, due);
      r := Ok(FeesListed(fees, p, Ids(listed)));
    }
  }

  lemma {:induction false} ErrorStays(subscriptions: seq<Subscription>, n: nat, p: Period)
    requires n <= |subscriptions| && FeesOf(subscriptions[..n], p).Err?
    ensures FeesOf(subscriptions, p) == FeesOf(subscriptions[..n], p)
  {
    hide FeeForPeriod;
    if n < |subscriptions| {
      var m := |subscriptions| - 1;
      assert subscriptions[..m][..n] == subscriptions[..n];
      ErrorStays(subscriptions[..m], n, p);
    } else {
      assert subscriptions[..n] == subscriptions;
    }
  }

  // ------------------------------------------------------------------ what the filter loses

  ghost predicate AllValid(subscriptions: seq<Subscription>) {
    forall s <- subscriptions :: NewSubscription(s).Ok?
  }

  /** Active subscriptions that are charged in the month, and those of them the query finds. */
  predicate ActiveCharge(s: Subscription, month: int) {
    s.active && IsCharged(s, month)
  }

  predicate Finds(s: Subscription, month: int) {
    Timestamps.SubscriptionFilter(s, MonthPeriod(month))
  }

  /** The fees of those listed are those of all active subscriptions exactly when all that are charged are found. */
  lemma {:induction false} ListedFeesIff(subscriptions: seq<Subscription>, month: int)
    requires month > 0 && AllValid(subscriptions)
    ensures var p := MonthPeriod(month);
      var listed, active := FeesOf(Listed(subscriptions, p), p), FeesOf(Active(subscriptions), p);
      && listed.Ok? && active.Ok? && |listed.value| <= |active.value|
      && (listed == active <==> forall s <- subscriptions :: ActiveCharge(s, month) ==> Finds(s, month))
  {
    hide *;
    if subscriptions == [] {
      NoneListed(MonthPeriod(month));
    } else {
      var n, p := |subscriptions| - 1, MonthPeriod(month);
      var front, last := subscriptions[..n], subscriptions[n];
      assert subscriptions == front + [last];
      ValidParts(front, last);
      ListedFeesIff(front, month);
      ListedOne(front, last, month);
      FeesOfOne(Active(front), last, p);
      FeesOfOne(Listed(front, p), last, p);
      FeeOfCharge(last, month);
      OneFeeMore(FeesOf(Listed(front, p), p), FeesOf(Active(front), p), FeeForPeriod(last, p));
      assert forall s :: s in subscriptions <==> s in front || s == last;
    }
  }

  lemma NoneListed(p: Period)
    ensures Listed([], p) == Active([]) == [] && FeesOf([], p) == Ok([])
  {
  }

  lemma ValidParts(front: seq<Subscription>, last: Subscription)
    requires AllValid(front + [last])
    ensures AllValid(front) && NewSubscription(last).Ok?
  {
    hide NewSubscription;
    assert last in front + [last] && forall s <- front :: s in front + [last];
  }

  lemma ListedOne(front: seq<Subscription>, last: Subscription, month: int)
    ensures var p := MonthPeriod(month);
      && Listed(front + [last], p) == Listed(front, p) + (if last.active && Finds(last, month) then [last] else [])
      && Active(front + [last]) == Active(front) + (if last.active then [last] else [])
      && Listed(front, p) + [] == Listed(front, p) && Active(front) + [] == Active(front)
      && (ActiveCharge(last, month) <==> last.active && IsCharged(last, month))
  {
    hide Timestamps.SubscriptionFilter, MonthPeriod, IsCharged;
    assert (front + [last])[..|front|] == front;
  }

  lemma FeeOfCharge(s: Subscription, month: int)
    requires month > 0 && NewSubscription(s).Ok?
    ensures FeeForPeriod(s, MonthPeriod(month)).Ok?
    ensures FeeForPeriod(s, MonthPeriod(month)).value.Some? <==> IsCharged(s, month)
  {
    assert DayInRange(s);
    hide NewSubscription, FeeForPeriod, MonthPeriod, ChargeAt;
    FeeIsNeverRefused(s, month);
    ChargeIs(s, month);
  }

  /** A fee added to both lists keeps them equal or different; one added to the longer list only makes them differ. */
  lemma OneFeeMore(listed: Result<seq<Fee>>, active: Result<seq<Fee>>, fee: Result<Option<Fee>>)
    requires listed.Ok? && active.Ok? && fee.Ok? && |listed.value| <= |active.value|
    ensures AddFee(listed, fee).Ok? && AddFee(active, fee).Ok?
    ensures |AddFee(listed, fee).value| <= |AddFee(active, fee).value|
    ensures |listed.value| <= |AddFee(active, fee).value|
    ensures AddFee(listed, fee) == AddFee(active, fee) <==> listed == active
    ensures listed == AddFee(active, fee) <==> listed == active && fee.value.None?
  {
    if fee.value.Some? {
      var x := [fee.value.value];
      assert (listed.value + x)[..|listed.value|] == listed.value;
      assert (active.value + x)[..|active.value|] == active.value;
    }
  }

  /** Ends within a fraction of the month's first second; or December of year 9999, whose end the query misreads. */
  predicate Overlooked(s: Subscription, month: int) {
    || (s.endsAt.Some? && Timestamps.JustAfter(s.endsAt.value, MonthPeriod(month).start))
    || (month == Timestamps.LAST_MONTH - 1 && Year(CivilOf(s.startsAt).month) > 1000)
  }

  ghost predicate AllFourDigits(subscriptions: seq<Subscription>) {
    forall s <- subscriptions :: FourDigits(s)
  }

  predicate FourDigits(s: Subscription) {
    Timestamps.FourDigitYear(s.startsAt) && (s.endsAt.Some? ==> Timestamps.FourDigitYear(s.endsAt.value))
  }

  /** A charged subscription overlaps the month, so the query finds it unless the texts mislead it. */
  lemma FoundIff(s: Subscription, month: int)
    requires 0 < month < Timestamps.LAST_MONTH && NewSubscription(s).Ok? && IsCharged(s, month) && FourDigits(s)
    ensures Finds(s, month) <==> !Overlooked(s, month)
  {
    assert DayInRange(s) && (s.endsAt.Some? ==> s.startsAt <= s.endsAt.value);
    hide NewSubscription, MonthPeriod, ChargeAt, CivilOf, Timestamps.SubscriptionFilter, Timestamps.FourDigitYear;
    ChargedOverlaps(s, month);
    Timestamps.SubscriptionFilterIff(s, month);
    Timestamps.MonthBoundaries(month);
  }

  /**
    * What the month's roll-up is asked for: the fees of those the query finds are the fees of all active subscriptions
    * if and only if none of the active subscriptions charged in the month ends within a fraction of the month's first
    * second (and, in December of year 9999, none of them started after year 1000).
    */
  lemma FilterLosesNothingIff(subscriptions: seq<Subscription>, month: int)
    requires 0 < month < Timestamps.LAST_MONTH && AllValid(subscriptions) && AllFourDigits(subscriptions)
    ensures FeesOf(Listed(subscriptions, MonthPeriod(month)), MonthPeriod(month))
         == FeesOf(Active(subscriptions), MonthPeriod(month))
       <==> forall s <- subscriptions :: ActiveCharge(s, month) ==> !Overlooked(s, month)
  {
    hide NewSubscription, FeesOf, Listed, Active, MonthPeriod, IsCharged, Finds, Overlooked, FourDigits;
    ListedFeesIff(subscriptions, month);
    forall s <- subscriptions | ActiveCharge(s, month)
      ensures Finds(s, month) <==> !Overlooked(s, month)
    {
      FoundIff(s, month);
    }
  }

  /** A subscription of half a second, from the start of a month on. */
  function Brief(month: int): Subscription {
    var start := Date(month, 1, 0);
    Subscription("s", "p", "c", "n", 1, start, Some(start + SECOND / 2), 20.0, true, 1, 1)
  }

  lemma BriefIsCharged(month: int)
    requires month > 0
    ensures NewSubscription(Brief(month)).Ok? && IsCharged(Brief(month), month)
    ensures Timestamps.JustAfter(Brief(month).endsAt.value, MonthPeriod(month).start)
  {
    var s := Brief(month);
    NamesAreValid();
    MonthPeriodIs(month);
    assert MonthPeriod(month).start > 0;
    CivilOfDate(Civil(month, 1, 0));
    assert Min(1, DaysIn(month)) == 1;
    hide Text.Trim, NewProviderName, MonthPeriod, Date, CivilOf, DaysIn, ChargeAt;
    ChargeIs(s, month);
  }

  /** It is accepted and charged, but the query does not find it, and its fee is lost. */
  lemma FeeLost(month: int)
    requires 0 < month < Timestamps.LAST_MONTH
    ensures var p := MonthPeriod(month);
      && Listed([Brief(month)], p) == [] && FeesOf(Listed([Brief(month)], p), p) == Ok([])
      && FeesOf(Active([Brief(month)]), p).Ok? && |FeesOf(Active([Brief(month)]), p).value| == 1
  {
    hide *;
    var s, p := Brief(month), MonthPeriod(month);
    BriefIsCharged(month);
    BriefIsOverlooked(month);
    FoundIff(s, month);
    FeeOfCharge(s, month);
    NoneListed(p);
    ListedOne([], s, month);
    FeesOfOne([], s, p);
    assert [] + [s] == [s];
    FirstFee(FeeForPeriod(s, p));
  }

  lemma FirstFee(fee: Result<Option<Fee>>)
    requires fee.Ok? && fee.value.Some?
    ensures AddFee(Ok([]), fee).Ok? && |AddFee(Ok([]), fee).value| == 1
  {
  }

  lemma BriefIsOverlooked(month: int)
    requires 0 < month < Timestamps.LAST_MONTH
    ensures Brief(month).active && FourDigits(Brief(month)) && Overlooked(Brief(month), month)
  {
    hide CivilOf, DaysIn, MonthPeriod, Date, IsCharged, NewSubscription, Timestamps.JustAfter, Timestamps.FourDigitYear;
    BriefIsCharged(month);
    FirstDay(month, 0);
    FirstDay(month, SECOND / 2);
    HalfSecond(month);
  }

  lemma FirstDay(month: int, clock: int)
    requires 0 < month < Timestamps.LAST_MONTH && 0 <= clock < DAY
    ensures Timestamps.FourDigitYear(Date(month, 1, clock))
  {
    hide CivilOf, Date, DaysIn;
    CivilOfDate(Civil(month, 1, clock));
  }

  lemma HalfSecond(month: int)
    ensures Date(month, 1, SECOND / 2) == Date(month, 1, 0) + SECOND / 2
  {
    hide MonthStart;
  }

  // ------------------------------------------------------------------ fees that stay behind

  ghost predicate DistinctIds(subscriptions: seq<Subscription>) {
    forall i, j :: 0 <= i < j < |subscriptions| ==> subscriptions[i].id != subscriptions[j].id
  }

  predicate NotCharged(s: Subscription, p: Period) {
    FeeForPeriod(s, p) == Ok(None)
  }

  /** The fees due, by key. */
  function FeesDue(subscriptions: seq<Subscription>, p: Period): map<FeeKey, Fee> {
    if FeesOf(subscriptions, p).Ok? then UpsertFees(map[], FeesOf(subscriptions, p).value) else map[]
  }

  lemma {:induction false} UpsertIs(table: map<FeeKey, Fee>, fees: seq<Fee>)
    ensures UpsertFees(table, fees) == table + UpsertFees(map[], fees)
  {
    if fees != [] {
      UpsertIs(table, fees[..|fees| - 1]);
    }
  }

  function ChargedKeys(subscriptions: seq<Subscription>, p: Period): set<FeeKey> {
    set s <- subscriptions | !NotCharged(s, p) :: FeeKey(s.id, p.start)
  }

  /** There is one fee due for each subscription that is charged. */
  lemma {:induction false} DueKeys(subscriptions: seq<Subscription>, p: Period)
    requires FeesOf(subscriptions, p).Ok?
    ensures FeesDue(subscriptions, p).Keys == ChargedKeys(subscriptions, p)
  {
    hide *;
    if subscriptions == [] {
      NothingDue(p);
    } else {
      var n := |subscriptions| - 1;
      var front, last := subscriptions[..n], subscriptions[n];
      assert subscriptions == front + [last];
      DueOfOne(front, last, p);
      DueKeys(front, p);
      ChargedOne(front, last, p);
    }
  }

  lemma NothingDue(p: Period)
    ensures FeesDue([], p) == map[] && ChargedKeys([], p) == {}
  {
  }

  lemma ChargedOne(front: seq<Subscription>, last: Subscription, p: Period)
    ensures ChargedKeys(front + [last], p)
         == ChargedKeys(front, p) + if NotCharged(last, p) then {} else {FeeKey(last.id, p.start)}
  {
    hide NotCharged;
    assert forall s :: s in front + [last] <==> s in front || s == last;
  }

  lemma DueOfOne(front: seq<Subscription>, last: Subscription, p: Period)
    requires FeesOf(front + [last], p).Ok?
    ensures FeesOf(front, p).Ok?
    ensures FeesDue(front + [last], p).Keys
         == FeesDue(front, p).Keys + if NotCharged(last, p) then {} else {FeeKey(last.id, p.start)}
  {
    FeesOfOne(front, last, p);
    hide FeeForPeriod, FeesOf, UpsertFees;
    if !NotCharged(last, p) {
      FeeNames(last, p);
      UpsertOne(map[], FeesOf(front, p).value, FeeForPeriod(last, p).value.value);
    }
  }

  lemma UpsertOne(table: map<FeeKey, Fee>, fees: seq<Fee>, f: Fee)
    ensures UpsertFees(table, fees + [f]) == UpsertFees(table, fees)[KeyOf(f) := f]
  {
    assert (fees + [f])[..|fees|] == fees;
  }

  lemma FeeNames(s: Subscription, p: Period)
    requires FeeForPeriod(s, p).Ok? && FeeForPeriod(s, p).value.Some?
    ensures KeyOf(FeeForPeriod(s, p).value.value) == FeeKey(s.id, p.start)
  {
    hide CivilOf, Date, Text.Trim, NewProviderName, NewMonthlyPeriod;
  }

  /**
    * What is reported are the fees due, exactly when no subscription of the month that is not charged has left a fee
    * in the table: a fee is replaced when its charge changes, but not removed when its charge disappears.
    */
  lemma ReportedIffNothingStays(table: map<FeeKey, Fee>, listed: seq<Subscription>, p: Period)
    requires DistinctIds(listed) && FeesOf(listed, p).Ok?
    ensures FeesListed(UpsertFees(table, FeesOf(listed, p).value), p, Ids(listed)) == FeesDue(listed, p)
       <==> forall s <- listed :: NotCharged(s, p) ==> FeeKey(s.id, p.start) !in table
  {
    hide *;
    DueIs(listed, p);
    UpsertIs(table, FeesOf(listed, p).value);
    DueKeys(listed, p);
    ChargedAreListed(listed, p);
    ReportedIs(table, FeesDue(listed, p), p, Ids(listed));
    NothingStays(table, listed, p);
  }

  lemma DueIs(listed: seq<Subscription>, p: Period)
    requires FeesOf(listed, p).Ok?
    ensures FeesDue(listed, p) == UpsertFees(map[], FeesOf(listed, p).value)
  {
  }

  lemma ChargedAreListed(listed: seq<Subscription>, p: Period)
    ensures forall k <- ChargedKeys(listed, p) :: k.start == p.start && k.id in Ids(listed)
  {
    hide NotCharged;
  }

  /** A fee is reported when it is due, or left in the table for a listed subscription. */
  lemma ReportedIs(table: map<FeeKey, Fee>, due: map<FeeKey, Fee>, p: Period, ids: set<string>)
    requires forall k <- due.Keys :: k.start == p.start && k.id in ids
    ensures FeesListed(table + due, p, ids) == due
       <==> forall k <- table.Keys :: k.start == p.start && k.id in ids ==> k in due.Keys
  {
    var reported := FeesListed(table + due, p, ids);
    assert forall k <- due.Keys :: k in reported && reported[k] == due[k];
    if forall k <- table.Keys :: k.start == p.start && k.id in ids ==> k in due.Keys {
      assert reported.Keys == due.Keys;
    } else {
      var k :| k in table && k.start == p.start && k.id in ids && k !in due.Keys;
      assert k in reported;
    }
  }

  lemma NothingStays(table: map<FeeKey, Fee>, listed: seq<Subscription>, p: Period)
    requires DistinctIds(listed)
    ensures (forall k <- table.Keys :: k.start == p.start && k.id in Ids(listed) ==> k in ChargedKeys(listed, p))
       <==> forall s <- listed :: NotCharged(s, p) ==> FeeKey(s.id, p.start) !in table
  {
    hide NotCharged;
    forall s <- listed
      ensures FeeKey(s.id, p.start) in ChargedKeys(listed, p) <==> !NotCharged(s, p)
      ensures s.id in Ids(listed)
    {
      assert forall x <- listed :: x.id == s.id ==> x == s;
    }
    forall k <- table.Keys | k.start == p.start && k.id in Ids(listed)
      ensures exists s :: s in listed && k == FeeKey(s.id, p.start)
    {
      var s :| s in listed && s.id == k.id;
      assert k == FeeKey(s.id, p.start);
    }
  }

  /** A subscription that renews on the 15th of a month. */
  function Monthly(month: int, endsAt: Option<Time>): Subscription {
    Subscription("s", "p", "c", "n", 15, Date(month, 1, 0), endsAt, 20.0, true, 1, 1)
  }

  lemma MonthlyIsValid(month: int, endsAt: Option<Time>)
    requires month > 0 && (endsAt == None || endsAt == Some(Date(month, 10, 0)))
    ensures NewSubscription(Monthly(month, endsAt)) == Ok(Monthly(month, endsAt))
    ensures OverlapsPeriod(Monthly(month, endsAt), MonthPeriod(month))
  {
    MonthPeriodIs(month);
    assert MonthPeriod(month).start > 0;
    hide Date, MonthPeriod, CivilOf, Period.Valid, DaysIn;
    DatesInOrder(Civil(month, 1, 0), Civil(month, 10, 0));
    DatesInOrder(Civil(month, 1, 0), Civil(month + 1, 1, 0));
    NamesAreValid();
    hide Text.Trim, NewProviderName;
  }

  lemma NamesAreValid()
    ensures Text.Trim("s") == "s" && Text.Trim("c") == "c" && Text.Trim("n") == "n" && NewProviderName("p") == Ok("p")
  {
    assert Text.Trim("s") == "s" && Text.Trim("c") == "c" && Text.Trim("n") == "n" && Text.Trim("p") == "p";
    assert Lower("p") == "p";
  }

  lemma MonthlyIsCharged(month: int, endsAt: Option<Time>)
    requires month > 0 && (endsAt == None || endsAt == Some(Date(month, 10, 0)))
    ensures NotCharged(Monthly(month, endsAt), MonthPeriod(month)) <==> endsAt.Some?
  {
    hide NewSubscription, FeeForPeriod, MonthPeriod, Date, CivilOf;
    var s := Monthly(month, endsAt);
    MonthlyIsValid(month, endsAt);
    FeeIsNeverRefused(s, month);
    CivilOfDate(Civil(month, 1, 0));
    DatesInOrder(Civil(month, 1, 0), Civil(month, 15, 0));
    DatesInOrder(Civil(month, 10, 0), Civil(month, 15, 0));
  }

  /** Ending a subscription on the 10th, after its fee of the 15th was rolled up, leaves the fee reported. */
  lemma FeeStays(month: int)
    requires month > 0
    ensures var p := MonthPeriod(month);
      var before, after := [Monthly(month, None)], [Monthly(month, Some(Date(month, 10, 0)))];
      && FeesOf(before, p).Ok? && FeesOf(after, p).Ok?
      && FeesListed(UpsertFees(FeesDue(before, p), FeesOf(after, p).value), p, Ids(after)) != FeesDue(after, p)
  {
    hide NewSubscription, FeeForPeriod, MonthPeriod, Date, FeesListed, UpsertFees;
    var p := MonthPeriod(month);
    var ends := Some(Date(month, 10, 0));
    var before, after := [Monthly(month, None)], [Monthly(month, ends)];
    MonthlyIsValid(month, None);
    MonthlyIsValid(month, ends);
    FeeIsNeverRefused(before[0], month);
    FeeIsNeverRefused(after[0], month);
    MonthlyIsCharged(month, None);
    MonthlyIsCharged(month, ends);
    DueKeys(before, p);
    assert before[0] in before && after[0] in after;
    assert FeeKey("s", p.start) in FeesDue(before, p);
    ReportedIffNothingStays(FeesDue(before, p), after, p);
  }
}
