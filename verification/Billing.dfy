/** Subscriptions: the most recent renewal, and the charge of each month. */
module Billing {
  import opened Budget
  import opened Calendar
  import opened Domain
  import Text

  function Min(a: int, b: int): int {
    if a < b then a else b
  }

  // ------------------------------------------------------------------ the most recent renewal

  /** A renewal day that the month does not have is moved to its last day. */
  function Renewal(month: int, renewalDay: int): Time {
    Date(month, Min(renewalDay, DaysInMonth(month)), 0)
  }

  function MostRecentRenewalAt(now: Time, renewalDay: int): Time {
    var anchor := CivilOf(now);
    var candidate := Renewal(anchor.month, renewalDay);
    if candidate > now then
      var previousMonth := CivilOf(AddMonths(now, -1));
      Renewal(previousMonth.month, renewalDay)
    else candidate
  }

  /** The greatest of all renewals that are not in the future. */
  ghost predicate IsMostRecent(r: Time, now: Time, renewalDay: int) {
    && r <= now
    && (exists month :: r == Renewal(month, renewalDay))
    && forall month :: Renewal(month, renewalDay) <= now ==> Renewal(month, renewalDay) <= r
  }

  lemma RenewalIs(month: int, renewalDay: int)
    requires 1 <= renewalDay <= 31
    ensures Renewal(month, renewalDay) == Date(month, Min(renewalDay, DaysIn(month)), 0)
    ensures Civil(month, Min(renewalDay, DaysIn(month)), 0).Valid()
  {
    hide Date, DaysIn, DaysInMonth;
    DaysInMonthIs(month);
  }

  /** A renewal lies after a time exactly when its month or its day does. */
  lemma RenewalAfter(month: int, renewalDay: int, now: Time)
    requires 1 <= renewalDay <= 31
    ensures Renewal(month, renewalDay) > now <==>
      month > CivilOf(now).month || (month == CivilOf(now).month && Min(renewalDay, DaysIn(month)) > CivilOf(now).day)
  {
    RenewalIs(month, renewalDay);
    hide Date, DaysIn, CivilOf, Renewal;
    DatesInOrder(CivilOf(now), Civil(month, Min(renewalDay, DaysIn(month)), 0));
  }

  lemma RenewalsIncrease(a: int, b: int, renewalDay: int)
    requires 1 <= renewalDay <= 31 && a < b
    ensures Renewal(a, renewalDay) < Renewal(b, renewalDay)
  {
    RenewalIs(a, renewalDay);
    RenewalIs(b, renewalDay);
    hide Date, DaysIn, Renewal;
    DatesInOrder(Civil(a, Min(renewalDay, DaysIn(a)), 0), Civil(b, Min(renewalDay, DaysIn(b)), 0));
  }

  /** Going back a month from a day that the previous month does not have lands in the same month again. */
  lemma MonthBefore(now: Time)
    ensures var c := CivilOf(now);
      CivilOf(AddMonths(now, -1)).month == if c.day <= DaysIn(c.month - 1) then c.month - 1 else c.month
  {
    var c := CivilOf(now);
    NextMonth(c.month - 1);
    hide DaysIn, CivilOf, MonthStart;
    if c.day <= DaysIn(c.month - 1) {
      CivilOfDate(Civil(c.month - 1, c.day, c.clock));
    } else {
      CivilOfDate(Civil(c.month, c.day - DaysIn(c.month - 1), c.clock));
      SameDate(c);
    }
  }

  lemma SameDate(c: Civil)
    ensures Date(c.month - 1, c.day, c.clock) == Date(c.month, c.day - DaysIn(c.month - 1), c.clock)
  {
    NextMonth(c.month - 1);
  }

  /** This month's renewal is still to come, on a day after today, and the previous month has no such day as today. */
  predicate SkipsBack(now: Time, renewalDay: int) {
    var c := CivilOf(now);
    c.day < Min(renewalDay, DaysIn(c.month)) && c.day > DaysIn(c.month - 1)
  }

  /** The most recent renewal is found, except on the days that SkipsBack names, and then it is in the future. */
  lemma MostRecentRenewalIff(now: Time, renewalDay: int)
    requires 1 <= renewalDay <= 31
    ensures IsMostRecent(MostRecentRenewalAt(now, renewalDay), now, renewalDay) <==> !SkipsBack(now, renewalDay)
    ensures SkipsBack(now, renewalDay) ==> MostRecentRenewalAt(now, renewalDay) > now
  {
    hide DaysIn, CivilOf, Renewal, AddMonths;
    var c := CivilOf(now);
    var r := MostRecentRenewalAt(now, renewalDay);
    RenewalAfter(c.month, renewalDay, now);
    RenewalAfter(c.month - 1, renewalDay, now);
    MonthBefore(now);
    if !SkipsBack(now, renewalDay) {
      var month := if Renewal(c.month, renewalDay) > now then c.month - 1 else c.month;
      assert r == Renewal(month, renewalDay);
      forall other | Renewal(other, renewalDay) <= now
        ensures Renewal(other, renewalDay) <= r
      {
        RenewalAfter(other, renewalDay, now);
        if other < month {
          RenewalsIncrease(other, month, renewalDay);
        }
      }
    }
  }

  /** That happens late in March only: on the 29th of a common year and on the 30th, before a later renewal day. */
  lemma SkipsBackIsMarch(now: Time, renewalDay: int)
    requires 1 <= renewalDay <= 31
    ensures SkipsBack(now, renewalDay) <==>
      var c := CivilOf(now);
      && c.month % 12 == 2
      && (c.day == 30 || (c.day == 29 && !Leap(Year(c.month))))
      && renewalDay > c.day
  {
    hide CivilOf, Leap;
    var c := CivilOf(now);
    assert Year(c.month - 1) == Year(c.month) || c.month % 12 == 0;
  }

  /** On 30 March of any year, a renewal on the 31st is reported for the following day. */
  lemma RenewalInTheFuture(year: int)
    ensures var now := Date(12 * (year - 1) + 2, 30, 0);
      MostRecentRenewalAt(now, 31) > now && !IsMostRecent(MostRecentRenewalAt(now, 31), now, 31)
  {
    var month := 12 * (year - 1) + 2;
    var now := Date(month, 30, 0);
    assert month % 12 == 2;
    hide CivilOf, MostRecentRenewalAt, IsMostRecent, SkipsBack, Date;
    CivilOfDate(Civil(month, 30, 0));
    SkipsBackIsMarch(now, 31);
    MostRecentRenewalIff(now, 31);
  }

  // ------------------------------------------------------------------ subscriptions

  datatype Subscription = Subscription(id: string, provider: string, planCode: string, planName: string,
                                       renewalDay: int, startsAt: Time, endsAt: Option<Time>, fee: real, active: bool,
                                       createdAt: Time, updatedAt: Time)

  datatype Fee = Fee(id: string, provider: string, planCode: string, chargedAt: Time, period: Period, fee: real)

  function NewSubscription(s: Subscription): Result<Subscription> {
    if Text.Trim(s.id) == "" then Err(Required("subscription_id"))
    else match NewProviderName(s.provider)
      case Err(x) => Err(x)
      case Ok(provider) =>
        var valid := s.(provider := provider, planCode := Text.Trim(s.planCode), planName := Text.Trim(s.planName));
        if valid.planCode == "" then Err(Required("plan_code"))
        else if valid.planName == "" then Err(Required("plan_name"))
        else if s.renewalDay < 1 || s.renewalDay > 31 then Err(InvalidTimestamp("renewal_day"))
        else if s.startsAt == ZERO_TIME then Err(InvalidTimestamp("starts_at"))
        else if s.endsAt.Some? && s.endsAt.value == ZERO_TIME then Err(InvalidTimestamp("ends_at"))
        else if s.endsAt.Some? && s.endsAt.value < s.startsAt then Err(InvalidTimeRange("ends_at"))
        else if !s.active && s.endsAt.None? then Err(InvalidTimeRange("ends_at"))
        else if s.fee < 0.0 then Err(NegativeCost("fee_usd"))
        else if s.createdAt == ZERO_TIME then Err(InvalidTimestamp("created_at"))
        else if s.updatedAt == ZERO_TIME then Err(InvalidTimestamp("updated_at"))
        else if s.updatedAt < s.createdAt then Err(InvalidTimeRange("updated_at"))
        else Ok(valid)
  }

  function ChargeAt(s: Subscription, p: Period): Option<Time> {
    if !p.IsSet() then None
    else
      var lastDay := CivilOf(p.end - DAY).day;
      var chargedAt := Date(CivilOf(p.start).month, Min(s.renewalDay, lastDay), CivilOf(s.startsAt).clock);
      if chargedAt < s.startsAt then None
      else if s.endsAt.Some? && chargedAt >= s.endsAt.value then None
      else Some(chargedAt)
  }

  function NewSubscriptionFee(f: Fee): Result<Fee> {
    if Text.Trim(f.id) == "" then Err(Required("subscription_id"))
    else match NewProviderName(f.provider)
      case Err(x) => Err(x)
      case Ok(provider) =>
        var valid := f.(provider := provider, planCode := Text.Trim(f.planCode));
        if valid.planCode == "" then Err(Required("plan_code"))
        else if f.chargedAt == ZERO_TIME then Err(InvalidTimestamp("charged_at"))
        else if f.fee < 0.0 then Err(NegativeCost("fee_usd"))
        else if f.period.IsSet() then
          if f.period.Contains(f.chargedAt) then Ok(valid) else Err(InvalidTimeRange("charged_at"))
        else match NewMonthlyPeriod(f.chargedAt)
          case Err(x) => Err(x)
          case Ok(p) =>
            if p.Contains(f.chargedAt) then Ok(valid.(period := p)) else Err(InvalidTimeRange("charged_at"))
  }

  function FeeForPeriod(s: Subscription, p: Period): Result<Option<Fee>> {
    match NewSubscription(s)
    case Err(x) => Err(x)
    case Ok(valid) =>
      match ChargeAt(valid, p)
      case None => Ok(None)
      case Some(chargedAt) =>
        match NewSubscriptionFee(Fee(valid.id, valid.provider, valid.planCode, chargedAt, p, valid.fee))
        case Err(x) => Err(x)
        case Ok(fee) => Ok(Some(fee))
  }

  /** Exactly these subscriptions are accepted; only the spelling of provider and plan is changed. */
  lemma SubscriptionAcceptedIff(s: Subscription)
    ensures NewSubscription(s).Ok? <==>
      && Text.Trim(s.id) != "" && NewProviderName(s.provider).Ok?
      && Text.Trim(s.planCode) != "" && Text.Trim(s.planName) != ""
      && 1 <= s.renewalDay <= 31
      && s.startsAt != 0 && s.createdAt != 0 && s.updatedAt != 0 && s.createdAt <= s.updatedAt && 0.0 <= s.fee
      && (if s.endsAt.Some? then s.endsAt.value != 0 && s.startsAt <= s.endsAt.value else s.active)
    ensures NewSubscription(s).Ok? ==>
      NewSubscription(s).value == s.(provider := Lower(Text.Trim(s.provider)), planCode := Text.Trim(s.planCode),
                                     planName := Text.Trim(s.planName))
  {
    NameIs(s.provider);
    hide Text.Trim, NewProviderName, Lower;
  }

  lemma NameIs(raw: string)
    ensures NewProviderName(raw).Ok? ==> NewProviderName(raw).value == Lower(Text.Trim(raw))
  {
  }

  /** And exactly these fees, charged in the period they are for, or in that of their own month where none is given. */
  lemma FeeAcceptedIff(f: Fee)
    ensures var p := if f.period.start == 0 || f.period.end == 0 then NewMonthlyPeriod(f.chargedAt) else Ok(f.period);
      && (NewSubscriptionFee(f).Ok? <==>
            && Text.Trim(f.id) != "" && NewProviderName(f.provider).Ok? && Text.Trim(f.planCode) != ""
            && f.chargedAt != 0 && 0.0 <= f.fee && p.Ok? && p.value.Contains(f.chargedAt))
      && (NewSubscriptionFee(f).Ok? ==>
            NewSubscriptionFee(f).value == f.(provider := Lower(Text.Trim(f.provider)),
                                              planCode := Text.Trim(f.planCode), period := p.value))
  {
    NameIs(f.provider);
    hide Text.Trim, NewProviderName, Lower, NewMonthlyPeriod;
  }

  predicate OverlapsPeriod(s: Subscription, p: Period) {
    p.IsSet() && s.startsAt < p.end && (s.endsAt.None? || s.endsAt.value > p.start)
  }

  // ------------------------------------------------------------------ charges

  /** The day and clock of a subscription's charge in a month, whether or not it runs then. */
  function ChargeTime(s: Subscription, month: int): Time {
    Date(month, Min(s.renewalDay, DaysIn(month)), CivilOf(s.startsAt).clock)
  }

  predicate Runs(s: Subscription, t: Time) {
    s.startsAt <= t && (s.endsAt.None? || t < s.endsAt.value)
  }

  predicate IsCharged(s: Subscription, month: int) {
    ChargeAt(s, MonthPeriod(month)).Some?
  }

  predicate DayInRange(s: Subscription) {
    1 <= s.renewalDay <= 31
  }

  /** A month is charged exactly when the subscription runs at its charge time. */
  lemma ChargeIs(s: Subscription, month: int)
    requires month > 0
    ensures ChargeAt(s, MonthPeriod(month))
         == if Runs(s, ChargeTime(s, month)) then Some(ChargeTime(s, month)) else None
  {
    LastDay(month);
    hide CivilOf, Date, MonthPeriod, DaysIn, Period.Valid;
  }

  lemma LastDay(month: int)
    requires month > 0
    ensures var p := MonthPeriod(month);
      p.IsSet() && CivilOf(p.start).month == month && CivilOf(p.end - DAY).day == DaysIn(month)
  {
    MonthPeriodIs(month);
    assert Date(month + 1, 1, 0) - DAY == Date(month + 1, 0, 0);
    hide CivilOf, Date, MonthPeriod, DaysIn;
    DaysInMonthIs(month);
    CivilOfDate(Civil(month, 1, 0));
  }

  lemma ChargeInMonth(s: Subscription, month: int)
    requires DayInRange(s) && month > 0
    ensures MonthPeriod(month).Contains(ChargeTime(s, month))
  {
    MonthPeriodIs(month);
    assert MonthPeriod(month).start > 0;
    hide CivilOf, Date, MonthPeriod, DaysIn, Period.Valid;
    var c := Civil(month, Min(s.renewalDay, DaysIn(month)), CivilOf(s.startsAt).clock);
    DatesInOrder(c, Civil(month, 1, 0));
    DatesInOrder(c, Civil(month + 1, 1, 0));
  }

  lemma ChargeTimesIncrease(s: Subscription, a: int, b: int)
    requires DayInRange(s) && a < b
    ensures ChargeTime(s, a) < ChargeTime(s, b)
  {
    hide CivilOf, Date, DaysIn;
    var clock := CivilOf(s.startsAt).clock;
    DatesInOrder(Civil(a, Min(s.renewalDay, DaysIn(a)), clock), Civil(b, Min(s.renewalDay, DaysIn(b)), clock));
  }

  /** A fee lies in its month, is at the charge time, and fees of later months are later. */
  lemma ChargesIncrease(s: Subscription, a: int, b: int)
    requires DayInRange(s) && 0 < a < b && IsCharged(s, a) && IsCharged(s, b)
    ensures ChargeAt(s, MonthPeriod(a)).value < ChargeAt(s, MonthPeriod(b)).value
    ensures MonthPeriod(a).Contains(ChargeAt(s, MonthPeriod(a)).value)
  {
    ChargeIs(s, a);
    ChargeIs(s, b);
    hide ChargeAt, ChargeTime, MonthPeriod;
    ChargeTimesIncrease(s, a, b);
    ChargeInMonth(s, a);
  }

  /** The charged months form one interval: there is no gap between two of them. */
  lemma ChargedMonthsAreContiguous(s: Subscription, a: int, b: int, c: int)
    requires DayInRange(s) && 0 < a < b < c && IsCharged(s, a) && IsCharged(s, c)
    ensures IsCharged(s, b)
  {
    ChargeIs(s, a);
    ChargeIs(s, b);
    ChargeIs(s, c);
    hide ChargeAt, ChargeTime, MonthPeriod;
    ChargeTimesIncrease(s, a, b);
    ChargeTimesIncrease(s, b, c);
  }

  /** A charged month overlaps the subscription. */
  lemma ChargedOverlaps(s: Subscription, month: int)
    requires DayInRange(s) && month > 0 && IsCharged(s, month)
    ensures OverlapsPeriod(s, MonthPeriod(month))
  {
    ChargeIs(s, month);
    hide ChargeAt, ChargeTime, MonthPeriod;
    ChargeInMonth(s, month);
  }

  /** A subscription that NewSubscription accepted gets its fee: NewSubscriptionFee refuses no charge. */
  lemma FeeIsNeverRefused(s: Subscription, month: int)
    requires NewSubscription(s).Ok? && month > 0
    ensures FeeForPeriod(s, MonthPeriod(month)) == Ok(
      if Runs(s, ChargeTime(s, month))
      then Some(Fee(s.id, NewProviderName(s.provider).value, Text.Trim(s.planCode), ChargeTime(s, month),
                    MonthPeriod(month), s.fee))
      else None)
  {
    hide ChargeAt, ChargeTime, MonthPeriod, NewProviderName, Text.Trim, NewSubscription, NewSubscriptionFee, Runs;
    var valid := NewSubscription(s).value;
    ValidSubscription(s);
    ChargeIs(valid, month);
    ChargeInMonth(valid, month);
    SameChargeTime(s, valid, month);
    var t, p := ChargeTime(s, month), MonthPeriod(month);
    ChargeIsAccepted(Fee(valid.id, valid.provider, valid.planCode, t, p, valid.fee));
  }

  lemma ValidSubscription(s: Subscription)
    requires NewSubscription(s).Ok?
    ensures var valid := NewSubscription(s).value;
      && valid.id == s.id && valid.provider == NewProviderName(s.provider).value
      && valid.planCode == Text.Trim(s.planCode) && valid.fee == s.fee
      && valid.renewalDay == s.renewalDay && valid.startsAt == s.startsAt && valid.endsAt == s.endsAt
    ensures var valid := NewSubscription(s).value;
      && DayInRange(valid) && Text.Trim(valid.id) != "" && NewProviderName(valid.provider) == Ok(valid.provider)
      && Text.Trim(valid.planCode) == valid.planCode != "" && valid.fee >= 0.0
  {
    hide NewProviderName, Text.Trim;
    SlugIsStable(s.provider);
    Text.TrimIdempotent(s.planCode);
  }

  lemma ChargeIsAccepted(f: Fee)
    requires Text.Trim(f.id) != "" && NewProviderName(f.provider) == Ok(f.provider)
    requires Text.Trim(f.planCode) == f.planCode != "" && f.fee >= 0.0
    requires f.period.Contains(f.chargedAt)
    ensures NewSubscriptionFee(f) == Ok(f)
  {
    hide NewProviderName, Text.Trim;
  }

  lemma SameChargeTime(s: Subscription, t: Subscription, month: int)
    requires s.renewalDay == t.renewalDay && s.startsAt == t.startsAt
    ensures ChargeTime(s, month) == ChargeTime(t, month)
    ensures s.endsAt == t.endsAt ==> (Runs(s, ChargeTime(s, month)) <==> Runs(t, ChargeTime(s, month)))
  {
  }
}
