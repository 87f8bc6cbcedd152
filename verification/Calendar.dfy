/** The civil calendar: months counted from January of year 1, days, and the clock. */
module Calendar {
  import opened Budget
  import opened Domain

  function Year(month: int): int {
    month / 12 + 1
  }

  predicate Leap(year: int) {
    year % 4 == 0 && (year % 100 != 0 || year % 400 == 0)
  }

  function DaysIn(month: int): (n: int)
    ensures 28 <= n <= 31
  {
    match month % 12
    case 1 => if Leap(Year(month)) then 29 else 28
    case 3 => 30
    case 5 => 30
    case 8 => 30
    case 10 => 30
    case _ => 31
  }

  /** Days from 1 January of year 1 to the first of the month. */
  function MonthStart(month: int): int
    decreases if month < 0 then -month else month
  {
    if month == 0 then 0
    else if month > 0 then MonthStart(month - 1) + DaysIn(month - 1)
    else MonthStart(month + 1) - DaysIn(month)
  }

  lemma NextMonth(month: int)
    ensures MonthStart(month + 1) == MonthStart(month) + DaysIn(month)
  {
  }

  lemma {:induction false} MonthsIncrease(a: int, b: int)
    requires a <= b
    ensures MonthStart(b) >= MonthStart(a) + 28 * (b - a)
    decreases b - a
  {
    if a < b {
      MonthsIncrease(a, b - 1);
      NextMonth(b - 1);
      hide MonthStart, DaysIn;
    }
  }

  // ------------------------------------------------------------------ the Gregorian calendar in closed form

  /** A leap day for every fourth year, but not for every hundredth, and yet for every four-hundredth. */
  lemma LeapDay(year: int)
    ensures (year / 4 - year / 100 + year / 400) - ((year - 1) / 4 - (year - 1) / 100 + (year - 1) / 400)
         == if Leap(year) then 1 else 0
  {
    Steps(year, 4);
    Steps(year, 100);
    Steps(year, 400);
  }

  lemma Steps(n: int, k: int)
    requires k in {4, 100, 400}
    ensures n / k - (n - 1) / k == if n % k == 0 then 1 else 0
  {
  }

  /** Within a year: the months before, of 30.6 days on average, less what February lacks. */
  lemma {:induction false} InYear(year: int, m: int)
    requires 1 <= m <= 12
    ensures MonthStart(12 * (year - 1) + m - 1)
         == MonthStart(12 * (year - 1)) + (367 * m - 362) / 12
            - if m <= 2 then 0 else if Leap(year) then 1 else 2
    decreases m
  {
    hide *;
    if m > 1 {
      InYear(year, m - 1);
      NextMonth(12 * (year - 1) + m - 2);
      LengthInYear(year, m - 1);
      MonthLengths(m, if Leap(year) then 1 else 0);
    }
  }

  lemma MonthLengths(m: int, leapDay: int)
    requires 2 <= m <= 12 && leapDay in {0, 1}
    ensures (367 * m - 362) / 12 - (if m <= 2 then 0 else 2 - leapDay)
         == (367 * (m - 1) - 362) / 12 - (if m - 1 <= 2 then 0 else 2 - leapDay)
            + if m - 1 == 2 then 28 + leapDay else if m - 1 in {4, 6, 9, 11} then 30 else 31
  {
  }

  lemma LengthInYear(year: int, m: int)
    requires 1 <= m <= 12
    ensures var month := 12 * (year - 1) + m - 1;
      DaysIn(month) == if m == 2 then (if Leap(year) then 29 else 28) else if m in {4, 6, 9, 11} then 30 else 31
  {
    hide Leap;
    assert (12 * (year - 1) + m - 1) % 12 == m - 1 && Year(12 * (year - 1) + m - 1) == year;
  }

  lemma {:induction false} YearsBefore(year: int)
    requires year >= 1
    ensures MonthStart(12 * (year - 1)) == 365 * (year - 1) + (year - 1) / 4 - (year - 1) / 100 + (year - 1) / 400
  {
    hide *;
    if year == 1 {
      StartOfTime();
    } else {
      YearsBefore(year - 1);
      InYear(year - 1, 12);
      NextMonth(12 * (year - 1) - 1);
      LengthInYear(year - 1, 12);
      LeapDay(year - 1);
    }
  }

  /** The days from 1 January of year 1 to the first of any month. */
  lemma MonthStartIs(year: int, m: int)
    requires year >= 1 && 1 <= m <= 12
    ensures var leapDay := (year / 4 - year / 100 + year / 400)
                           - ((year - 1) / 4 - (year - 1) / 100 + (year - 1) / 400);
      MonthStart(12 * (year - 1) + m - 1)
      == 365 * (year - 1) + (year - 1) / 4 - (year - 1) / 100 + (year - 1) / 400
         + (367 * m - 362) / 12 - if m <= 2 then 0 else 2 - leapDay
  {
    hide *;
    InYear(year, m);
    YearsBefore(year);
    LeapDay(year);
  }

  /** time.Date in UTC: a day outside the month runs on into the months around it. */
  function Date(month: int, day: int, clock: int): Time {
    (MonthStart(month) + day - 1) * DAY + clock
  }

  datatype Civil = Civil(month: int, day: int, clock: int)
  {
    predicate Valid() {
      1 <= day <= DaysIn(month) && 0 <= clock < DAY
    }
  }

  function MonthFrom(day: int, month: int): (m: int)
    requires MonthStart(month) <= day
    ensures MonthStart(m) <= day < MonthStart(m + 1)
    decreases day - MonthStart(month)
  {
    if day < MonthStart(month + 1) then month
    else
      NextMonth(month);
      MonthFrom(day, month + 1)
  }

  function MonthDownFrom(day: int, month: int): (m: int)
    requires day < MonthStart(month + 1)
    ensures MonthStart(m) <= day < MonthStart(m + 1)
    decreases MonthStart(month + 1) - day
  {
    if MonthStart(month) <= day then month
    else
      NextMonth(month);
      MonthDownFrom(day, month - 1)
  }

  /** The month that a day falls in. */
  function MonthOf(day: int): (m: int)
    ensures MonthStart(m) <= day < MonthStart(m + 1)
  {
    if day >= 0 then MonthFrom(day, 0) else MonthDownFrom(day, -1)
  }

  /** Year, month, day and clock of a time in UTC. */
  function CivilOf(t: Time): (c: Civil)
    ensures c.Valid() && Date(c.month, c.day, c.clock) == t
  {
    CivilParts(t);
    var month := MonthOf(t / DAY);
    Civil(month, t / DAY - MonthStart(month) + 1, t % DAY)
  }

  lemma CivilParts(t: Time)
    ensures var month := MonthOf(t / DAY);
      var day := t / DAY - MonthStart(month) + 1;
      1 <= day <= DaysIn(month) && 0 <= t % DAY < DAY && Date(month, day, t % DAY) == t
  {
    hide MonthStart, MonthOf, DaysIn;
    NextMonth(MonthOf(t / DAY));
    SplitDay(t);
  }

  lemma SplitDay(t: Time)
    ensures t == (t / DAY) * DAY + t % DAY && 0 <= t % DAY < DAY
  {
  }

  /** Every date is read back as it was built. */
  lemma CivilOfDate(c: Civil)
    requires c.Valid()
    ensures CivilOf(Date(c.month, c.day, c.clock)) == c
  {
    var day := MonthStart(c.month) + c.day - 1;
    var t := Date(c.month, c.day, c.clock);
    DivideDay(day, c.clock);
    NextMonth(c.month);
    OneMonth(day, c.month, MonthOf(day));
  }

  lemma DivideDay(day: int, clock: int)
    requires 0 <= clock < DAY
    ensures (day * DAY + clock) / DAY == day && (day * DAY + clock) % DAY == clock
  {
  }

  lemma OneMonth(day: int, a: int, b: int)
    requires MonthStart(a) <= day < MonthStart(a + 1) && MonthStart(b) <= day < MonthStart(b + 1)
    ensures a == b
  {
    hide MonthStart;
    if a < b {
      MonthsIncrease(a + 1, b);
    } else if b < a {
      MonthsIncrease(b + 1, a);
    }
  }

  /** Dates compare as month, day and clock do. */
  lemma DatesInOrder(a: Civil, b: Civil)
    requires a.Valid() && b.Valid()
    ensures Date(a.month, a.day, a.clock) < Date(b.month, b.day, b.clock) <==>
      a.month < b.month || (a.month == b.month && (a.day < b.day || (a.day == b.day && a.clock < b.clock)))
  {
    hide MonthStart, DaysIn;
    NextMonth(a.month);
    NextMonth(b.month);
    if a.month < b.month {
      MonthsIncrease(a.month + 1, b.month);
      DaysInOrder(MonthStart(a.month) + a.day - 1, a.clock, MonthStart(b.month) + b.day - 1, b.clock);
    } else if b.month < a.month {
      MonthsIncrease(b.month + 1, a.month);
      DaysInOrder(MonthStart(b.month) + b.day - 1, b.clock, MonthStart(a.month) + a.day - 1, a.clock);
    } else {
      var start := MonthStart(a.month);
      DaysInOrder(start + a.day - 1, a.clock, start + b.day - 1, b.clock);
      DaysInOrder(start + b.day - 1, b.clock, start + a.day - 1, a.clock);
    }
  }

  lemma DaysInOrder(d: int, c: int, d': int, c': int)
    requires 0 <= c < DAY && 0 <= c' < DAY
    ensures d < d' ==> d * DAY + c < d' * DAY + c'
    ensures d == d' ==> (d * DAY + c < d' * DAY + c' <==> c < c')
  {
  }

  /** Time.AddDate with months only: the day is kept, even where the month has no such day. */
  function AddMonths(t: Time, n: int): Time {
    Date(CivilOf(t).month + n, CivilOf(t).day, CivilOf(t).clock)
  }

  /** daysInMonth: the day before the first of the next month. */
  function DaysInMonth(month: int): int {
    CivilOf(Date(month + 1, 0, 0)).day
  }

  lemma DaysInMonthIs(month: int)
    ensures DaysInMonth(month) == DaysIn(month) && CivilOf(Date(month + 1, 0, 0)).month == month
  {
    NextMonth(month);
    hide MonthStart, DaysIn, CivilOf;
    CivilOfDate(Civil(month, DaysIn(month), 0));
    assert Date(month + 1, 0, 0) == Date(month, DaysIn(month), 0);
  }

  // ------------------------------------------------------------------ monthly periods

  function MonthPeriod(month: int): Period {
    Period(Date(month, 1, 0), AddMonths(Date(month, 1, 0), 1))
  }

  /** NewMonthlyPeriod: the month of the anchor, refused before year 1. */
  function NewMonthlyPeriod(anchor: Time): Result<Period> {
    if anchor == ZERO_TIME then Err(InvalidTimestamp("period_anchor"))
    else if Year(CivilOf(anchor).month) < 1 then Err(InvalidTimestamp("year"))
    else Ok(MonthPeriod(CivilOf(anchor).month))
  }

  function NextPeriod(p: Period): Period {
    if !p.IsSet() then Period(ZERO_TIME, ZERO_TIME) else Period(p.end, AddMonths(p.end, 1))
  }

  /** A month runs from its first day to the first day of the next; only January of year 1 starts at the zero time. */
  lemma MonthPeriodIs(month: int)
    ensures MonthPeriod(month) == Period(Date(month, 1, 0), Date(month + 1, 1, 0))
    ensures MonthPeriod(month).end == MonthPeriod(month).start + DaysIn(month) * DAY
    ensures month > 0 ==> MonthPeriod(month).Valid()
    ensures month == 0 ==> !MonthPeriod(month).IsSet()
  {
    hide *;
    assert MonthPeriod(month) == Period(Date(month, 1, 0), Date(month + 1, 1, 0)) by { Bounds(month); }
    MonthLength(month);
    if month >= 0 {
      MonthSet(month);
    }
  }

  lemma Bounds(month: int)
    ensures MonthPeriod(month) == Period(Date(month, 1, 0), Date(month + 1, 1, 0))
  {
    hide Date, CivilOf, DaysIn;
    CivilOfDate(Civil(month, 1, 0));
  }

  lemma MonthLength(month: int)
    ensures Date(month + 1, 1, 0) == Date(month, 1, 0) + DaysIn(month) * DAY
  {
    NextMonth(month);
    hide MonthStart, DaysIn;
  }

  lemma MonthSet(month: nat)
    requires MonthPeriod(month).end == MonthPeriod(month).start + DaysIn(month) * DAY
    requires MonthPeriod(month) == Period(Date(month, 1, 0), Date(month + 1, 1, 0))
    ensures if month > 0 then MonthPeriod(month).Valid()
            else !MonthPeriod(month).IsSet()
  {
    FirstOfMonth(month);
    hide Date, MonthPeriod, DaysIn;
    if month > 0 {
      WholeDays(MonthPeriod(month), DaysIn(month));
    }
  }

  lemma WholeDays(p: Period, days: int)
    requires p.start > 0 && p.start % DAY == 0 && 28 <= days <= 31 && p.end == p.start + days * DAY
    ensures p.Valid()
  {
  }

  lemma FirstOfMonth(month: nat)
    ensures Date(month, 1, 0) % DAY == 0 && (Date(month, 1, 0) == 0 <==> month == 0) && Date(month, 1, 0) >= 0
  {
    MonthsIncrease(0, month);
    assert MonthStart(0) == 0;
    hide MonthStart;
    DivideDay(MonthStart(month), 0);
  }

  /** The periods tile the calendar: an anchor lies in its own month and in no other. */
  lemma PeriodsTile(anchor: Time, month: int)
    requires NewMonthlyPeriod(anchor).Ok? && month > 0
    ensures MonthPeriod(month).Contains(anchor) <==> NewMonthlyPeriod(anchor) == Ok(MonthPeriod(month))
  {
    var c := CivilOf(anchor);
    MonthPeriodIs(month);
    MonthPeriodIs(c.month);
    assert MonthPeriod(month).start > 0;
    hide MonthStart, DaysIn, CivilOf, Date, MonthPeriod, Period.Valid;
    DatesInOrder(c, Civil(month, 1, 0));
    DatesInOrder(c, Civil(month + 1, 1, 0));
    DatesInOrder(Civil(c.month, 1, 0), Civil(month, 1, 0));
    DatesInOrder(Civil(month, 1, 0), Civil(c.month, 1, 0));
    DatesInOrder(Civil(month, 1, 0), Civil(month + 1, 1, 0));
  }

  /** In its month a time's distance from the start tells the day. */
  lemma InItsMonth(month: int, at: Time)
    requires Date(month, 1, 0) <= at < Date(month + 1, 1, 0)
    ensures (at - Date(month, 1, 0)) / DAY + 1 == CivilOf(at).day
  {
    var c := CivilOf(at);
    hide CivilOf, DaysIn, MonthStart;
    DatesInOrder(c, Civil(month, 1, 0));
    DatesInOrder(c, Civil(month + 1, 1, 0));
    assert at - Date(month, 1, 0) == (c.day - 1) * DAY + c.clock;
    DivideDay(c.day - 1, c.clock);
  }

  /** There is a period for every time after the zero time. */
  lemma HasPeriodIff(t: Time)
    ensures NewMonthlyPeriod(t).Ok? <==> t > 0
  {
    hide CivilOf, MonthPeriod, DaysIn, MonthStart;
    DatesInOrder(CivilOf(t), Civil(0, 1, 0));
    assert Date(0, 1, 0) == MonthStart(0) * DAY && MonthStart(0) == 0 by { StartOfTime(); }
  }

  lemma StartOfTime()
    ensures MonthStart(0) == 0 && Date(0, 1, 0) == 0
  {
  }

  lemma NextIsNextMonth(month: int)
    requires month > 0
    ensures NextPeriod(MonthPeriod(month)) == MonthPeriod(month + 1)
  {
    MonthPeriodIs(month);
    hide MonthStart, DaysIn, CivilOf, Date;
    CivilOfDate(Civil(month + 1, 1, 0));
  }
}
