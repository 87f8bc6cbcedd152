/** The waste of the current week, which is told by ISO week but by calendar year. */
module WeeklyWaste {
  import opened Calendar
  import opened Domain
  import opened WasteSummary

  /** The Thursday of a day's week, from Monday to Sunday; 1 January of year 1 was a Monday. */
  function Thursday(day: int): int {
    day - day % 7 + 3
  }

  function YearStart(year: int): int {
    MonthStart(12 * (year - 1))
  }

  function YearOf(day: int): int {
    Year(MonthOf(day))
  }

  /** A week belongs to the year of its Thursday. */
  function IsoYear(day: int): int {
    YearOf(Thursday(day))
  }

  function IsoWeek(day: int): int {
    (Thursday(day) - YearStart(IsoYear(day))) / 7 + 1
  }

  /** The code's test: the ISO year and week of the day against the calendar year and ISO week of now. */
  predicate Counted(day: int, now: int) {
    IsoYear(day) == YearOf(now) && IsoWeek(day) == IsoWeek(now)
  }

  // ------------------------------------------------------------------ years and weeks

  lemma YearBounds(day: int)
    ensures YearStart(YearOf(day)) <= day < YearStart(YearOf(day) + 1)
  {
    var month := MonthOf(day);
    var year := Year(month);
    hide MonthStart, MonthOf;
    MonthsIncrease(12 * (year - 1), month);
    MonthsIncrease(month + 1, 12 * year);
  }

  lemma YearLengthIs(year: int)
    ensures YearStart(year + 1) == YearStart(year) + if Leap(year) then 366 else 365
  {
    hide MonthStart, Leap;
    SixMonths(12 * (year - 1));
    SixMonths(12 * (year - 1) + 6);
  }

  lemma SixMonths(m: int)
    ensures MonthStart(m + 6)
         == MonthStart(m) + DaysIn(m) + DaysIn(m + 1) + DaysIn(m + 2) + DaysIn(m + 3) + DaysIn(m + 4) + DaysIn(m + 5)
  {
    hide *;
    NextMonth(m);
    NextMonth(m + 1);
    NextMonth(m + 2);
    NextMonth(m + 3);
    NextMonth(m + 4);
    NextMonth(m + 5);
  }

  lemma YearLength(year: int)
    ensures YearStart(year) + 365 <= YearStart(year + 1) <= YearStart(year) + 366
  {
    hide *;
    YearLengthIs(year);
  }

  lemma YearIs(day: int, year: int)
    requires YearStart(year) <= day < YearStart(year + 1)
    ensures YearOf(day) == year
  {
    YearBounds(day);
    hide MonthStart, YearOf;
    var y := YearOf(day);
    if y < year {
      MonthsIncrease(12 * y, 12 * (year - 1));
    } else if y > year {
      MonthsIncrease(12 * year, 12 * (y - 1));
    }
  }

  /** ISO year and week name a week. */
  lemma IsoNamesWeek(a: int, b: int)
    ensures Thursday(a) == Thursday(b) <==> IsoYear(a) == IsoYear(b) && IsoWeek(a) == IsoWeek(b)
  {
    hide YearStart, YearOf;
  }

  lemma ThursdayNear(day: int)
    ensures day - 3 <= Thursday(day) <= day + 3 && Thursday(day) % 7 == 3
  {
  }

  // ------------------------------------------------------------------ the week that is counted

  /** The Thursday of the year's first week, which is that of 4 January. */
  function FirstThursday(year: int): int {
    Thursday(YearStart(year) + 3)
  }

  /** The Thursday of the week that has now's number in now's calendar year, if that year has so many weeks. */
  function CountedThursday(now: int): int {
    FirstThursday(YearOf(now)) + 7 * (IsoWeek(now) - 1)
  }

  /** The first Thursday is the first day of its year that is a Thursday. */
  lemma FirstThursdayIs(year: int)
    ensures YearStart(year) <= FirstThursday(year) < YearStart(year) + 7 && FirstThursday(year) % 7 == 3
  {
    hide YearStart;
  }

  /** The number of a week tells how far its Thursday is from the year's first. */
  lemma WeekNumber(day: int)
    ensures Thursday(day) == FirstThursday(IsoYear(day)) + 7 * (IsoWeek(day) - 1)
    ensures 1 <= IsoWeek(day) <= 53
  {
    var year := IsoYear(day);
    YearBounds(Thursday(day));
    YearLength(year);
    FirstThursdayIs(year);
    ThursdayNear(day);
    hide YearStart, YearOf, FirstThursday, Thursday;
    WholeWeeks(YearStart(year), FirstThursday(year), Thursday(day));
  }

  lemma WholeWeeks(start: int, first: int, thursday: int)
    requires start <= first < start + 7 && start <= thursday < start + 366 && first % 7 == thursday % 7
    ensures thursday == first + 7 * ((thursday - start) / 7)
  {
    var k := (thursday - start) / 7;
    assert (thursday - first) % 7 == 0;
    assert thursday - first == 7 * ((thursday - first) / 7);
  }

  /** What the test counts is one week: that of CountedThursday, or none when this lies beyond the year. */
  lemma CountedIs(day: int, now: int)
    ensures Counted(day, now) <==> Thursday(day) == CountedThursday(now) && YearOf(CountedThursday(now)) == YearOf(now)
  {
    WeekNumber(day);
    hide IsoWeek, YearOf, FirstThursday, Thursday;
    if Thursday(day) == CountedThursday(now) && YearOf(CountedThursday(now)) == YearOf(now) {
      assert IsoYear(day) == YearOf(now);
    }
  }

  /** It is the current week exactly when that week belongs to the calendar year. */
  lemma CountsCurrentWeek(now: int)
    ensures IsoYear(now) == YearOf(now) <==> CountedThursday(now) == Thursday(now)
  {
    WeekNumber(now);
    YearBounds(now);
    FirstThursdayIs(YearOf(now));
    FirstThursdayIs(IsoYear(now));
    hide YearStart, YearOf, IsoWeek, FirstThursday, Thursday;
    if FirstThursday(IsoYear(now)) == FirstThursday(YearOf(now)) {
      OneFirstThursday(IsoYear(now), YearOf(now));
    }
  }

  lemma OneFirstThursday(a: int, b: int)
    requires FirstThursday(a) == FirstThursday(b)
    ensures a == b
  {
    FirstThursdayIs(a);
    FirstThursdayIs(b);
    hide FirstThursday, YearStart;
    if a < b {
      LaterYear(a, b);
    } else if b < a {
      LaterYear(b, a);
    }
  }

  lemma LaterYear(a: int, b: int)
    requires a < b
    ensures YearStart(a) + 336 <= YearStart(b)
  {
    MonthsIncrease(12 * (a - 1), 12 * (b - 1));
    hide MonthStart;
  }

  /**
    * At the end of December, in a week of the next year, it is the first week of the year that is ending; in the first
    * days of January, in a week of the year before, it is the 52nd or 53rd of the year that is beginning.
    */
  lemma AcrossNewYear(now: int)
    ensures IsoYear(now) > YearOf(now) ==>
      now >= YearStart(YearOf(now) + 1) - 3 && CountedThursday(now) == FirstThursday(YearOf(now))
    ensures IsoYear(now) < YearOf(now) ==>
      now < YearStart(YearOf(now)) + 3 && CountedThursday(now) - FirstThursday(YearOf(now)) in {357, 364}
  {
    hide *;
    if IsoYear(now) > YearOf(now) {
      DecemberWeek(now);
    } else if IsoYear(now) < YearOf(now) {
      JanuaryWeek(now);
    }
  }

  lemma WeekIs(day: int, year: int)
    requires YearOf(Thursday(day)) == year
    ensures IsoYear(day) == year && IsoWeek(day) == (Thursday(day) - YearStart(year)) / 7 + 1
  {
  }

  lemma DecemberWeek(now: int)
    requires IsoYear(now) > YearOf(now)
    ensures now >= YearStart(YearOf(now) + 1) - 3 && CountedThursday(now) == FirstThursday(YearOf(now))
  {
    var year, thursday := YearOf(now), Thursday(now);
    YearBounds(now);
    YearBounds(thursday);
    YearLength(year + 1);
    ThursdayNear(now);
    hide MonthStart, YearOf, Thursday, YearStart, IsoWeek, FirstThursday;
    assert YearStart(year + 1) <= thursday by {
      if IsoYear(now) > year + 1 {
        LaterYear(year + 1, IsoYear(now));
      }
    }
    YearIs(thursday, year + 1);
    WeekIs(now, year + 1);
  }

  lemma JanuaryWeek(now: int)
    requires IsoYear(now) < YearOf(now)
    ensures now < YearStart(YearOf(now)) + 3 && CountedThursday(now) - FirstThursday(YearOf(now)) in {357, 364}
  {
    var year, thursday := YearOf(now), Thursday(now);
    YearBounds(now);
    YearBounds(thursday);
    YearLength(year - 1);
    ThursdayNear(now);
    WeekNumber(now);
    hide MonthStart, YearOf, Thursday, YearStart, IsoWeek, FirstThursday;
    assert thursday < YearStart(year) by {
      if IsoYear(now) + 1 < year {
        LaterYear(IsoYear(now) + 1, year);
      }
    }
    YearIs(thursday, year - 1);
    WeekIs(now, year - 1);
    assert IsoWeek(now) >= 52;
  }

  // ------------------------------------------------------------------ the sum

  function DayNumber(t: Time): int {
    t / DAY
  }

  /** The waste of one week, named by its Thursday. */
  function WeekSum(trend: seq<DayWaste>, thursday: int): real {
    if trend == [] then 0.0
    else
      var last := trend[|trend| - 1];
      WeekSum(trend[..|trend| - 1], thursday) + if Thursday(DayNumber(last.day)) == thursday then last.cost else 0.0
  }

  /** What the current week is meant to add up to. */
  function CurrentWeekSum(trend: seq<DayWaste>, now: Time): real {
    WeekSum(trend, Thursday(DayNumber(now)))
  }

  function CountedSum(trend: seq<DayWaste>, now: Time): real {
    if trend == [] then 0.0
    else
      var last := trend[|trend| - 1];
      CountedSum(trend[..|trend| - 1], now) + if Counted(DayNumber(last.day), DayNumber(now)) then last.cost else 0.0
  }

  method SumCurrentWeek(trend: seq<DayWaste>, generatedAt: Time) returns (total: real)
    ensures total == CountedSum(trend, generatedAt)
  {
    hide IsoYear, IsoWeek, YearOf;
    var currentYear, currentWeek := YearOf(DayNumber(generatedAt)), IsoWeek(DayNumber(generatedAt));
    total := 0.0;
    for i := 0 to |trend|
      invariant total == CountedSum(trend[..i], generatedAt)
    {
      assert trend[..i + 1][..i] == trend[..i];
      var day := DayNumber(trend[i].day);
      if IsoYear(day) == currentYear && IsoWeek(day) == currentWeek {
        total := total + trend[i].cost;
      }
    }
    assert trend[..|trend|] == trend;
  }

  lemma {:induction false} CountedAdds(trend: seq<DayWaste>, now: Time)
    ensures var n := DayNumber(now);
      CountedSum(trend, now)
      == if YearOf(CountedThursday(n)) == YearOf(n) then WeekSum(trend, CountedThursday(n)) else 0.0
  {
    hide Counted, CountedThursday, YearOf, Thursday, DayNumber;
    if trend != [] {
      var n := |trend| - 1;
      CountedAdds(trend[..n], now);
      CountedIs(DayNumber(trend[n].day), DayNumber(now));
    }
  }

  /**
    * For every month asked for and every time: the sum reported for the current week is right if the week belongs to
    * the calendar year. If it does not, what is reported is the sum of another week, AcrossNewYear says which, or
    * nothing when the year does not have that week; so it is right exactly when that comes to the same.
    */
  lemma WeeklyWasteIff(trend: seq<DayWaste>, now: Time)
    ensures var n := DayNumber(now);
      var other := if YearOf(CountedThursday(n)) == YearOf(n) then WeekSum(trend, CountedThursday(n)) else 0.0;
      && CountedSum(trend, now) == (if IsoYear(n) == YearOf(n) then CurrentWeekSum(trend, now) else other)
      && (CountedSum(trend, now) == CurrentWeekSum(trend, now) <==>
            IsoYear(n) == YearOf(n) || CurrentWeekSum(trend, now) == other)
  {
    CountedAdds(trend, now);
    CountsCurrentWeek(DayNumber(now));
    hide CountedThursday, YearOf, Thursday, DayNumber, WeekSum, CountedSum;
  }

  ghost predicate OfMonth(trend: seq<DayWaste>, month: int) {
    forall d <- trend :: MonthOf(DayNumber(d.day)) == month
  }

  /** In the summary of the current month the other week has no days: across New Year nothing is reported. */
  lemma NothingThisMonth(trend: seq<DayWaste>, now: Time, month: int)
    requires OfMonth(trend, month) && MonthOf(DayNumber(now)) == month
    requires IsoYear(DayNumber(now)) != YearOf(DayNumber(now))
    ensures CountedSum(trend, now) == 0.0
  {
    var n := DayNumber(now);
    CountedAdds(trend, now);
    AcrossNewYear(n);
    FirstThursdayIs(YearOf(n));
    YearLength(YearOf(n));
    forall d <- trend
      ensures Thursday(DayNumber(d.day)) != CountedThursday(n)
    {
      ThursdayNear(DayNumber(d.day));
      hide MonthStart, YearOf, CountedThursday, FirstThursday, Thursday, YearStart;
      NearInMonth(DayNumber(d.day), n);
    }
    hide *;
    NoDays(trend, CountedThursday(n));
  }

  lemma NearInMonth(a: int, b: int)
    requires MonthOf(a) == MonthOf(b)
    ensures -31 < a - b < 31
  {
    NextMonth(MonthOf(a));
    hide MonthStart, DaysIn, MonthOf;
  }

  lemma {:induction false} NoDays(trend: seq<DayWaste>, thursday: int)
    requires forall d <- trend :: Thursday(DayNumber(d.day)) != thursday
    ensures WeekSum(trend, thursday) == 0.0
  {
    hide Thursday, DayNumber;
    if trend != [] {
      NoDays(trend[..|trend| - 1], thursday);
    }
  }

  /** Monday, 31 December of year 1, opens the first week of year 2: the waste of that day is not counted. */
  lemma LostWeek(cost: real)
    ensures var monday := 364 * DAY;
      CurrentWeekSum([DayWaste(monday, cost)], monday) == cost && CountedSum([DayWaste(monday, cost)], monday) == 0.0
  {
    NewYearsEve();
    hide Counted, Thursday;
    assert DayNumber(364 * DAY) == 364;
    OneDay(DayWaste(364 * DAY, cost), 364 * DAY);
  }

  /**
   * On Tuesday, 31 December of year 2, asked for January of that year, the waste of 1 January is reported as that of
   * the current week.
   */
  lemma WrongWeek(cost: real)
    ensures var tuesday, january := 729 * DAY, MonthPeriod(12);
      var trend := [DayWaste(january.start, cost)];
      && january.Valid() && OfMonth(trend, 12)
      && CurrentWeekSum(trend, tuesday) == 0.0 && CountedSum(trend, tuesday) == cost
  {
    hide *;
    YearTwo();
    January();
    DaysAre();
    OneDay(DayWaste(365 * DAY, cost), 729 * DAY);
    InMonth(DayWaste(365 * DAY, cost), 12);
  }

  lemma DaysAre()
    ensures DayNumber(365 * DAY) == 365 && DayNumber(729 * DAY) == 729
  {
  }

  lemma January()
    ensures MonthPeriod(12).Valid() && MonthPeriod(12).start == 365 * DAY && MonthOf(365) == 12
  {
    hide *;
    MonthPeriodIs(12);
    FirstYears();
    YearTwoStarts();
    NextMonth(12);
    OneMonth(365, 12, MonthOf(365));
  }

  lemma YearTwoStarts()
    ensures YearStart(2) == MonthStart(12) && Date(12, 1, 0) == MonthStart(12) * DAY
  {
    hide MonthStart;
  }

  lemma InMonth(d: DayWaste, month: int)
    requires MonthOf(DayNumber(d.day)) == month
    ensures OfMonth([d], month)
  {
    hide MonthOf, DayNumber;
  }

  lemma OneDay(d: DayWaste, now: Time)
    ensures CurrentWeekSum([d], now) == if Thursday(DayNumber(d.day)) == Thursday(DayNumber(now)) then d.cost else 0.0
    ensures CountedSum([d], now) == if Counted(DayNumber(d.day), DayNumber(now)) then d.cost else 0.0
  {
    hide Counted, Thursday, DayNumber;
    assert CountedSum([], now) == 0.0 && WeekSum([], Thursday(DayNumber(now))) == 0.0;
    assert [d][..0] == [];
  }

  lemma NewYearsEve()
    ensures Thursday(364) == 367 && !Counted(364, 364)
  {
    hide *;
    FirstYears();
    Thursdays();
    AcrossNewYear(364);
    CountedIs(364, 364);
  }

  lemma YearTwo()
    ensures Thursday(729) != Thursday(365) && Counted(365, 729)
  {
    hide *;
    FirstYears();
    Thursdays();
    AcrossNewYear(729);
    CountedIs(365, 729);
  }

  lemma Thursdays()
    requires YearStart(2) == 365 && YearOf(367) == 2 && YearOf(731) == 3
    ensures Thursday(364) == Thursday(365) == FirstThursday(2) == 367 && IsoYear(364) == 2
    ensures Thursday(729) == 731 && IsoYear(729) == 3
  {
    hide MonthStart, YearOf, YearStart;
  }

  lemma FirstYears()
    ensures YearStart(2) == 365 && YearOf(364) == 1 && YearOf(367) == 2 && YearOf(729) == 2 && YearOf(731) == 3
  {
    Origin();
    hide *;
    YearLengthIs(1);
    YearLengthIs(2);
    YearLength(3);
    YearIs(364, 1);
    YearIs(367, 2);
    YearIs(729, 2);
    YearIs(731, 3);
  }

  lemma Origin()
    ensures YearStart(1) == 0 && !Leap(1) && !Leap(2)
  {
  }
}
