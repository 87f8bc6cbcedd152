/** Times as text: RFC 3339 with trimmed fractions, and the database's comparison of such texts. */
module Timestamps {
  import opened Billing
  import opened Budget
  import opened Calendar
  import opened Domain
  import Text

  function Digit(n: nat): char {
    ('0' as int + n % 10) as char
  }

  /** The last digits of a number, padded with zeros to a width. */
  function Digits(n: nat, width: nat): (s: string)
    ensures |s| == width
  {
    if width == 0 then "" else Digits(n / 10, width - 1) + [Digit(n)]
  }

  predicate Fits(n: nat, width: nat) {
    if width == 0 then n == 0 else Fits(n / 10, width - 1)
  }

  function TrimZeros(s: string): string {
    if s != "" && s[|s| - 1] == '0' then TrimZeros(s[..|s| - 1]) else s
  }

  /** The months before year 10000, whose years have four digits. */
  const LAST_MONTH := 9999 * 12

  /** A year has at least four digits, and a sign before year 0. */
  function YearText(year: int): string {
    if year < 0 then "-" + Number(-year) else Number(year)
  }

  function Number(n: nat): string {
    if n < 10000 then Digits(n, 4) else Number(n / 10) + [Digit(n)]
  }

  function ClockText(second: nat): string {
    Digits(second / 3600, 2) + (":" + (Digits(second / 60 % 60, 2) + (":" + Digits(second % 60, 2))))
  }

  /** The layout of a date and clock down to the second. */
  function SecondsText(c: Civil): string
    requires c.Valid()
  {
    YearText(Year(c.month)) + ("-" + (Digits(c.month % 12 + 1, 2) + ("-" + (Digits(c.day, 2)
    + ("T" + ClockText(c.clock / SECOND))))))
  }

  /** A fraction of a second has no trailing zeros, and is left out when it is zero. */
  function FractionText(nanos: nat): string {
    if nanos == 0 then "Z" else "." + TrimZeros(Digits(nanos, 9)) + "Z"
  }

  predicate FourDigitYear(t: Time) {
    0 <= CivilOf(t).month < LAST_MONTH
  }

  /** Time.Format with RFC3339Nano. */
  function Format(t: Time): string {
    SecondsText(CivilOf(t)) + FractionText(CivilOf(t).clock % SECOND)
  }

  // ------------------------------------------------------------------ text order

  /** Fields of one width are compared before what follows them. */
  lemma {:induction false} FieldFirst(a: string, b: string, x: string, y: string)
    requires |a| == |b|
    ensures Text.Less(a + x, b + y) <==> Text.Less(a, b) || (a == b && Text.Less(x, y))
  {
    if a == "" {
      assert a + x == x && b + y == y;
    } else {
      assert (a + x)[1..] == a[1..] + x && (b + y)[1..] == b[1..] + y;
      FieldFirst(a[1..], b[1..], x, y);
      assert a == [a[0]] + a[1..] && b == [b[0]] + b[1..];
    }
  }

  lemma {:induction false} DigitsInOrder(a: nat, b: nat, width: nat)
    requires Fits(a, width) && Fits(b, width)
    ensures Text.Less(Digits(a, width), Digits(b, width)) <==> a < b
    ensures Digits(a, width) == Digits(b, width) <==> a == b
  {
    if width > 0 {
      var x, y := Digits(a / 10, width - 1), Digits(b / 10, width - 1);
      DigitsInOrder(a / 10, b / 10, width - 1);
      FieldFirst(x, y, [Digit(a)], [Digit(b)]);
      OneDigit(a, b);
      assert (x + [Digit(a)])[..width - 1] == x && (y + [Digit(b)])[..width - 1] == y;
      assert (x + [Digit(a)])[width - 1] == Digit(a) && (y + [Digit(b)])[width - 1] == Digit(b);
    }
  }

  lemma OneDigit(a: nat, b: nat)
    ensures Text.Less([Digit(a)], [Digit(b)]) <==> a % 10 < b % 10
    ensures Digit(a) == Digit(b) <==> a % 10 == b % 10
  {
    assert Text.Less([Digit(a)], [Digit(b)]) <==> Digit(a) < Digit(b);
  }

  lemma TwoDigits(n: nat)
    requires n < 100
    ensures Fits(n, 2)
  {
    assert Fits(n / 10 / 10, 0);
    assert Fits(n / 10, 1);
  }

  lemma FourDigits(n: nat)
    requires n < 10000
    ensures Fits(n, 4)
  {
    assert n / 10 / 10 / 10 / 10 == 0;
    assert Fits(n / 10 / 10 / 10 / 10, 0);
    assert Fits(n / 10 / 10 / 10, 1);
    assert Fits(n / 10 / 10, 2);
  }

  /** A two-digit field, a separator and the rest. */
  lemma NextField(a: nat, b: nat, separator: char, x: string, y: string)
    requires a < 100 && b < 100
    ensures Text.Less(Digits(a, 2) + ([separator] + x), Digits(b, 2) + ([separator] + y)) <==>
      a < b || (a == b && Text.Less(x, y))
    ensures Digits(a, 2) + ([separator] + x) == Digits(b, 2) + ([separator] + y) <==> a == b && x == y
  {
    hide Digits, Fits;
    TwoDigits(a);
    TwoDigits(b);
    DigitsInOrder(a, b, 2);
    FieldFirst(Digits(a, 2), Digits(b, 2), [separator] + x, [separator] + y);
    FieldFirst([separator], [separator], x, y);
    Text.LessTotal([separator], [separator]);
    FieldsEqual(Digits(a, 2), Digits(b, 2), [separator] + x, [separator] + y);
    FieldsEqual([separator], [separator], x, y);
  }

  lemma FieldsEqual(a: string, b: string, x: string, y: string)
    requires |a| == |b|
    ensures a + x == b + y <==> a == b && x == y
  {
    assert (a + x)[..|a|] == a && (b + y)[..|b|] == b;
    assert (a + x)[|a|..] == x && (b + y)[|b|..] == y;
  }

  lemma ClocksInOrder(a: nat, b: nat)
    requires a < 86400 && b < 86400
    ensures Text.Less(ClockText(a), ClockText(b)) <==> a < b
    ensures ClockText(a) == ClockText(b) <==> a == b
  {
    hide Digits, Fits, Text.Less;
    var x, y := Digits(a % 60, 2), Digits(b % 60, 2);
    TwoDigits(a % 60);
    TwoDigits(b % 60);
    DigitsInOrder(a % 60, b % 60, 2);
    NextField(a / 60 % 60, b / 60 % 60, ':', x, y);
    NextField(a / 3600, b / 3600, ':', Digits(a / 60 % 60, 2) + (":" + x), Digits(b / 60 % 60, 2) + (":" + y));
    Sexagesimal(a);
    Sexagesimal(b);
  }

  lemma Sexagesimal(s: nat)
    ensures s == s / 3600 * 3600 + s / 60 % 60 * 60 + s % 60
  {
    assert s / 60 / 60 == s / 3600;
  }

  predicate SecondBefore(c: Civil, d: Civil) {
    || c.month < d.month
    || (c.month == d.month && (c.day < d.day || (c.day == d.day && c.clock / SECOND < d.clock / SECOND)))
  }

  predicate SameSecond(c: Civil, d: Civil) {
    c.month == d.month && c.day == d.day && c.clock / SECOND == d.clock / SECOND
  }

  /** Down to the second, texts compare as the dates do. */
  lemma SecondsInOrder(c: Civil, d: Civil)
    requires c.Valid() && d.Valid() && 0 <= c.month < LAST_MONTH && 0 <= d.month < LAST_MONTH
    ensures Text.Less(SecondsText(c), SecondsText(d)) <==> SecondBefore(c, d)
    ensures SecondsText(c) == SecondsText(d) <==> SameSecond(c, d)
    ensures |SecondsText(c)| == |SecondsText(d)|
  {
    hide *;
    Layout(c);
    Layout(d);
    YearField(Year(c.month), Year(d.month), MonthText(c), MonthText(d));
    MonthFields(c, d);
    MonthsByYear(c.month, d.month);
    SecondsByYear(c, d);
  }

  /** A date from its day on, and from its month on. */
  function DayText(c: Civil): string
    requires c.Valid()
  {
    Digits(c.day, 2) + ("T" + ClockText(c.clock / SECOND))
  }

  function MonthText(c: Civil): string
    requires c.Valid()
  {
    Digits(c.month % 12 + 1, 2) + ("-" + DayText(c))
  }

  predicate DayBefore(c: Civil, d: Civil) {
    c.day < d.day || (c.day == d.day && c.clock / SECOND < d.clock / SECOND)
  }

  predicate SameDay(c: Civil, d: Civil) {
    c.day == d.day && c.clock / SECOND == d.clock / SECOND
  }

  lemma DayFields(c: Civil, d: Civil)
    requires c.Valid() && d.Valid()
    ensures Text.Less(DayText(c), DayText(d)) <==> DayBefore(c, d)
    ensures DayText(c) == DayText(d) <==> SameDay(c, d)
    ensures |DayText(c)| == |DayText(d)|
  {
    hide Digits, Fits, Text.Less, ClockText, DaysIn;
    var s, s' := c.clock / SECOND, d.clock / SECOND;
    SameWidth(s, s');
    ClocksInOrder(s, s');
    NextField(c.day, d.day, 'T', ClockText(s), ClockText(s'));
  }

  lemma MonthFields(c: Civil, d: Civil)
    requires c.Valid() && d.Valid()
    ensures Text.Less(MonthText(c), MonthText(d)) <==>
      c.month % 12 < d.month % 12 || (c.month % 12 == d.month % 12 && DayBefore(c, d))
    ensures MonthText(c) == MonthText(d) <==> c.month % 12 == d.month % 12 && SameDay(c, d)
    ensures |MonthText(c)| == |MonthText(d)|
  {
    hide Digits, Fits, Text.Less, DayText, DayBefore, SameDay, Civil.Valid;
    DayFields(c, d);
    NextField(c.month % 12 + 1, d.month % 12 + 1, '-', DayText(c), DayText(d));
  }

  lemma SecondsByYear(c: Civil, d: Civil)
    requires c.month < d.month <==> Year(c.month) < Year(d.month)
                                    || (Year(c.month) == Year(d.month) && c.month % 12 < d.month % 12)
    requires c.month == d.month <==> Year(c.month) == Year(d.month) && c.month % 12 == d.month % 12
    ensures SecondBefore(c, d) <==>
      Year(c.month) < Year(d.month)
      || (Year(c.month) == Year(d.month)
          && (c.month % 12 < d.month % 12 || (c.month % 12 == d.month % 12 && DayBefore(c, d))))
    ensures SameSecond(c, d) <==> Year(c.month) == Year(d.month) && c.month % 12 == d.month % 12 && SameDay(c, d)
  {
    hide Year;
  }

  lemma Layout(c: Civil)
    requires c.Valid() && 0 <= c.month < LAST_MONTH
    ensures 1 <= Year(c.month) < 10000 && c.day < 100 && c.clock / SECOND < 86400
    ensures SecondsText(c) == Digits(Year(c.month), 4) + ("-" + MonthText(c))
  {
    hide Digits, ClockText, DaysIn;
  }

  lemma MonthsByYear(a: int, b: int)
    ensures a < b <==> Year(a) < Year(b) || (Year(a) == Year(b) && a % 12 < b % 12)
    ensures a == b <==> Year(a) == Year(b) && a % 12 == b % 12
  {
  }

  lemma SameWidth(a: nat, b: nat)
    ensures |ClockText(a)| == |ClockText(b)|
  {
  }

  lemma YearField(a: nat, b: nat, x: string, y: string)
    requires a < 10000 && b < 10000
    ensures Text.Less(Digits(a, 4) + ("-" + x), Digits(b, 4) + ("-" + y)) <==> a < b || (a == b && Text.Less(x, y))
    ensures Digits(a, 4) + ("-" + x) == Digits(b, 4) + ("-" + y) <==> a == b && x == y
  {
    hide Digits, Fits;
    FourDigits(a);
    FourDigits(b);
    DigitsInOrder(a, b, 4);
    FieldFirst(Digits(a, 4), Digits(b, 4), "-" + x, "-" + y);
    FieldFirst("-", "-", x, y);
    Text.LessTotal("-", "-");
    FieldsEqual(Digits(a, 4), Digits(b, 4), "-" + x, "-" + y);
    FieldsEqual("-", "-", x, y);
  }

  // ------------------------------------------------------------------ against a boundary

  /** A time on a full second, such as the start of a month. */
  predicate FullSecond(t: Time) {
    t % SECOND == 0
  }

  lemma ClockOfSecond(t: Time)
    ensures CivilOf(t).clock % SECOND == t % SECOND
  {
    assert CivilOf(t).clock == t % DAY;
    hide CivilOf;
    WholeSeconds(t / DAY * 86400, t % DAY);
  }

  lemma WholeSeconds(k: int, r: int)
    ensures (k * SECOND + r) % SECOND == r % SECOND
  {
    var q := r / SECOND;
    assert k * SECOND + r == (k + q) * SECOND + r % SECOND;
  }

  lemma SecondsOfTime(t: Time, u: Time)
    ensures SecondBefore(CivilOf(t), CivilOf(u)) <==> t / SECOND < u / SECOND
    ensures SameSecond(CivilOf(t), CivilOf(u)) <==> t / SECOND == u / SECOND
  {
    var c, d := CivilOf(t), CivilOf(u);
    ClockOfSecond(t);
    ClockOfSecond(u);
    hide CivilOf, MonthStart, DaysIn;
    var c', d' := Civil(c.month, c.day, c.clock - c.clock % SECOND), Civil(d.month, d.day, d.clock - d.clock % SECOND);
    DatesInOrder(c', d');
    DatesInOrder(d', c');
    assert Date(c'.month, c'.day, c'.clock) == t - t % SECOND;
    assert Date(d'.month, d'.day, d'.clock) == u - u % SECOND;
  }

  /** A text is before that of a full second when the time is, and also when it is a fraction after it. */
  lemma TextBefore(t: Time, boundary: Time)
    requires FourDigitYear(t) && FourDigitYear(boundary) && FullSecond(boundary)
    ensures Text.Less(Format(t), Format(boundary)) <==> t < boundary + SECOND && t != boundary
    ensures Text.Less(Format(boundary), Format(t)) <==> boundary + SECOND <= t
  {
    var c, d := CivilOf(t), CivilOf(boundary);
    ClockOfSecond(t);
    ClockOfSecond(boundary);
    SecondsOfTime(t, boundary);
    SecondsInOrder(c, d);
    hide CivilOf, SecondsText, FractionText, Text.Less;
    FieldFirst(SecondsText(c), SecondsText(d), FractionText(t % SECOND), FractionText(0));
    FractionBeforeNone(t % SECOND);
    Text.LessTotal(Format(t), Format(boundary));
    assert Format(t) == Format(boundary) <==> t == boundary by {
      FieldsEqual(SecondsText(c), SecondsText(d), FractionText(t % SECOND), FractionText(0));
    }
  }

  lemma FractionBeforeNone(nanos: nat)
    ensures Text.Less(FractionText(nanos), FractionText(0)) <==> nanos != 0
    ensures FractionText(nanos) == FractionText(0) <==> nanos == 0
  {
    hide Digits, TrimZeros;
  }

  /** Against the first of year 10000, which has five digits, only the texts of years up to 1000 come first. */
  lemma TextBeforeYear10000(t: Time, boundary: Time)
    requires FourDigitYear(t) && Year(CivilOf(boundary).month) == 10000
    ensures Text.Less(Format(t), Format(boundary)) <==> Year(CivilOf(t).month) <= 1000
  {
    hide *;
    var year := Year(CivilOf(t).month);
    YearTexts(t);
    var x := AfterYear(t);
    var y := AfterYear(boundary);
    Assoc(Digits(1000, 4), ['0'], y);
    DigitsInOrder(year, 1000, 4);
    FieldFirst(Digits(year, 4), Digits(1000, 4), x, ['0'] + y);
    HyphenFirst(x, y);
  }

  lemma YearTexts(t: Time)
    requires FourDigitYear(t)
    ensures var year := Year(CivilOf(t).month);
      1 <= year < 10000 && YearText(year) == Digits(year, 4) && Fits(year, 4)
    ensures YearText(10000) == Digits(1000, 4) + ['0'] && Fits(1000, 4)
  {
    FourDigits(Year(CivilOf(t).month));
    FourDigits(1000);
    FiveDigits();
    hide Digits, Fits, CivilOf;
  }

  lemma FiveDigits()
    ensures Digits(10000, 5) == Digits(1000, 4) + ['0']
  {
  }

  lemma Assoc(a: string, b: string, c: string)
    ensures (a + b) + c == a + (b + c)
  {
  }

  lemma HyphenFirst(x: string, y: string)
    requires x != "" && x[0] == '-'
    ensures Text.Less(x, ['0'] + y)
  {
  }

  /** A text from the hyphen after its year on. */
  lemma AfterYear(t: Time) returns (rest: string)
    ensures Format(t) == YearText(Year(CivilOf(t).month)) + rest && rest != "" && rest[0] == '-'
  {
    hide Digits, ClockText, FractionText, CivilOf, YearText;
    var c := CivilOf(t);
    var date := "-" + (Digits(c.month % 12 + 1, 2) + ("-" + (Digits(c.day, 2) + ("T" + ClockText(c.clock / SECOND)))));
    rest := date + FractionText(c.clock % SECOND);
    Assoc(YearText(Year(c.month)), date, FractionText(c.clock % SECOND));
  }

  // ------------------------------------------------------------------ texts tell times apart

  lemma FormatTold(t: Time, u: Time)
    requires FourDigitYear(t) && FourDigitYear(u) && Format(t) == Format(u)
    ensures t == u
  {
    hide CivilOf, SecondsText, FractionText, Format, SecondBefore, SameSecond, Text.Less, DaysIn;
    var c, d := CivilOf(t), CivilOf(u);
    FormatIs(t);
    FormatIs(u);
    SecondsInOrder(c, d);
    FieldsEqual(SecondsText(c), SecondsText(d), FractionText(t % SECOND), FractionText(u % SECOND));
    SecondsOfTime(t, u);
    FractionTold(t % SECOND, u % SECOND);
  }

  lemma FormatIs(t: Time)
    ensures Format(t) == SecondsText(CivilOf(t)) + FractionText(t % SECOND)
    ensures FourDigitYear(t) ==> 0 <= CivilOf(t).month < LAST_MONTH
  {
    hide CivilOf, SecondsText, FractionText;
    ClockOfSecond(t);
  }

  lemma FractionTold(a: nat, b: nat)
    requires a < SECOND && b < SECOND && FractionText(a) == FractionText(b)
    ensures a == b
  {
    hide Digits, TrimZeros;
    if a != 0 && b != 0 {
      var x, y := TrimZeros(Digits(a, 9)), TrimZeros(Digits(b, 9));
      assert FractionText(a)[1..|x| + 1] == x && FractionText(b)[1..|y| + 1] == y;
      assert x == y;
      ZerosTold(Digits(a, 9), Digits(b, 9));
      NineDigits(a);
      NineDigits(b);
      DigitsInOrder(a, b, 9);
    }
  }

  lemma ZerosTold(a: string, b: string)
    requires |a| == |b| && TrimZeros(a) == TrimZeros(b)
    ensures a == b
  {
    hide TrimZeros;
    ZerosBehind(a);
    ZerosBehind(b);
    forall i | 0 <= i < |a|
      ensures a[i] == b[i]
    {
      assert i < |TrimZeros(a)| ==> a[i] == TrimZeros(a)[i] && b[i] == TrimZeros(b)[i];
    }
  }

  lemma {:induction false} ZerosBehind(s: string)
    ensures TrimZeros(s) <= s && forall i :: |TrimZeros(s)| <= i < |s| ==> s[i] == '0'
  {
    if s != "" && s[|s| - 1] == '0' {
      ZerosBehind(s[..|s| - 1]);
    }
  }

  lemma NineDigits(n: nat)
    requires n < SECOND
    ensures Fits(n, 9)
  {
    assert Fits(n / 10000 / 10000 / 10, 0);
    assert Fits(n / 10000 / 10000, 1);
    hide Fits;
    FourMore(n / 10000, 1);
    FourMore(n, 5);
  }

  lemma FourMore(n: nat, width: nat)
    requires Fits(n / 10000, width)
    ensures Fits(n, width + 4)
  {
    assert n / 10 / 10 / 10 / 10 == n / 10000;
    assert Fits(n / 10 / 10 / 10, width + 1);
    assert Fits(n / 10 / 10, width + 2);
    assert Fits(n / 10, width + 3);
  }

  /** A text up to its minutes, and behind its last colon. */
  lemma LastField(t: Time) returns (head: string, tail: string)
    requires FourDigitYear(t)
    ensures Format(t) == head + (":" + tail) && |head| == 16 && ':' !in tail
  {
    hide CivilOf, SecondsText, FractionText, Format, MonthText, Digits, DaysIn;
    var c := CivilOf(t);
    FormatIs(t);
    CivilIsValid(t);
    Layout(c);
    var front, last := SecondsParts(c);
    head, tail := front, last + FractionText(t % SECOND);
    FractionHasNoColon(t % SECOND);
    Assoc(front, ":" + last, FractionText(t % SECOND));
    Assoc(":", last, FractionText(t % SECOND));
  }

  lemma CivilIsValid(t: Time)
    ensures CivilOf(t).Valid()
  {
  }

  lemma SecondsParts(c: Civil) returns (front: string, last: string)
    requires c.Valid() && 0 <= Year(c.month)
    requires SecondsText(c) == Digits(Year(c.month), 4) + ("-" + MonthText(c))
    ensures SecondsText(c) == front + (":" + last) && |front| == 16 && ':' !in last
  {
    hide Digits, Year, DaysIn;
    var second: nat := c.clock / SECOND;
    last := Digits(second % 60, 2);
    NoColon(second % 60, 2);
    front := Digits(Year(c.month), 4) + "-" + Digits(c.month % 12 + 1, 2) + "-" + Digits(c.day, 2) + "T"
             + Digits(second / 3600, 2) + ":" + Digits(second / 60 % 60, 2);
    assert SecondsText(c) == front + (":" + last);
  }

  lemma {:induction false} NoColon(n: nat, width: nat)
    ensures ':' !in Digits(n, width)
  {
    if width > 0 {
      NoColon(n / 10, width - 1);
    }
  }

  lemma FractionHasNoColon(nanos: nat)
    ensures ':' !in FractionText(nanos)
  {
    hide Digits, TrimZeros;
    NoColon(nanos, 9);
    ZerosBehind(Digits(nanos, 9));
  }

  /** Text in front of a time can be told from the time. */
  lemma StampTold(x: string, t: Time, y: string, u: Time)
    requires FourDigitYear(t) && FourDigitYear(u)
    ensures x + (":" + Format(t)) == y + (":" + Format(u)) <==> x == y && t == u
  {
    hide *;
    if x + (":" + Format(t)) == y + (":" + Format(u)) {
      var head, tail := LastField(t);
      var head', tail' := LastField(u);
      Reassociate(x, head, tail);
      Reassociate(y, head', tail');
      LastColon(x + (":" + head), tail, y + (":" + head'), tail');
      EndsEqual(x, ":" + head, y, ":" + head');
      EndsEqual(":", head, ":", head');
      FormatTold(t, u);
    }
  }

  lemma Reassociate(x: string, head: string, tail: string)
    ensures x + (":" + (head + (":" + tail))) == (x + (":" + head)) + (":" + tail)
  {
  }

  lemma LastColon(x: string, a: string, y: string, b: string)
    requires x + (":" + a) == y + (":" + b) && ':' !in a && ':' !in b
    ensures x == y && a == b
  {
    var s := x + (":" + a);
    assert s[|x|] == ':' && s[|y|] == ':';
    assert forall i :: |x| < i < |s| ==> s[i] == a[i - |x| - 1];
    assert forall i :: |y| < i < |s| ==> s[i] == b[i - |y| - 1];
    assert s[..|x|] == x && s[..|y|] == y && s[|x| + 1..] == a && s[|y| + 1..] == b;
  }

  lemma EndsEqual(x: string, a: string, y: string, b: string)
    requires x + a == y + b && |a| == |b|
    ensures x == y && a == b
  {
    assert (x + a)[..|x|] == x && (y + b)[..|y|] == y && (x + a)[|x|..] == a && (y + b)[|y|..] == b;
  }

  // ------------------------------------------------------------------ the period filters

  /** The usage query: recorded_at >= start AND recorded_at < end, as texts. */
  predicate UsageFilter(t: Time, p: Period) {
    !Text.Less(Format(t), Format(p.start)) && Text.Less(Format(t), Format(p.end))
  }

  /** A fraction of a second after a boundary. */
  predicate JustAfter(t: Time, boundary: Time) {
    boundary < t < boundary + SECOND
  }

  /** What the query lists: nothing in December of year 9999, and otherwise the month but for its fractions. */
  lemma ListedIs(t: Time, month: int)
    requires 0 <= month < LAST_MONTH && FourDigitYear(t)
    ensures var p := MonthPeriod(month);
      && (UsageFilter(t, p) <==>
            && month < LAST_MONTH - 1
            && (t == p.start || p.start + SECOND <= t) && t < p.end + SECOND && t != p.end)
  {
    MonthBoundaries(month);
    var p := MonthPeriod(month);
    hide Format, FourDigitYear, MonthPeriod, CivilOf, FullSecond;
    TextBefore(t, p.start);
    if month < LAST_MONTH - 1 {
      TextBefore(t, p.end);
    } else {
      TextBeforeYear10000(t, p.end);
      if p.start <= t {
        LateYear(t, month);
      }
    }
  }

  lemma LateYear(t: Time, month: int)
    requires MonthPeriod(month).start <= t
    ensures CivilOf(t).month >= month
  {
    MonthPeriodIs(month);
    hide CivilOf, Date, MonthPeriod, DaysIn;
    DatesInOrder(CivilOf(t), Civil(month, 1, 0));
  }

  /**
    * The query finds what the period contains, except for fractions of the month's first second and the next month's.
    * January of year 1 starts at the zero time, so its period contains nothing; the text of the end of December of year
    * 9999 has a digit more than the others, so the query lists nothing.
    */
  lemma UsageFilterIff(t: Time, month: int)
    requires 0 <= month < LAST_MONTH && FourDigitYear(t)
    ensures var p := MonthPeriod(month);
      && ((UsageFilter(t, p) <==> p.Contains(t)) <==>
            if month == 0 then JustAfter(t, p.start) || (p.end <= t && !JustAfter(t, p.end))
            else if month == LAST_MONTH - 1 then t < p.start
            else !JustAfter(t, p.start) && !JustAfter(t, p.end))
  {
    ListedIs(t, month);
    MonthBoundaries(month);
    var p := MonthPeriod(month);
    Starts(t);
    hide Format, MonthPeriod, CivilOf, UsageFilter;
    if month == LAST_MONTH - 1 {
      Ends(t);
    }
  }

  /** The years of four digits begin at the zero time. */
  lemma Starts(t: Time)
    requires FourDigitYear(t)
    ensures t >= 0
  {
    hide CivilOf, DaysIn;
    MonthPeriodIs(0);
    DatesInOrder(CivilOf(t), Civil(0, 1, 0));
    assert Date(0, 1, 0) == 0;
  }

  /** And end with December of year 9999. */
  lemma Ends(t: Time)
    requires FourDigitYear(t)
    ensures t < MonthPeriod(LAST_MONTH - 1).end
  {
    MonthPeriodIs(LAST_MONTH - 1);
    hide CivilOf, DaysIn, MonthPeriod, Date;
    DatesInOrder(CivilOf(t), Civil(LAST_MONTH, 1, 0));
  }

  lemma MonthBoundaries(month: int)
    requires 0 <= month < LAST_MONTH
    ensures var p := MonthPeriod(month);
      && FourDigitYear(p.start) && FullSecond(p.start) && FullSecond(p.end) && p.start + 28 * DAY <= p.end
      && (if month == 0 then p.start == 0 else p.start > 0)
      && (if month < LAST_MONTH - 1 then FourDigitYear(p.end) else Year(CivilOf(p.end).month) == 10000)
  {
    hide *;
    MonthPeriodIs(month);
    StartOfMonth(month);
    StartOfMonth(month + 1);
    BoundariesAre(month);
  }

  lemma StartOfMonth(month: int)
    requires month >= 0
    ensures CivilOf(Date(month, 1, 0)).month == month && FullSecond(Date(month, 1, 0))
    ensures if month == 0 then Date(month, 1, 0) == 0 else Date(month, 1, 0) > 0
  {
    hide CivilOf, DaysIn;
    FirstOfMonth(month);
    CivilOfDate(Civil(month, 1, 0));
    hide MonthStart;
    WholeSeconds(MonthStart(month) * 86400, 0);
  }

  lemma BoundariesAre(month: int)
    requires 0 <= month < LAST_MONTH
    requires MonthPeriod(month) == Period(Date(month, 1, 0), Date(month + 1, 1, 0))
    requires MonthPeriod(month).end == MonthPeriod(month).start + DaysIn(month) * DAY
    requires CivilOf(Date(month, 1, 0)).month == month && CivilOf(Date(month + 1, 1, 0)).month == month + 1
    ensures var p := MonthPeriod(month);
      && FourDigitYear(p.start) && p.start + 28 * DAY <= p.end
      && (if month < LAST_MONTH - 1 then FourDigitYear(p.end) else Year(CivilOf(p.end).month) == 10000)
  {
    hide CivilOf, Date, MonthPeriod, DaysIn;
  }

  /** The subscription query: starts_at < end AND (ends_at IS NULL OR ends_at > start), as texts. */
  predicate SubscriptionFilter(s: Subscription, p: Period) {
    && Text.Less(Format(s.startsAt), Format(p.end))
    && (s.endsAt.None? || Text.Less(Format(p.start), Format(s.endsAt.value)))
  }

  /**
    * The query lists every subscription that overlaps the month, unless it ends within a fraction of the month's first
    * second; and lists one that does not, only when it starts within a fraction of the next month's. In December of
    * year 9999 it lists those only that started by year 1000, and in January of year 1, which counts as unset, those
    * that no period overlaps.
    */
  lemma SubscriptionFilterIff(s: Subscription, month: int)
    requires 0 <= month < LAST_MONTH && FourDigitYear(s.startsAt)
    requires s.endsAt.Some? ==> FourDigitYear(s.endsAt.value) && s.startsAt <= s.endsAt.value
    ensures var p := MonthPeriod(month);
      && (SubscriptionFilter(s, p) <==>
            && (if month == LAST_MONTH - 1 then Year(CivilOf(s.startsAt).month) <= 1000
                else s.startsAt < p.end + SECOND && s.startsAt != p.end)
            && (s.endsAt.None? || p.start + SECOND <= s.endsAt.value))
      && (0 < month < LAST_MONTH - 1 ==>
            (SubscriptionFilter(s, p) <==>
               (OverlapsPeriod(s, p) || JustAfter(s.startsAt, p.end))
               && !(s.endsAt.Some? && JustAfter(s.endsAt.value, p.start))))
  {
    MonthBoundaries(month);
    var p := MonthPeriod(month);
    hide Format, FourDigitYear, MonthPeriod, CivilOf, FullSecond, Text.Less;
    if month < LAST_MONTH - 1 {
      TextBefore(s.startsAt, p.end);
    } else {
      TextBeforeYear10000(s.startsAt, p.end);
    }
    if s.endsAt.Some? {
      TextBefore(s.endsAt.value, p.start);
    }
  }

  // ------------------------------------------------------------------ a text can be read back

  /** The number that decimal digits stand for. */
  function Value(s: string): int {
    if s == "" then 0 else 10 * Value(s[..|s| - 1]) + (s[|s| - 1] as int - '0' as int)
  }

  lemma {:induction false} ValueOfDigits(n: nat, width: nat)
    requires Fits(n, width)
    ensures Value(Digits(n, width)) == n
  {
    if width > 0 {
      ValueOfDigits(n / 10, width - 1);
      assert Digits(n, width)[..width - 1] == Digits(n / 10, width - 1);
    }
  }

  function Zeros(n: nat): string {
    seq(n, i requires 0 <= i < n => '0')
  }

  /** Year, month, day and clock stand in their places, and then the fraction, if any, without trailing zeros. */
  lemma TextReads(t: Time)
    requires FourDigitYear(t)
    ensures var s, c, second := Format(t), CivilOf(t), CivilOf(t).clock / SECOND;
      && |s| >= 20 && s[4] == s[7] == '-' && s[10] == 'T' && s[13] == s[16] == ':' && s[|s| - 1] == 'Z'
      && Value(s[..4]) == Year(c.month) && Value(s[5..7]) == c.month % 12 + 1 && Value(s[8..10]) == c.day
      && Value(s[11..13]) == second / 3600 && Value(s[14..16]) == second / 60 % 60 && Value(s[17..19]) == second % 60
      && if |s| == 20 then t % SECOND == 0
         else |s| <= 30 && s[19] == '.' && s[|s| - 2] != '0'
              && Value(s[20..|s| - 1] + Zeros(30 - |s|)) == t % SECOND
  {
    hide CivilOf, SecondsText, FractionText, Format, Value, DaysIn, Year, Zeros;
    FormatIs(t);
    CivilIsValid(t);
    var c, n := CivilOf(t), t % SECOND;
    var x, f, s := SecondsText(c), FractionText(t % SECOND), Format(t);
    SecondsRead(c);
    FractionReads(n);
    assert forall i :: 0 <= i < |x| ==> s[i] == x[i];
    assert s[..4] == x[..4] && s[5..7] == x[5..7] && s[8..10] == x[8..10];
    assert s[11..13] == x[11..13] && s[14..16] == x[14..16] && s[17..19] == x[17..19];
    assert forall i :: 0 <= i < |f| ==> s[19 + i] == f[i];
    if |f| > 1 {
      assert s[20..|s| - 1] == f[1..|f| - 1];
    }
  }

  lemma SecondsRead(c: Civil)
    requires c.Valid() && 0 <= c.month < LAST_MONTH
    ensures var s, second := SecondsText(c), c.clock / SECOND;
      && |s| == 19 && s[4] == s[7] == '-' && s[10] == 'T' && s[13] == s[16] == ':'
      && Value(s[..4]) == Year(c.month) && Value(s[5..7]) == c.month % 12 + 1 && Value(s[8..10]) == c.day
      && Value(s[11..13]) == second / 3600 && Value(s[14..16]) == second / 60 % 60 && Value(s[17..19]) == second % 60
  {
    hide Digits, Fits, Value, DaysIn, SecondsText, Year;
    Layout(c);
    var second: nat := c.clock / SECOND;
    FourDigits(Year(c.month));
    ValueOfDigits(Year(c.month), 4);
    Field(c.month % 12 + 1);
    Field(c.day);
    Field(second / 3600);
    Field(second / 60 % 60);
    Field(second % 60);
    Places(Digits(Year(c.month), 4), Digits(c.month % 12 + 1, 2), Digits(c.day, 2), Digits(second / 3600, 2),
           Digits(second / 60 % 60, 2), Digits(second % 60, 2));
  }

  lemma Field(n: nat)
    requires n < 100
    ensures Value(Digits(n, 2)) == n
  {
    hide Digits, Fits, Value;
    TwoDigits(n);
    ValueOfDigits(n, 2);
  }

  lemma Places(y: string, mo: string, d: string, h: string, mi: string, s: string)
    requires |y| == 4 && |mo| == |d| == |h| == |mi| == |s| == 2
    ensures var x := y + ("-" + (mo + ("-" + (d + ("T" + (h + (":" + (mi + (":" + s)))))))));
      && |x| == 19 && x[4] == x[7] == '-' && x[10] == 'T' && x[13] == x[16] == ':'
      && x[..4] == y && x[5..7] == mo && x[8..10] == d && x[11..13] == h && x[14..16] == mi && x[17..19] == s
  {
    var x4 := mi + (":" + s);
    var x3 := h + (":" + x4);
    var x2 := d + ("T" + x3);
    var x1 := mo + ("-" + x2);
    FieldThen(mi, ':', s);
    FieldThen(h, ':', x4);
    FieldThen(d, 'T', x3);
    FieldThen(mo, '-', x2);
    FieldThen(y, '-', x1);
    var x := y + ("-" + x1);
    assert x[5..7] == x1[..2] && x[8..10] == x2[..2] && x[11..13] == x3[..2] && x[14..16] == x4[..2];
  }

  lemma FieldThen(field: string, separator: char, rest: string)
    ensures var x := field + ([separator] + rest);
      |x| == |field| + 1 + |rest| && x[..|field|] == field && x[|field|] == separator && x[|field| + 1..] == rest
  {
  }

  lemma FractionReads(n: nat)
    requires n < SECOND
    ensures var f := FractionText(n);
      && |f| >= 1 && f[|f| - 1] == 'Z'
      && if |f| == 1 then n == 0
         else |f| <= 11 && f[0] == '.' && f[|f| - 2] != '0' && Value(f[1..|f| - 1] + Zeros(11 - |f|)) == n
  {
    hide Digits, TrimZeros, Value, Fits;
    if n != 0 {
      var s := Digits(n, 9);
      var x := TrimZeros(s);
      NineDigits(n);
      ValueOfDigits(n, 9);
      ZerosBehind(s);
      assert s == x + Zeros(9 - |x|);
      NotAllZeros(n);
      LastIsNoZero(s);
      var f := FractionText(n);
      assert f[1..|f| - 1] == x && f[|f| - 2] == x[|x| - 1];
    }
  }

  lemma {:induction false} LastIsNoZero(s: string)
    ensures TrimZeros(s) != "" ==> TrimZeros(s)[|TrimZeros(s)| - 1] != '0'
  {
    if s != "" && s[|s| - 1] == '0' {
      LastIsNoZero(s[..|s| - 1]);
    }
  }

  lemma NotAllZeros(n: nat)
    requires 0 < n < SECOND
    ensures TrimZeros(Digits(n, 9)) != ""
  {
    hide Digits, TrimZeros, Fits;
    var s := Digits(n, 9);
    NineDigits(n);
    NineDigits(0);
    ValueOfDigits(n, 9);
    ZerosBehind(s);
    if TrimZeros(s) == "" {
      ZeroValue(s);
    }
  }

  lemma {:induction false} ZeroValue(s: string)
    requires forall i :: 0 <= i < |s| ==> s[i] == '0'
    ensures Value(s) == 0
  {
    if s != "" {
      ZeroValue(s[..|s| - 1]);
    }
  }
}
