/** The ids of alerts: budget, kind, the threshold printed with two decimals, and the time. */
module AlertIds {
  import opened Budget
  import opened Domain
  import Text
  import opened Timestamps

  /** The percent printed with two decimals, as a whole number of hundredths. */
  function Hundredths(percent: real): int {
    Nearest(percent * 100.0)
  }

  function Decimal(n: nat): string {
    if n < 10 then [Digit(n)] else Decimal(n / 10) + [Digit(n)]
  }

  function CentsText(n: nat): string {
    Decimal(n / 100) + ("." + Digits(n % 100, 2))
  }

  function PercentText(percent: real): string {
    var n := Hundredths(percent);
    if n < 0 then "-" + CentsText(-n) else CentsText(n)
  }

  function Stamp(at: Time): string {
    ":" + Format(at)
  }

  function ThresholdName(budgetId: string, percent: real): string {
    budgetId + (":threshold:" + PercentText(percent))
  }

  function OverrunName(budgetId: string): string {
    budgetId + ":overrun"
  }

  function ForecastName(budgetId: string): string {
    budgetId + ":forecast"
  }

  function ThresholdId(budgetId: string, percent: real, at: Time): string {
    ThresholdName(budgetId, percent) + Stamp(at)
  }

  function OverrunId(budgetId: string, at: Time): string {
    OverrunName(budgetId) + Stamp(at)
  }

  function ForecastAlertId(budgetId: string, at: Time): string {
    ForecastName(budgetId) + Stamp(at)
  }

  // ------------------------------------------------------------------ what an id tells

  /** A colon in front of all that follows the budget's id. */
  lemma IdsAreVisible(budgetId: string, at: Time)
    ensures forall percent :: Text.Trim(ThresholdId(budgetId, percent, at)) != ""
    ensures Text.Trim(OverrunId(budgetId, at)) != "" && Text.Trim(ForecastAlertId(budgetId, at)) != ""
  {
    hide Text.Trim, PercentText, Format;
    var n := |budgetId|;
    forall percent: real
      ensures Text.Trim(ThresholdId(budgetId, percent, at)) != ""
    {
      Text.VisibleStays(ThresholdId(budgetId, percent, at), n);
    }
    Text.VisibleStays(OverrunId(budgetId, at), n);
    Text.VisibleStays(ForecastAlertId(budgetId, at), n);
  }

  /** The ids, spelled out. */
  lemma IdsAre(budgetId: string, percent: real, at: Time)
    ensures ThresholdId(budgetId, percent, at)
         == budgetId + ":threshold:" + PercentText(percent) + ":" + Format(at)
    ensures OverrunId(budgetId, at) == budgetId + ":overrun:" + Format(at)
    ensures ForecastAlertId(budgetId, at) == budgetId + ":forecast:" + Format(at)
  {
    hide PercentText, Format;
  }

  /** The printed percent is read as the nearest hundredth, an even one at a tie. */
  lemma PercentReads(p: real)
    requires IsPercent(p)
    ensures var s, n := PercentText(p), Hundredths(p);
      && |s| == 4 && s[1] == '.' && Value(s[..1] + s[2..]) == n
      && -0.5 <= p * 100.0 - n as real <= 0.5 && (p * 100.0 - n as real in {-0.5, 0.5} ==> n % 2 == 0)
  {
    PercentIsShort(p);
    NearestHundredth(p);
    hide Hundredths, PercentText, Value, Digits;
    var n: nat := Hundredths(p);
    var s := PercentText(p);
    assert s[..1] + s[2..] == [Digit(n / 100)] + Digits(n % 100, 2);
    ThreeDigits(n);
  }

  lemma NearestHundredth(p: real)
    ensures var n := Hundredths(p);
      -0.5 <= p * 100.0 - n as real <= 0.5 && (p * 100.0 - n as real in {-0.5, 0.5} ==> n % 2 == 0)
  {
  }

  lemma ThreeDigits(n: nat)
    requires n < 1000
    ensures Value([Digit(n / 100)] + Digits(n % 100, 2)) == n
  {
    assert Fits(n / 10 / 10 / 10, 0);
    assert Fits(n / 10 / 10, 1);
    assert Fits(n / 10, 2);
    ValueOfDigits(n, 3);
    DigitsFrom(n);
  }

  lemma DigitsFrom(n: nat)
    ensures Digits(n, 3) == [Digit(n / 100)] + Digits(n % 100, 2)
  {
    assert n / 10 / 10 == n / 100 && n % 100 / 10 % 10 == n / 10 % 10 && n % 100 % 10 == n % 10;
    assert Digits(n / 100, 1) == [Digit(n / 100)];
    assert Digits(n / 10, 2) == Digits(n / 10 / 10, 1) + [Digit(n / 10)];
    assert Digits(n, 3) == Digits(n / 10, 2) + [Digit(n)];
    assert Digits(n % 100 / 10, 1) == [Digit(n % 100 / 10)];
    assert Digits(n % 100, 2) == Digits(n % 100 / 10, 1) + [Digit(n % 100)];
  }

  predicate IsPercent(p: real) {
    0.0 < p < 1.0
  }

  lemma {:induction false} PercentIsShort(p: real)
    requires IsPercent(p)
    ensures 0 <= Hundredths(p) <= 100
    ensures PercentText(p) == [Digit(Hundredths(p) / 100)] + ("." + Digits(Hundredths(p) % 100, 2))
  {
    hide Digits, Digit;
  }

  /** Two percents print alike exactly when they round to the same hundredth. */
  lemma PercentsPrintAlike(p: real, q: real)
    requires IsPercent(p) && IsPercent(q)
    ensures PercentText(p) == PercentText(q) <==> Hundredths(p) == Hundredths(q)
    ensures |PercentText(p)| == |PercentText(q)| == 4 && PercentText(p)[3] <= '9'
  {
    hide Hundredths, PercentText, Digits, Text.Less, Fits;
    PercentIsShort(p);
    PercentIsShort(q);
    var m, n := Hundredths(p), Hundredths(q);
    LastDigit(m % 100, 2);
    OneDigit(m / 100, n / 100);
    TwoDigits(m % 100);
    TwoDigits(n % 100);
    DigitsInOrder(m % 100, n % 100, 2);
    var x, y := [Digit(m / 100)], [Digit(n / 100)];
    FieldsEqual(x, y, "." + Digits(m % 100, 2), "." + Digits(n % 100, 2));
    FieldsEqual(".", ".", Digits(m % 100, 2), Digits(n % 100, 2));
    assert x == y <==> x[0] == y[0];
  }

  lemma LastDigit(n: nat, width: nat)
    requires width > 0
    ensures Digits(n, width)[width - 1] <= '9'
  {
  }

  /** Ids of thresholds are the same exactly for one budget, one time, and percents that print alike. */
  lemma ThresholdIdsAlike(b: string, p: real, t: Time, c: string, q: real, u: Time)
    requires IsPercent(p) && IsPercent(q) && FourDigitYear(t) && FourDigitYear(u)
    ensures ThresholdId(b, p, t) == ThresholdId(c, q, u) <==> b == c && t == u && Hundredths(p) == Hundredths(q)
  {
    hide Hundredths, PercentText, Format, FourDigitYear, IsPercent;
    StampTold(ThresholdName(b, p), t, ThresholdName(c, q), u);
    PercentsPrintAlike(p, q);
    if ThresholdName(b, p) == ThresholdName(c, q) {
      EndsEqual(b, ":threshold:" + PercentText(p), c, ":threshold:" + PercentText(q));
      EndsEqual(":threshold:", PercentText(p), ":threshold:", PercentText(q));
    }
  }

  lemma OverrunIdsAlike(b: string, t: Time, c: string, u: Time)
    requires FourDigitYear(t) && FourDigitYear(u)
    ensures OverrunId(b, t) == OverrunId(c, u) <==> b == c && t == u
    ensures ForecastAlertId(b, t) == ForecastAlertId(c, u) <==> b == c && t == u
  {
    hide Format, FourDigitYear;
    StampTold(OverrunName(b), t, OverrunName(c), u);
    StampTold(ForecastName(b), t, ForecastName(c), u);
    assert OverrunName(b)[..|b|] == b && OverrunName(c)[..|c|] == c;
    assert ForecastName(b)[..|b|] == b && ForecastName(c)[..|c|] == c;
  }

  /** Ids of different kinds differ. */
  lemma KindsApart(b: string, t: Time, c: string, u: Time, p: real)
    requires FourDigitYear(t) && FourDigitYear(u) && IsPercent(p)
    ensures OverrunId(b, t) != ForecastAlertId(c, u)
    ensures ThresholdId(b, p, t) != OverrunId(c, u) && ThresholdId(b, p, t) != ForecastAlertId(c, u)
  {
    hide Format, FourDigitYear, PercentText, IsPercent;
    StampTold(OverrunName(b), t, ForecastName(c), u);
    StampTold(ThresholdName(b, p), t, OverrunName(c), u);
    StampTold(ThresholdName(b, p), t, ForecastName(c), u);
    PercentsPrintAlike(p, p);
    LastLetters(b, c, p);
  }

  lemma LastLetters(b: string, c: string, p: real)
    requires |PercentText(p)| == 4 && PercentText(p)[3] <= '9'
    ensures OverrunName(b) != ForecastName(c)
    ensures ThresholdName(b, p) != OverrunName(c) && ThresholdName(b, p) != ForecastName(c)
  {
    hide PercentText;
    var x, y := OverrunName(b), ForecastName(c);
    var z, w := ThresholdName(b, p), OverrunName(c);
    assert x[|x| - 1] == 'n' && y[|y| - 1] == 't' && w[|w| - 1] == 'n' && z[|z| - 1] <= '9';
  }

  /** Different thresholds can print alike: one row keeps one of their alerts. */
  lemma CloseThresholds()
    ensures Hundredths(0.801) == Hundredths(0.804) == 80
  {
    assert 0.801 * 100.0 == 80.1 && 0.804 * 100.0 == 80.4;
    assert (80.1).Floor == 80 && (80.4).Floor == 80;
  }
}
