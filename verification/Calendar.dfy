/**
 * Decimal text and the proleptic Gregorian calendar as ECMAScript's Date computes it: day numbers
 * from years and months, and back (section 21.4.1 of ECMA-262).
 */
module Decimal {
  import opened Prelude
  import Lex

  predicate IsDigit(c: char) { '0' <= c <= '9' }

  predicate Digits(s: string) { forall i :: 0 <= i < |s| ==> IsDigit(s[i]) }

  function DigitOf(n: nat): char
    requires n < 10
  {
    ('0' as int + n) as char
  }

  function DigitValue(c: char): nat
    requires IsDigit(c)
  {
    c as int - '0' as int
  }

  /** `Number.parseInt(s, 10)` of a run of digits. */
  function Value(s: string): nat
    requires Digits(s)
  {
    if s == "" then 0 else 10 * Value(s[..|s| - 1]) + DigitValue(s[|s| - 1])
  }

  function Pow10(w: nat): nat { if w == 0 then 1 else 10 * Pow10(w - 1) }

  /** The last `w` decimal digits of `n`, with leading zeros. */
  function Pad(n: nat, w: nat): string {
    if w == 0 then "" else Pad(n / 10, w - 1) + [DigitOf(n % 10)]
  }

  lemma {:induction false} PadShape(n: nat, w: nat)
    ensures |Pad(n, w)| == w && Digits(Pad(n, w))
  {
    if w > 0 { PadShape(n / 10, w - 1); }
  }

  lemma {:induction false} PadValue(n: nat, w: nat)
    requires n < Pow10(w)
    ensures Digits(Pad(n, w)) && Value(Pad(n, w)) == n
  {
    PadShape(n, w);
    if w > 0 {
      PadValue(n / 10, w - 1);
      PadShape(n / 10, w - 1);
      assert Pad(n, w)[..w - 1] == Pad(n / 10, w - 1);
    }
  }

  lemma {:induction false} ValuePad(s: string)
    requires Digits(s)
    ensures Value(s) < Pow10(|s|) && Pad(Value(s), |s|) == s
  {
    if s != "" {
      ValuePad(s[..|s| - 1]);
      assert s == s[..|s| - 1] + [s[|s| - 1]];
    }
  }

  /** The decimal text of a number, as `toString` prints it. */
  function Print(n: nat): string { if n < 10 then [DigitOf(n)] else Print(n / 10) + [DigitOf(n % 10)] }

  lemma {:induction false} PrintShape(n: nat)
    ensures Print(n) != "" && Digits(Print(n)) && Value(Print(n)) == n && (n > 0 ==> Print(n)[0] != '0')
  {
    if n >= 10 {
      PrintShape(n / 10);
      assert Print(n)[..|Print(n)| - 1] == Print(n / 10);
    } else {
      assert Print(n)[..0] == "";
    }
  }

  /** Digits without a leading zero are the text of their value. */
  lemma {:induction false} PrintValue(s: string)
    requires s != "" && Digits(s) && s[0] != '0'
    ensures Value(s) > 0 && Print(Value(s)) == s
  {
    var front := s[..|s| - 1];
    assert s == front + [s[|s| - 1]];
    if front != "" { PrintValue(front); }
  }

  /** A number has at most `w` digits exactly when it is below ten to the `w`. */
  lemma {:induction false} PrintLength(n: nat, w: nat)
    requires w > 0
    ensures |Print(n)| <= w <==> n < Pow10(w)
  {
    if n < 10 {
      AtLeastTen(w);
    } else if w == 1 {
      PrintShape(n / 10);
    } else {
      PrintLength(n / 10, w - 1);
    }
  }

  lemma {:induction false} AtLeastTen(w: nat)
    requires w > 0
    ensures Pow10(w) >= 10
  {
    if w > 1 { AtLeastTen(w - 1); }
  }

  /** Texts of equal width are ordered first by their fronts. */
  lemma {:induction false} LessConcat(a: string, x: string, b: string, y: string)
    requires |a| == |b|
    ensures Lex.Less(a + x, b + y) <==> Lex.Less(a, b) || (a == b && Lex.Less(x, y))
  {
    if a == "" {
      assert a + x == x && b + y == y;
    } else {
      assert (a + x)[1..] == a[1..] + x && (b + y)[1..] == b[1..] + y;
      LessConcat(a[1..], x, b[1..], y);
      assert a == [a[0]] + a[1..] && b == [b[0]] + b[1..];
    }
  }

  lemma OneCharLess(c: char, d: char)
    ensures Lex.Less([c], [d]) <==> c < d
  {
    assert [c][1..] == [] && [d][1..] == [];
  }

  /** Fixed-width decimal text is ordered as the numbers are. */
  lemma {:induction false} PadOrder(m: nat, n: nat, w: nat)
    requires m < Pow10(w) && n < Pow10(w)
    ensures Lex.Less(Pad(m, w), Pad(n, w)) <==> m < n
    ensures Pad(m, w) == Pad(n, w) <==> m == n
  {
    if w > 0 {
      PadOrder(m / 10, n / 10, w - 1);
      PadShape(m / 10, w - 1);
      PadShape(n / 10, w - 1);
      LessConcat(Pad(m / 10, w - 1), [DigitOf(m % 10)], Pad(n / 10, w - 1), [DigitOf(n % 10)]);
      OneCharLess(DigitOf(m % 10), DigitOf(n % 10));
      PadValue(m, w);
      PadValue(n, w);
    }
  }
}

module Calendar {
  import opened Prelude

  predicate Leap(y: int) { y % 4 == 0 && (y % 100 != 0 || y % 400 == 0) }

  /** The Gregorian length of a month, 1 to 12. */
  function MonthLength(y: int, m: int): int {
    if m == 2 then (if Leap(y) then 29 else 28)
    else if m == 4 || m == 6 || m == 9 || m == 11 then 30 else 31
  }

  /** Days in a year before the first of a month, 1 to 13. */
  function DaysBefore(y: int, m: int): int
    requires 1 <= m <= 13
    decreases m
  {
    if m == 1 then 0 else DaysBefore(y, m - 1) + MonthLength(y, m - 1)
  }

  /** `DayFromYear` of section 21.4.1.3: days from the epoch to the first of January. */
  function DayFromYear(y: int): int {
    365 * (y - 1970) + (y - 1969) / 4 - (y - 1901) / 100 + (y - 1601) / 400
  }

  function YearLength(y: int): int { if Leap(y) then 366 else 365 }

  lemma YearStep(y: int)
    ensures DayFromYear(y + 1) == DayFromYear(y) + YearLength(y)
  {
    QuotientStep(y - 1969, 4);
    QuotientStep(y - 1901, 100);
    QuotientStep(y - 1601, 400);
    ShiftedRemainder(y, 4, 492);
    ShiftedRemainder(y, 100, 19);
    ShiftedRemainder(y, 400, 4);
    CenturiesAreMultiples(y);
  }

  lemma ShiftedRemainder(y: int, k: int, m: int)
    requires k == 4 || k == 100 || k == 400
    ensures (y - k * m) % k == y % k
  {}

  lemma CenturiesAreMultiples(y: int)
    ensures y % 100 == 0 ==> y % 4 == 0
    ensures y % 400 == 0 ==> y % 100 == 0
  {}

  /** A quotient grows by one exactly when the next number is a multiple of the divisor. */
  lemma QuotientStep(n: int, k: int)
    requires k == 4 || k == 100 || k == 400
    ensures (n + 1) / k == n / k + (if (n + 1) % k == 0 then 1 else 0)
  {}

  lemma YearDays(y: int)
    ensures DaysBefore(y, 13) == YearLength(y)
    ensures DaysBefore(y, 2) == 31 && DaysBefore(y, 3) == 59 + (if Leap(y) then 1 else 0)
    ensures forall m :: 3 <= m <= 13 ==> DaysBefore(y, m) == DaysBefore(y, 3) + DaysBefore(1, m) - DaysBefore(1, 3)
  {
    forall m | 3 <= m <= 13 ensures DaysBefore(y, m) == DaysBefore(y, 3) + DaysBefore(1, m) - DaysBefore(1, 3) { SameTail(y, m); }
    assert DaysBefore(1, 13) - DaysBefore(1, 3) == 306 by { TailDays(); }
    assert DaysBefore(y, 2) == DaysBefore(y, 1) + 31;
  }

  lemma {:induction false} SameTail(y: int, m: int)
    requires 3 <= m <= 13
    ensures DaysBefore(y, m) == DaysBefore(y, 3) + DaysBefore(1, m) - DaysBefore(1, 3)
    decreases m
  {
    if m > 3 { SameTail(y, m - 1); }
  }

  lemma TailDays()
    ensures DaysBefore(1, 13) - DaysBefore(1, 3) == 306
  {
    assert DaysBefore(1, 4) == DaysBefore(1, 3) + 31;
    assert DaysBefore(1, 5) == DaysBefore(1, 3) + 61;
    assert DaysBefore(1, 6) == DaysBefore(1, 3) + 92;
    assert DaysBefore(1, 7) == DaysBefore(1, 3) + 122;
    assert DaysBefore(1, 8) == DaysBefore(1, 3) + 153;
    assert DaysBefore(1, 9) == DaysBefore(1, 3) + 184;
    assert DaysBefore(1, 10) == DaysBefore(1, 3) + 214;
    assert DaysBefore(1, 11) == DaysBefore(1, 3) + 245;
    assert DaysBefore(1, 12) == DaysBefore(1, 3) + 275;
  }

  /** The last of December is the day before the next first of January. */
  lemma LastOfYear(y: int)
    ensures DayFromYear(y) + DaysBefore(y, 12) + 30 == DayFromYear(y + 1) - 1
  {
    YearStep(y);
    YearDays(y);
    assert DaysBefore(y, 13) == DaysBefore(y, 12) + MonthLength(y, 12);
  }

  lemma {:induction false} MonthsIncrease(y: int, m: int, n: int)
    requires 1 <= m < n <= 13
    ensures DaysBefore(y, m) + MonthLength(y, m) <= DaysBefore(y, n)
    decreases n
  {
    if m < n - 1 { MonthsIncrease(y, m, n - 1); }
  }

  lemma {:induction false} YearsIncrease(x: int, y: int)
    requires x < y
    ensures DayFromYear(x) + YearLength(x) <= DayFromYear(y)
    decreases y - x
  {
    YearStep(y - 1);
    if x < y - 1 { YearsIncrease(x, y - 1); }
  }

  // ---- Day numbers and dates. ----

  datatype Date = Date(y: int, m: int, d: int)

  predicate ValidDate(t: Date) { 1 <= t.m <= 12 && 1 <= t.d <= MonthLength(t.y, t.m) }

  /** `MakeDay` of a valid date. */
  function DayOf(t: Date): int
    requires 1 <= t.m <= 12
  {
    DayFromYear(t.y) + DaysBefore(t.y, t.m) + t.d - 1
  }

  /** `YearFromTime`: the year whose first day is the last one not after `day`. */
  function YearFromDay(day: int, guess: int): int
    requires DayFromYear(guess) <= day
    decreases day - DayFromYear(guess)
  {
    YearStep(guess);
    if DayFromYear(guess + 1) <= day then YearFromDay(day, guess + 1) else guess
  }

  function MonthFromDay(y: int, rest: int, guess: int): int
    requires 1 <= guess <= 12
    decreases 12 - guess
  {
    if guess < 12 && DaysBefore(y, guess + 1) <= rest then MonthFromDay(y, rest, guess + 1) else guess
  }

  /** The date of a day not before the year zero. */
  function DateOf(day: int): Date
    requires DayFromYear(0) <= day
  {
    var y := YearFromDay(day, 0);
    var rest := day - DayFromYear(y);
    var m := MonthFromDay(y, rest, 1);
    Date(y, m, rest - DaysBefore(y, m) + 1)
  }

  lemma {:induction false} YearFound(day: int, guess: int)
    requires DayFromYear(guess) <= day
    ensures var y := YearFromDay(day, guess); guess <= y && DayFromYear(y) <= day < DayFromYear(y) + YearLength(y)
    decreases day - DayFromYear(guess)
  {
    YearStep(guess);
    if DayFromYear(guess + 1) <= day { YearFound(day, guess + 1); }
  }

  lemma {:induction false} MonthFound(y: int, rest: int, guess: int)
    requires 1 <= guess <= 12 && DaysBefore(y, guess) <= rest < YearLength(y)
    ensures var m := MonthFromDay(y, rest, guess); 1 <= m <= 12 && DaysBefore(y, m) <= rest < DaysBefore(y, m) + MonthLength(y, m)
    decreases 12 - guess
  {
    if guess < 12 && DaysBefore(y, guess + 1) <= rest {
      MonthFound(y, rest, guess + 1);
    } else if guess == 12 {
      YearDays(y);
      assert DaysBefore(y, 13) == DaysBefore(y, 12) + MonthLength(y, 12);
    }
  }

  /** Every day from the year zero on is the day of its date. */
  lemma DateOfDay(day: int)
    requires DayFromYear(0) <= day
    ensures ValidDate(DateOf(day)) && DayOf(DateOf(day)) == day && DateOf(day).y >= 0
  {
    YearFound(day, 0);
    var y := YearFromDay(day, 0);
    MonthFound(y, day - DayFromYear(y), 1);
  }

  predicate Before(a: Date, b: Date) { a.y < b.y || (a.y == b.y && (a.m < b.m || (a.m == b.m && a.d < b.d))) }

  lemma EarlierDay(a: Date, b: Date)
    requires ValidDate(a) && ValidDate(b) && Before(a, b)
    ensures DayOf(a) < DayOf(b)
  {
    if a.y < b.y {
      YearsIncrease(a.y, b.y);
      YearDays(a.y);
      MonthsIncrease(a.y, a.m, 13);
      FirstMonths(b.y, b.m);
    } else if a.m < b.m {
      MonthsIncrease(a.y, a.m, b.m);
    }
  }

  lemma {:induction false} FirstMonths(y: int, m: int)
    requires 1 <= m <= 13
    ensures DaysBefore(y, m) >= 0
    decreases m
  {
    if m > 1 { FirstMonths(y, m - 1); }
  }

  /** Day numbers order valid dates exactly as dates are ordered. */
  lemma DayOrder(a: Date, b: Date)
    requires ValidDate(a) && ValidDate(b)
    ensures DayOf(a) < DayOf(b) <==> Before(a, b)
    ensures DayOf(a) == DayOf(b) <==> a == b
  {
    if Before(a, b) { EarlierDay(a, b); }
    if Before(b, a) { EarlierDay(b, a); }
  }

  /** The date of the day of a valid date is that date. */
  lemma DateRoundTrip(t: Date)
    requires ValidDate(t) && t.y >= 0
    ensures DayFromYear(0) <= DayOf(t) && DateOf(DayOf(t)) == t
  {
    if t.y > 0 { YearsIncrease(0, t.y); }
    FirstMonths(t.y, t.m);
    DateOfDay(DayOf(t));
    DayOrder(DateOf(DayOf(t)), t);
  }

  lemma LastDayOfYear(y: int)
    ensures DayOf(Date(y, 12, 31)) == DayFromYear(y + 1) - 1
  {
    LastOfYear(y);
  }

  lemma FirstDayOfYear(y: int)
    requires y >= 0
    ensures DayFromYear(0) <= DayFromYear(y) && DateOf(DayFromYear(y)) == Date(y, 1, 1)
  {
    JanuaryFirst(y);
    DateRoundTrip(Date(y, 1, 1));
  }

  lemma JanuaryFirst(y: int)
    ensures ValidDate(Date(y, 1, 1)) && DayOf(Date(y, 1, 1)) == DayFromYear(y)
  {}

  // ---- `daysInMonth`. ----

  /** The year `Date.UTC` understands: 0 to 99 mean 1900 to 1999. */
  function UtcYear(y: int): int { if 0 <= y <= 99 then 1900 + y else y }

  /** The day before the first of the next month. */
  function MonthEnd(y: int, m: int): int
    requires 1 <= m <= 12
  {
    if m == 12 then DayFromYear(y + 1) - 1 else DayFromYear(y) + DaysBefore(y, m + 1) - 1
  }

  lemma MonthEndIsLastDay(y: int, m: int)
    requires 1 <= m <= 12
    ensures MonthEnd(y, m) == DayOf(Date(y, m, MonthLength(y, m)))
  {
    if m == 12 {
      LastDayOfYear(y);
    } else {
      assert DaysBefore(y, m + 1) == DaysBefore(y, m) + MonthLength(y, m);
    }
  }

  lemma MonthEndDate(y: int, m: int)
    requires 1 <= m <= 12 && 0 <= y
    ensures DayFromYear(0) <= MonthEnd(y, m) && DateOf(MonthEnd(y, m)) == Date(y, m, MonthLength(y, m))
  {
    MonthEndIsLastDay(y, m);
    DateRoundTrip(Date(y, m, MonthLength(y, m)));
  }

  /** `new Date(Date.UTC(year, month, 0)).getUTCDate()`. */
  function DaysInMonth(y: int, m: int): int
    requires 1 <= m <= 12 && 0 <= y
  {
    MonthEndDate(UtcYear(y), m);
    DateOf(MonthEnd(UtcYear(y), m)).d
  }

  lemma SameLeaps(y: int)
    requires 1 <= y <= 99
    ensures Leap(1900 + y) == Leap(y)
  {
    assert (1900 + y) % 4 == y % 4;
    assert y % 100 == y && (1900 + y) % 100 == y;
  }

  /**
   * Day numbers from scratch: the epoch is day zero, each day of a month is one more, and the first of
   * the next month is one more than the last of this one, whose number is the Gregorian length.
   */
  lemma DaysAreCounted(y: int, m: int, d: int)
    requires 1 <= m <= 12
    ensures DayOf(Date(1970, 1, 1)) == 0
    ensures DayOf(Date(y, m, d + 1)) == DayOf(Date(y, m, d)) + 1
    ensures var last := if m == 2 then (if y % 4 == 0 && (y % 100 != 0 || y % 400 == 0) then 29 else 28)
                        else if m == 4 || m == 6 || m == 9 || m == 11 then 30 else 31;
      DayOf(if m == 12 then Date(y + 1, 1, 1) else Date(y, m + 1, 1)) == DayOf(Date(y, m, last)) + 1
  {
    if m == 12 { LastDayOfYear(y); JanuaryFirst(y + 1); }
  }

  /** The mapped century matters for February of the year zero alone; from the year one on all lengths are Gregorian. */
  lemma DaysInMonthIsGregorian(y: int, m: int)
    requires 1 <= m <= 12 && 0 <= y
    ensures DaysInMonth(y, m) == MonthLength(y, m) <==> !(y == 0 && m == 2)
  {
    MonthEndDate(UtcYear(y), m);
    if 1 <= y <= 99 { SameLeaps(y); }
  }
}
