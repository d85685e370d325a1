/**
 * Normalising the database's timestamp text to a fixed-width UTC string. The text is the one
 * PostgreSQL prints; the result is compared elsewhere as a plain string (section 5.7 of RFC 3339).
 */
module Timestamps {
  import opened Prelude
  import opened Decimal
  import opened Calendar
  import Lex

  /** The matched groups of the timestamp pattern. */
  datatype Fields = Fields(
    year: nat, month: nat, day: nat, hour: nat, minute: nat, second: nat, fraction: string,
    negative: bool, offHour: nat, offMinute: nat)

  // ---- The pattern. ----

  /** `YYYY-MM-DD HH:MM:SS`, digits only. */
  predicate Head(t: string) {
    && |t| >= 19
    && Digits(t[0..4]) && t[4] == '-' && Digits(t[5..7]) && t[7] == '-' && Digits(t[8..10]) && t[10] == ' '
    && Digits(t[11..13]) && t[13] == ':' && Digits(t[14..16]) && t[16] == ':' && Digits(t[17..19])
  }

  function DigitRun(s: string): nat
    ensures DigitRun(s) <= |s| && Digits(s[..DigitRun(s)])
    ensures DigitRun(s) < |s| ==> !IsDigit(s[DigitRun(s)])
  {
    if s == "" || !IsDigit(s[0]) then 0
    else
      assert s[..1 + DigitRun(s[1..])] == [s[0]] + s[1..][..DigitRun(s[1..])];
      1 + DigitRun(s[1..])
  }

  /** The optional fraction: the digits after a point, and the text behind them. */
  function Fraction(s: string): Option<(string, string)> {
    if s == "" || s[0] != '.' then Some(("", s))
    else
      var n := DigitRun(s[1..]);
      if 1 <= n <= 6 then Some((s[1..1 + n], s[1 + n..])) else None
  }

  /** The offset: a sign, two digits, and optionally two more, with or without a colon. */
  function Offset(s: string): Option<(bool, nat, nat)> {
    if |s| < 3 || (s[0] != '+' && s[0] != '-') || !Digits(s[1..3]) then None
    else if |s| == 3 then Some((s[0] == '-', Value(s[1..3]), 0))
    else if |s| == 5 && Digits(s[3..5]) then Some((s[0] == '-', Value(s[1..3]), Value(s[3..5])))
    else if |s| == 6 && s[3] == ':' && Digits(s[4..6]) then Some((s[0] == '-', Value(s[1..3]), Value(s[4..6])))
    else None
  }

  function Parse(text: string): Option<Fields> {
    if !Head(text) then None
    else
      match Fraction(text[19..])
      case None => None
      case Some((fraction, tail)) =>
        match Offset(tail)
        case None => None
        case Some((negative, offHour, offMinute)) =>
          Some(Fields(Value(text[0..4]), Value(text[5..7]), Value(text[8..10]), Value(text[11..13]),
                      Value(text[14..16]), Value(text[17..19]), fraction, negative, offHour, offMinute))
  }

  // ---- Normalisation. ----

  /** The range checks; the fraction holds at most six digits by the pattern. */
  predicate Accepted(f: Fields) {
    && 1 <= f.year <= 9999 && 1 <= f.month <= 12 && 1 <= f.day <= DaysInMonth(f.year, f.month)
    && f.hour <= 23 && f.minute <= 59 && f.second <= 59 && f.offHour <= 23 && f.offMinute <= 59
    && Digits(f.fraction) && |f.fraction| <= 6
  }

  function Zeros(n: nat): string { if n == 0 then "" else Zeros(n - 1) + "0" }

  /** `(fraction ?? '').padEnd(6, '0')`. */
  function Micros(fraction: string): string
    requires |fraction| <= 6
  {
    fraction + Zeros(6 - |fraction|)
  }

  function OffsetMinutes(f: Fields): int { (if f.negative then -1 else 1) * (f.offHour * 60 + f.offMinute) }

  /** Seconds from the epoch to the local time minus its offset. */
  function UtcSeconds(f: Fields): int
    requires 1 <= f.month <= 12
  {
    DayOf(Date(f.year, f.month, f.day)) * 86_400 + f.hour * 3600 + f.minute * 60 + f.second - OffsetMinutes(f) * 60
  }

  /** The instant a text denotes, in microseconds: local time minus offset, every fractional digit kept. */
  function Instant(f: Fields): int
    requires Accepted(f)
  {
    MicrosShape(f.fraction);
    UtcSeconds(f) * 1_000_000 + Value(Micros(f.fraction))
  }

  lemma {:induction false} ZerosShape(n: nat)
    ensures |Zeros(n)| == n && Digits(Zeros(n))
  {
    if n > 0 { ZerosShape(n - 1); }
  }

  lemma MicrosShape(fraction: string)
    requires Digits(fraction) && |fraction| <= 6
    ensures |Micros(fraction)| == 6 && Digits(Micros(fraction)) && Value(Micros(fraction)) < 1_000_000
    ensures Pad(Value(Micros(fraction)), 6) == Micros(fraction)
  {
    ZerosShape(6 - |fraction|);
    ValuePad(Micros(fraction));
    SixDigits();
  }

  lemma SixDigits()
    ensures Pow10(6) == 1_000_000 && Pow10(4) == 10_000 && Pow10(2) == 100
  {
    assert Pow10(3) == 1000;
    assert Pow10(5) == 100_000;
  }

  /** The year field of `toISOString`. */
  function IsoYear(y: int): string
    requires 0 <= y
  {
    if y <= 9999 then Pad(y, 4) else "+" + Pad(y, 6)
  }

  /** Date, hour and minute, after the text of the year. */
  function MinuteText(year: string, m: nat, d: nat, h: nat, mi: nat): string {
    year + ("-" + (Pad(m, 2) + ("-" + (Pad(d, 2) + ("T" + (Pad(h, 2) + (":" + Pad(mi, 2))))))))
  }

  lemma MinuteTextLength(year: string, m: nat, d: nat, h: nat, mi: nat)
    ensures |MinuteText(year, m, d, h, mi)| == |year| + 12
  {
    PadShape(m, 2);
    PadShape(d, 2);
    PadShape(h, 2);
    PadShape(mi, 2);
  }

  /** `toISOString` of a whole second, in or after the year zero. */
  function ToIsoString(s: int): string
    requires DayFromYear(0) <= s / 86_400
  {
    DateOfDay(s / 86_400);
    var t, r := DateOf(s / 86_400), s % 86_400;
    MinuteText(IsoYear(t.y), t.m, t.d, r / 3600, r % 3600 / 60) + (":" + (Pad(r % 60, 2) + ".000Z"))
  }

  /** An accepted local time minus its offset is never before the year zero. */
  lemma NotBeforeYearZero(f: Fields)
    requires Accepted(f)
    ensures DayFromYear(0) <= UtcSeconds(f) / 86_400
  {
    FirstMonths(f.year, f.month);
    YearsIncrease(0, 1);
    if f.year > 1 { YearsIncrease(1, f.year); }
    assert DayOf(Date(f.year, f.month, f.day)) >= DayFromYear(0) + 365;
  }

  /** `iso`, on the text of a timestamp. */
  function Iso(text: string): Option<string> {
    match Parse(text)
    case None => None
    case Some(f) => if Accepted(f) then Some(IsoOf(f)) else None
  }

  function IsoOf(f: Fields): string
    requires Accepted(f)
  {
    NotBeforeYearZero(f);
    IsoLength(UtcSeconds(f));
    ToIsoString(UtcSeconds(f))[..19] + "." + Micros(f.fraction) + "Z"
  }

  lemma IsoLength(s: int)
    requires DayFromYear(0) <= s / 86_400
    ensures |ToIsoString(s)| >= 19
  {
    DateOfDay(s / 86_400);
    var t, r := DateOf(s / 86_400), s % 86_400;
    PadShape(t.y, 4);
    PadShape(t.y, 6);
    PadShape(r % 60, 2);
    MinuteTextLength(IsoYear(t.y), t.m, t.d, r / 3600, r % 3600 / 60);
  }

  function NormalYear(f: Fields): int
    requires Accepted(f)
  {
    NotBeforeYearZero(f);
    DateOf(UtcSeconds(f) / 86_400).y
  }

  // ---- The canonical text of an instant. ----

  function SecondText(s: nat, us: nat): string { Pad(s, 2) + ("." + (Pad(us, 6) + "Z")) }

  predicate InRange(s: int) { DayFromYear(0) <= s / 86_400 && DateOf(s / 86_400).y <= 9999 }

  /** `YYYY-MM-DDTHH:MM:SS.ffffffZ` for a second and its microseconds, years 0 to 9999. */
  function Canonical(s: int, us: nat): string
    requires InRange(s)
  {
    DateOfDay(s / 86_400);
    var t, r := DateOf(s / 86_400), s % 86_400;
    MinuteText(Pad(t.y, 4), t.m, t.d, r / 3600, r % 3600 / 60) + (":" + SecondText(r % 60, us))
  }

  /** One field decides the order unless it ties. */
  lemma FieldOrder(m: nat, n: nat, w: nat, sep: string, x: string, y: string)
    requires m < Pow10(w) && n < Pow10(w)
    ensures Lex.Less(Pad(m, w) + (sep + x), Pad(n, w) + (sep + y)) <==> m < n || (m == n && Lex.Less(x, y))
    ensures Pad(m, w) + (sep + x) == Pad(n, w) + (sep + y) <==> m == n && x == y
  {
    PadShape(m, w);
    PadShape(n, w);
    PadOrder(m, n, w);
    LessConcat(Pad(m, w), sep + x, Pad(n, w), sep + y);
    LessConcat(sep, x, sep, y);
    Lex.Irreflexive(sep);
    SameFront(Pad(m, w), sep + x, Pad(n, w), sep + y);
    SameFront(sep, x, sep, y);
  }

  lemma SameFront(a: string, x: string, b: string, y: string)
    requires |a| == |b|
    ensures a + x == b + y <==> a == b && x == y
  {
    assert (a + x)[..|a|] == a && (b + y)[..|b|] == b;
    assert (a + x)[|a|..] == x && (b + y)[|b|..] == y;
  }

  lemma SecondOrder(s: nat, us: nat, s': nat, us': nat)
    requires s < 60 && s' < 60 && us < 1_000_000 && us' < 1_000_000
    ensures Lex.Less(SecondText(s, us), SecondText(s', us')) <==> s < s' || (s == s' && us < us')
    ensures SecondText(s, us) == SecondText(s', us') <==> s == s' && us == us'
  {
    SixDigits();
    FieldOrder(s, s', 2, ".", Pad(us, 6) + "Z", Pad(us', 6) + "Z");
    FieldOrder(us, us', 6, "Z", "", "");
    assert "Z" + "" == "Z";
  }

  /** Month, day, hour and minute, without the year. */
  function AfterYear(m: nat, d: nat, h: nat, mi: nat): string {
    Pad(m, 2) + ("-" + (Pad(d, 2) + ("T" + (Pad(h, 2) + (":" + Pad(mi, 2))))))
  }

  lemma AfterYearOrder(m: nat, d: nat, h: nat, mi: nat, m': nat, d': nat, h': nat, mi': nat)
    requires m < 100 && m' < 100 && d < 100 && d' < 100 && h < 24 && mi < 60 && h' < 24 && mi' < 60
    ensures var x, x' := AfterYear(m, d, h, mi), AfterYear(m', d', h', mi');
      && (Lex.Less(x, x') <==>
            m < m' || (m == m' && (d < d' || (d == d' && (h < h' || (h == h' && mi < mi'))))))
      && (x == x' <==> m == m' && d == d' && h == h' && mi == mi')
  {
    SixDigits();
    PadOrder(mi, mi', 2);
    FieldOrder(h, h', 2, ":", Pad(mi, 2), Pad(mi', 2));
    var x, x' := Pad(h, 2) + (":" + Pad(mi, 2)), Pad(h', 2) + (":" + Pad(mi', 2));
    FieldOrder(d, d', 2, "T", x, x');
    FieldOrder(m, m', 2, "-", Pad(d, 2) + ("T" + x), Pad(d', 2) + ("T" + x'));
  }

  predicate EarlierMinute(a: Date, h: nat, mi: nat, b: Date, h': nat, mi': nat) {
    Before(a, b) || (a == b && (h < h' || (h == h' && mi < mi')))
  }

  lemma MinuteOrder(a: Date, h: nat, mi: nat, b: Date, h': nat, mi': nat)
    requires ValidDate(a) && ValidDate(b) && 0 <= a.y <= 9999 && 0 <= b.y <= 9999
    requires h < 24 && mi < 60 && h' < 24 && mi' < 60
    ensures var x, x' := MinuteText(Pad(a.y, 4), a.m, a.d, h, mi), MinuteText(Pad(b.y, 4), b.m, b.d, h', mi');
      && (Lex.Less(x, x') <==> EarlierMinute(a, h, mi, b, h', mi'))
      && (x == x' <==> a == b && h == h' && mi == mi')
  {
    SixDigits();
    AfterYearOrder(a.m, a.d, h, mi, b.m, b.d, h', mi');
    FieldOrder(a.y, b.y, 4, "-", AfterYear(a.m, a.d, h, mi), AfterYear(b.m, b.d, h', mi'));
  }

  /** Seconds compare as their days, hours, minutes and seconds. */
  lemma SecondsCompare(s: int, us: nat, t: int, us': nat)
    ensures var r, q := s % 86_400, t % 86_400;
      (s < t || (s == t && us < us')) <==>
        || s / 86_400 < t / 86_400
        || (s / 86_400 == t / 86_400 && (r / 3600 < q / 3600 || (r / 3600 == q / 3600 && (r % 3600 / 60 < q % 3600 / 60
             || (r % 3600 / 60 == q % 3600 / 60 && (r % 60 < q % 60 || (r % 60 == q % 60 && us < us')))))))
  {
    TimeOfDay(s % 86_400);
    TimeOfDay(t % 86_400);
  }

  lemma TimeOfDay(r: int)
    requires 0 <= r < 86_400
    ensures r == r / 3600 * 3600 + r % 3600 / 60 * 60 + r % 60
    ensures 0 <= r / 3600 < 24 && 0 <= r % 3600 / 60 < 60 && 0 <= r % 60 < 60
  {
    assert r % 3600 % 60 == r % 60;
  }

  lemma ColonSecondOrder(s: nat, us: nat, s': nat, us': nat)
    requires s < 60 && s' < 60 && us < 1_000_000 && us' < 1_000_000
    ensures Lex.Less(":" + SecondText(s, us), ":" + SecondText(s', us')) <==> s < s' || (s == s' && us < us')
    ensures ":" + SecondText(s, us) == ":" + SecondText(s', us') <==> s == s' && us == us'
  {
    SecondOrder(s, us, s', us');
    LessConcat(":", SecondText(s, us), ":", SecondText(s', us'));
    Lex.Irreflexive(":");
    SameFront(":", SecondText(s, us), ":", SecondText(s', us'));
  }

  /** Instants compare as their minutes, then as their seconds and microseconds. */
  lemma InstantsCompare(s: int, us: nat, t: int, us': nat)
    requires InRange(s) && InRange(t)
    ensures var a, b, r, q := DateOf(s / 86_400), DateOf(t / 86_400), s % 86_400, t % 86_400;
      && ValidDate(a) && ValidDate(b) && a.y >= 0 && b.y >= 0
      && var earlier := EarlierMinute(a, r / 3600, r % 3600 / 60, b, q / 3600, q % 3600 / 60);
         var same := a == b && r / 3600 == q / 3600 && r % 3600 / 60 == q % 3600 / 60;
      && (s < t || (s == t && us < us') <==> earlier || (same && (r % 60 < q % 60 || (r % 60 == q % 60 && us < us'))))
      && (s == t && us == us' <==> same && r % 60 == q % 60 && us == us')
  {
    DateOfDay(s / 86_400);
    DateOfDay(t / 86_400);
    DayOrder(DateOf(s / 86_400), DateOf(t / 86_400));
    SecondsCompare(s, us, t, us');
    TimeOfDay(s % 86_400);
    TimeOfDay(t % 86_400);
  }

  /** Canonical texts are equal exactly for equal instants, and ordered as strings exactly as the instants are. */
  lemma CanonicalOrder(s: int, us: nat, t: int, us': nat)
    requires InRange(s) && InRange(t) && us < 1_000_000 && us' < 1_000_000
    ensures Lex.Less(Canonical(s, us), Canonical(t, us')) <==> s < t || (s == t && us < us')
    ensures Canonical(s, us) == Canonical(t, us') <==> s == t && us == us'
  {
    var a, b, r, q := DateOf(s / 86_400), DateOf(t / 86_400), s % 86_400, t % 86_400;
    InstantsCompare(s, us, t, us');
    TimeOfDay(r);
    TimeOfDay(q);
    MinuteOrder(a, r / 3600, r % 3600 / 60, b, q / 3600, q % 3600 / 60);
    ColonSecondOrder(r % 60, us, q % 60, us');
    var x, y := MinuteText(Pad(a.y, 4), a.m, a.d, r / 3600, r % 3600 / 60), MinuteText(Pad(b.y, 4), b.m, b.d, q / 3600, q % 3600 / 60);
    PadShape(a.y, 4);
    PadShape(b.y, 4);
    MinuteTextLength(Pad(a.y, 4), a.m, a.d, r / 3600, r % 3600 / 60);
    MinuteTextLength(Pad(b.y, 4), b.m, b.d, q / 3600, q % 3600 / 60);
    LessConcat(x, ":" + SecondText(r % 60, us), y, ":" + SecondText(q % 60, us'));
    SameFront(x, ":" + SecondText(r % 60, us), y, ":" + SecondText(q % 60, us'));
  }

  // ---- What `iso` yields. ----

  /** Cutting the seconds-and-fraction tail at the end of the seconds and writing another fraction. */
  lemma Splice(minute: string, second: string, rest: string, micros: string)
    requires |minute| == 16 && |second| == 2
    ensures (minute + (":" + (second + rest)))[..19] + "." + micros + "Z" == minute + (":" + (second + ("." + (micros + "Z"))))
  {
    var base := minute + (":" + second);
    assert minute + (":" + (second + rest)) == base + rest;
    assert (base + rest)[..19] == base;
    assert base + "." + micros + "Z" == base + ("." + (micros + "Z"));
    assert minute + (":" + (second + ("." + (micros + "Z")))) == base + ("." + (micros + "Z"));
  }

  lemma IsoIsCanonical(f: Fields)
    requires Accepted(f) && NormalYear(f) <= 9999
    ensures Digits(Micros(f.fraction)) && InRange(UtcSeconds(f))
    ensures IsoOf(f) == Canonical(UtcSeconds(f), Value(Micros(f.fraction)))
  {
    var s := UtcSeconds(f);
    NotBeforeYearZero(f);
    DateOfDay(s / 86_400);
    MicrosShape(f.fraction);
    var t, r := DateOf(s / 86_400), s % 86_400;
    PadShape(t.y, 4);
    PadShape(r % 60, 2);
    var minute := MinuteText(Pad(t.y, 4), t.m, t.d, r / 3600, r % 3600 / 60);
    MinuteTextLength(Pad(t.y, 4), t.m, t.d, r / 3600, r % 3600 / 60);
    Splice(minute, Pad(r % 60, 2), ".000Z", Micros(f.fraction));
  }

  lemma CanonicalLength(s: int, us: nat)
    requires InRange(s)
    ensures |Canonical(s, us)| == 27 && IsDigit(Canonical(s, us)[0])
  {
    DateOfDay(s / 86_400);
    var t, r := DateOf(s / 86_400), s % 86_400;
    PadShape(t.y, 4);
    PadShape(r % 60, 2);
    PadShape(us, 6);
    MinuteTextLength(Pad(t.y, 4), t.m, t.d, r / 3600, r % 3600 / 60);
    assert Canonical(s, us)[0] == Pad(t.y, 4)[0];
  }

  /**
   * Two accepted texts whose normalised years are at most 9999 give equal strings exactly when they
   * denote the same instant, and the strings are ordered exactly as the instants are.
   */
  lemma IsoOrdersInstants(f: Fields, g: Fields)
    requires Accepted(f) && Accepted(g) && NormalYear(f) <= 9999 && NormalYear(g) <= 9999
    ensures |IsoOf(f)| == |IsoOf(g)| == 27
    ensures IsoOf(f) == IsoOf(g) <==> Instant(f) == Instant(g)
    ensures Lex.Less(IsoOf(f), IsoOf(g)) <==> Instant(f) < Instant(g)
  {
    IsoIsCanonical(f);
    IsoIsCanonical(g);
    MicrosShape(f.fraction);
    MicrosShape(g.fraction);
    CanonicalLength(UtcSeconds(f), Value(Micros(f.fraction)));
    CanonicalLength(UtcSeconds(g), Value(Micros(g.fraction)));
    CanonicalOrder(UtcSeconds(f), Value(Micros(f.fraction)), UtcSeconds(g), Value(Micros(g.fraction)));
  }

  /** The instant an accepted text denotes. */
  function InstantOf(text: string): int
    requires Iso(text).Some?
  {
    Instant(Parse(text).value)
  }

  /** The year of an accepted text, after normalisation. */
  function YearOf(text: string): int
    requires Iso(text).Some?
  {
    NormalYear(Parse(text).value)
  }

  /** For texts of years up to 9999, `iso` answers equal strings exactly for equal instants, and in their order. */
  lemma IsoTextsOrderInstants(s: string, t: string)
    requires Iso(s).Some? && Iso(t).Some? && YearOf(s) <= 9999 && YearOf(t) <= 9999
    ensures Iso(s) == Iso(t) <==> InstantOf(s) == InstantOf(t)
    ensures Lex.Less(Iso(s).value, Iso(t).value) <==> InstantOf(s) < InstantOf(t)
  {
    IsoOrdersInstants(Parse(s).value, Parse(t).value);
  }

  // ---- Past the year 9999. ----

  lemma YearsBelow(day: int, bound: int, y: int)
    requires DayFromYear(y) <= day < DayFromYear(bound)
    ensures y < bound
  {
    if bound < y { YearsIncrease(bound, y); }
  }

  /** Local time minus offset leaves the local year by at most one. */
  lemma YearByOne(f: Fields)
    requires Accepted(f)
    ensures NormalYear(f) <= f.year + 1
  {
    NotBeforeYearZero(f);
    var day := UtcSeconds(f) / 86_400;
    var date := Date(f.year, f.month, f.day);
    DaysInMonthIsGregorian(f.year, f.month);
    EarlierDay(date, Date(f.year + 1, 1, 2));
    JanuaryFirst(f.year + 1);
    assert day <= DayOf(date) + 1;
    YearFound(day, 0);
    YearsBelow(day, f.year + 2, NormalYear(f));
  }

  function Minute(f: Fields): int
    requires 1 <= f.month <= 12
  {
    UtcSeconds(f) / 60
  }

  function LateMinute(y: nat, m: nat, d: nat, h: nat, mi: nat): string { MinuteText("+" + Pad(y, 6), m, d, h, mi) }

  /** The seconds are cut off: the six-digit year with its sign takes their place. */
  lemma LateIso(f: Fields)
    requires Accepted(f) && NormalYear(f) > 9999
    ensures var t, r := DateOf(UtcSeconds(f) / 86_400), UtcSeconds(f) % 86_400;
      && ValidDate(t) && t.y >= 0
      && IsoOf(f) == LateMinute(t.y, t.m, t.d, r / 3600, r % 3600 / 60) + ("." + (Micros(f.fraction) + "Z"))
  {
    NotBeforeYearZero(f);
    var s := UtcSeconds(f);
    DateOfDay(s / 86_400);
    var t, r := DateOf(s / 86_400), s % 86_400;
    PadShape(t.y, 6);
    var minute := LateMinute(t.y, t.m, t.d, r / 3600, r % 3600 / 60);
    MinuteTextLength("+" + Pad(t.y, 6), t.m, t.d, r / 3600, r % 3600 / 60);
    CutAt(minute, ":" + (Pad(r % 60, 2) + ".000Z"), Micros(f.fraction));
  }

  lemma CutAt(minute: string, rest: string, micros: string)
    requires |minute| == 19
    ensures (minute + rest)[..19] + "." + micros + "Z" == minute + ("." + (micros + "Z"))
  {
    assert (minute + rest)[..19] == minute;
    assert minute + "." + micros + "Z" == minute + ("." + (micros + "Z"));
  }

  /** The string starts with a digit, and not with a sign, exactly when the normalised year fits four digits. */
  lemma ExpandedYearIff(f: Fields)
    requires Accepted(f)
    ensures |IsoOf(f)| == 27
    ensures IsDigit(IsoOf(f)[0]) <==> NormalYear(f) <= 9999
    ensures IsoOf(f)[0] == '+' <==> NormalYear(f) > 9999
  {
    NotBeforeYearZero(f);
    MicrosShape(f.fraction);
    IsoLength(UtcSeconds(f));
    if NormalYear(f) <= 9999 {
      IsoIsCanonical(f);
      CanonicalLength(UtcSeconds(f), Value(Micros(f.fraction)));
    } else {
      LateIso(f);
    }
  }

  lemma YearsOrderInstants(f: Fields, g: Fields)
    requires Accepted(f) && Accepted(g) && NormalYear(f) < NormalYear(g)
    ensures Instant(f) < Instant(g)
  {
    NotBeforeYearZero(f);
    NotBeforeYearZero(g);
    DateOfDay(UtcSeconds(f) / 86_400);
    DateOfDay(UtcSeconds(g) / 86_400);
    DayOrder(DateOf(UtcSeconds(f) / 86_400), DateOf(UtcSeconds(g) / 86_400));
    MicrosShape(f.fraction);
    MicrosShape(g.fraction);
  }

  /** A late text sorts before every text that is not late, although it is the later instant. */
  lemma LateSortsFirst(f: Fields, g: Fields)
    requires Accepted(f) && Accepted(g) && NormalYear(f) > 9999 && NormalYear(g) <= 9999
    ensures Lex.Less(IsoOf(f), IsoOf(g)) && !Lex.Less(IsoOf(g), IsoOf(f)) && IsoOf(f) != IsoOf(g) && Instant(g) < Instant(f)
  {
    ExpandedYearIff(f);
    ExpandedYearIff(g);
    YearsOrderInstants(g, f);
  }

  /** Seconds since the epoch split into minutes and a rest. */
  lemma MinutesOfDay(s: int)
    ensures s / 60 == s / 86_400 * 1440 + (s % 86_400 / 3600) * 60 + s % 86_400 % 3600 / 60
  {
    TimeOfDay(s % 86_400);
    assert s == 60 * (s / 86_400 * 1440 + (s % 86_400 / 3600) * 60 + s % 86_400 % 3600 / 60) + s % 86_400 % 60;
  }

  lemma SignedYearOrder(y: nat, y': nat, x: string, x': string)
    requires y < 1_000_000 && y' < 1_000_000
    ensures Lex.Less("+" + Pad(y, 6) + ("-" + x), "+" + Pad(y', 6) + ("-" + x')) <==> y < y' || (y == y' && Lex.Less(x, x'))
    ensures "+" + Pad(y, 6) + ("-" + x) == "+" + Pad(y', 6) + ("-" + x') <==> y == y' && x == x'
  {
    SixDigits();
    FieldOrder(y, y', 6, "-", x, x');
    SignedOrder(Pad(y, 6), "-" + x, Pad(y', 6), "-" + x');
  }

  /** A sign in front of two texts neither orders nor separates them. */
  lemma SignedOrder(a: string, x: string, b: string, y: string)
    ensures Lex.Less("+" + a + x, "+" + b + y) <==> Lex.Less(a + x, b + y)
    ensures "+" + a + x == "+" + b + y <==> a + x == b + y
  {
    LessConcat("+", a + x, "+", b + y);
    Lex.Irreflexive("+");
    SameFront("+", a + x, "+", b + y);
    assert "+" + a + x == "+" + (a + x) && "+" + b + y == "+" + (b + y);
  }

  lemma LateMinuteOrder(a: Date, h: nat, mi: nat, b: Date, h': nat, mi': nat)
    requires ValidDate(a) && ValidDate(b) && 0 <= a.y <= 10_000 && 0 <= b.y <= 10_000
    requires h < 24 && mi < 60 && h' < 24 && mi' < 60
    ensures var x, x' := LateMinute(a.y, a.m, a.d, h, mi), LateMinute(b.y, b.m, b.d, h', mi');
      && (Lex.Less(x, x') <==> EarlierMinute(a, h, mi, b, h', mi'))
      && (x == x' <==> a == b && h == h' && mi == mi')
  {
    var x, x' := AfterYear(a.m, a.d, h, mi), AfterYear(b.m, b.d, h', mi');
    AfterYearOrder(a.m, a.d, h, mi, b.m, b.d, h', mi');
    SignedYearOrder(a.y, b.y, x, x');
    assert LateMinute(a.y, a.m, a.d, h, mi) == "+" + Pad(a.y, 6) + ("-" + x);
    assert LateMinute(b.y, b.m, b.d, h', mi') == "+" + Pad(b.y, 6) + ("-" + x');
  }

  lemma LateMinuteLength(y: nat, m: nat, d: nat, h: nat, mi: nat)
    ensures |LateMinute(y, m, d, h, mi)| == 19
  {
    PadShape(y, 6);
    MinuteTextLength("+" + Pad(y, 6), m, d, h, mi);
  }

  /** Minutes compare as their days, hours and minutes of the hour. */
  lemma MinutesCompare(s: int, t: int)
    ensures var r, q := s % 86_400, t % 86_400;
      s / 60 < t / 60 <==>
        || s / 86_400 < t / 86_400
        || (s / 86_400 == t / 86_400 && (r / 3600 < q / 3600 || (r / 3600 == q / 3600 && r % 3600 / 60 < q % 3600 / 60)))
  {
    MinutesOfDay(s);
    MinutesOfDay(t);
    TimeOfDay(s % 86_400);
    TimeOfDay(t % 86_400);
  }

  lemma LateMinutes(f: Fields, g: Fields)
    requires Accepted(f) && Accepted(g) && NormalYear(f) > 9999 && NormalYear(g) > 9999
    ensures var t, r := DateOf(UtcSeconds(f) / 86_400), UtcSeconds(f) % 86_400;
      var u, q := DateOf(UtcSeconds(g) / 86_400), UtcSeconds(g) % 86_400;
      && t.y >= 0 && u.y >= 0 && t.m >= 0 && u.m >= 0 && t.d >= 0 && u.d >= 0
      && var x, y := LateMinute(t.y, t.m, t.d, r / 3600, r % 3600 / 60), LateMinute(u.y, u.m, u.d, q / 3600, q % 3600 / 60);
      && |x| == |y| && (Lex.Less(x, y) <==> Minute(f) < Minute(g)) && (x == y <==> Minute(f) == Minute(g))
  {
    NotBeforeYearZero(f);
    NotBeforeYearZero(g);
    var s, s' := UtcSeconds(f), UtcSeconds(g);
    DateOfDay(s / 86_400);
    DateOfDay(s' / 86_400);
    YearByOne(f);
    YearByOne(g);
    TimeOfDay(s % 86_400);
    TimeOfDay(s' % 86_400);
    MinutesCompare(s, s');
    MinutesCompare(s', s);
    DayOrder(DateOf(s / 86_400), DateOf(s' / 86_400));
    LateMinuteLength(DateOf(s / 86_400).y, DateOf(s / 86_400).m, DateOf(s / 86_400).d, s % 86_400 / 3600, s % 86_400 % 3600 / 60);
    LateMinuteLength(DateOf(s' / 86_400).y, DateOf(s' / 86_400).m, DateOf(s' / 86_400).d,
                     s' % 86_400 / 3600, s' % 86_400 % 3600 / 60);
    LateMinuteOrder(DateOf(s / 86_400), s % 86_400 / 3600, s % 86_400 % 3600 / 60,
                    DateOf(s' / 86_400), s' % 86_400 / 3600, s' % 86_400 % 3600 / 60);
  }

  /** Two late texts are equal exactly when minute and microseconds agree, and are ordered by these two. */
  lemma LateOrder(f: Fields, g: Fields)
    requires Accepted(f) && Accepted(g) && NormalYear(f) > 9999 && NormalYear(g) > 9999
    ensures Digits(Micros(f.fraction)) && Digits(Micros(g.fraction))
    ensures IsoOf(f) == IsoOf(g) <==> Minute(f) == Minute(g) && Micros(f.fraction) == Micros(g.fraction)
    ensures Lex.Less(IsoOf(f), IsoOf(g)) <==>
      Minute(f) < Minute(g) || (Minute(f) == Minute(g) && Value(Micros(f.fraction)) < Value(Micros(g.fraction)))
  {
    LateIso(f);
    LateIso(g);
    LateMinutes(f, g);
    MicrosShape(f.fraction);
    MicrosShape(g.fraction);
    var t, r := DateOf(UtcSeconds(f) / 86_400), UtcSeconds(f) % 86_400;
    var u, q := DateOf(UtcSeconds(g) / 86_400), UtcSeconds(g) % 86_400;
    var x, y := LateMinute(t.y, t.m, t.d, r / 3600, r % 3600 / 60), LateMinute(u.y, u.m, u.d, q / 3600, q % 3600 / 60);
    FractionOrder(x, Micros(f.fraction), y, Micros(g.fraction));
  }

  lemma FractionOrder(x: string, us: string, y: string, us': string)
    requires |x| == |y| && Digits(us) && Digits(us') && |us| == |us'| == 6
    ensures x + ("." + (us + "Z")) == y + ("." + (us' + "Z")) <==> x == y && us == us'
    ensures Lex.Less(x + ("." + (us + "Z")), y + ("." + (us' + "Z"))) <==>
      Lex.Less(x, y) || (x == y && Value(us) < Value(us'))
  {
    LessConcat(x, "." + (us + "Z"), y, "." + (us' + "Z"));
    SameFront(x, "." + (us + "Z"), y, "." + (us' + "Z"));
    LessConcat(".", us + "Z", ".", us' + "Z");
    SameFront(".", us + "Z", ".", us' + "Z");
    Lex.Irreflexive(".");
    LessConcat(us, "Z", us', "Z");
    SameFront(us, "Z", us', "Z");
    Lex.Irreflexive("Z");
    ValuePad(us);
    ValuePad(us');
    PadOrder(Value(us), Value(us'), 6);
  }

  /** Midnight of the first of January, at no offset. */
  function NewYear(year: nat): Fields { Fields(year, 1, 1, 0, 0, 0, "", false, 0, 0) }

  lemma DayOfSeconds(s: int, day: int, rest: int)
    requires s == day * 86_400 + rest && 0 <= rest < 86_400
    ensures s / 86_400 == day
  {}

  lemma YearOfDay(f: Fields, day: int, rest: int)
    requires Accepted(f) && UtcSeconds(f) == day * 86_400 + rest && 0 <= rest < 86_400 && DayFromYear(0) <= day
    ensures NormalYear(f) == DateOf(day).y
  {
    NotBeforeYearZero(f);
    DayOfSeconds(UtcSeconds(f), day, rest);
  }

  lemma NewYearIsItself(year: nat)
    requires 1 <= year <= 9999
    ensures Accepted(NewYear(year)) && NormalYear(NewYear(year)) == year
  {
    DaysInMonthIsGregorian(year, 1);
    FirstDayOfYear(year);
    JanuaryFirst(year);
    NewYearSeconds(year);
    YearOfDay(NewYear(year), DayFromYear(year), 0);
  }

  lemma NewYearSeconds(year: nat)
    ensures UtcSeconds(NewYear(year)) == DayFromYear(year) * 86_400
  {
    JanuaryFirst(year);
  }

  /** The two texts compare as their instants do. */
  predicate Compares(f: Fields, g: Fields)
    requires Accepted(f) && Accepted(g)
  {
    && (IsoOf(f) == IsoOf(g) <==> Instant(f) == Instant(g))
    && (Lex.Less(IsoOf(f), IsoOf(g)) <==> Instant(f) < Instant(g))
  }

  /** A text compares rightly with all texts of years up to 9999 if and only if its own normalised year is one of them. */
  lemma ComparesIff(f: Fields)
    requires Accepted(f)
    ensures (forall g :: Accepted(g) && NormalYear(g) <= 9999 ==> Compares(f, g)) <==> NormalYear(f) <= 9999
  {
    if NormalYear(f) <= 9999 {
      forall g | Accepted(g) && NormalYear(g) <= 9999 ensures Compares(f, g) { IsoOrdersInstants(f, g); }
    } else {
      var year: nat :| 1 <= year <= 9999;
      NewYearIsItself(year);
      LateSortsFirst(f, NewYear(year));
      assert !Compares(f, NewYear(year));
    }
  }

  /** A second of the last minute of a year, an hour west of UTC: the first hour of the next year. */
  function LastMinute(year: nat, second: nat): Fields { Fields(year, 12, 31, 23, 59, second, "", true, 1, 0) }

  lemma LastMinuteSeconds(year: nat, second: nat)
    ensures UtcSeconds(LastMinute(year, second)) == DayFromYear(year + 1) * 86_400 + 3540 + second
  {
    LastDayOfYear(year);
    var first := DayFromYear(year + 1);
    assert (first - 1) * 86_400 + 23 * 3600 + 59 * 60 + second + 3600 == first * 86_400 + 3540 + second;
  }

  lemma LastMinuteIsNextYear(year: nat, second: nat)
    requires 1 <= year <= 9999 && second <= 59
    ensures Accepted(LastMinute(year, second)) && NormalYear(LastMinute(year, second)) == year + 1
    ensures UtcSeconds(LastMinute(year, second)) == DayFromYear(year + 1) * 86_400 + 3540 + second
  {
    DaysInMonthIsGregorian(year, 12);
    LastMinuteSeconds(year, second);
    FirstDayOfYear(year + 1);
    YearOfDay(LastMinute(year, second), DayFromYear(year + 1), 3540 + second);
  }

  const LAST_YEAR: nat := 9999

  /** Past the year 9999 the seconds fall off: different instants give the same string. */
  lemma LateInstantsCollide() returns (f: Fields, g: Fields)
    ensures Accepted(f) && Accepted(g) && Instant(f) < Instant(g) && IsoOf(f) == IsoOf(g)
  {
    f, g := LastMinute(LAST_YEAR, 58), LastMinute(LAST_YEAR, 59);
    LastMinuteIsNextYear(LAST_YEAR, 58);
    LastMinuteIsNextYear(LAST_YEAR, 59);
    SameMinute(DayFromYear(LAST_YEAR + 1));
    LateOrder(f, g);
  }

  lemma SameMinute(day: int)
    ensures (day * 86_400 + 3540 + 58) / 60 == (day * 86_400 + 3540 + 59) / 60
  {
    assert day * 86_400 + 3540 + 58 == 60 * (day * 1440 + 59) + 58;
  }

  // ---- The pattern accepts what the database prints. ----

  datatype OffsetStyle = HoursOnly | WithColon | WithoutColon

  function OffsetText(f: Fields, style: OffsetStyle): string {
    (if f.negative then "-" else "+") + Pad(f.offHour, 2)
      + (match style case HoursOnly => "" case WithColon => ":" + Pad(f.offMinute, 2) case WithoutColon => Pad(f.offMinute, 2))
  }

  function ClockText(f: Fields, rest: string): string {
    Pad(f.hour, 2) + (":" + (Pad(f.minute, 2) + (":" + (Pad(f.second, 2) + rest))))
  }

  function HeadText(f: Fields, rest: string): string {
    Pad(f.year, 4) + ("-" + (Pad(f.month, 2) + ("-" + (Pad(f.day, 2) + (" " + ClockText(f, rest))))))
  }

  function Print(f: Fields, style: OffsetStyle): string {
    HeadText(f, (if f.fraction == "" then "" else "." + f.fraction) + OffsetText(f, style))
  }

  predicate Printable(f: Fields, style: OffsetStyle) {
    && f.year < 10_000 && f.month < 100 && f.day < 100 && f.hour < 100 && f.minute < 100 && f.second < 100
    && f.offHour < 100 && f.offMinute < 100 && Digits(f.fraction) && |f.fraction| <= 6
    && (style.HoursOnly? ==> f.offMinute == 0)
  }

  lemma OffsetParses(f: Fields, style: OffsetStyle)
    requires Printable(f, style)
    ensures Offset(OffsetText(f, style)) == Some((f.negative, f.offHour, f.offMinute))
    ensures OffsetText(f, style) != "" && !IsDigit(OffsetText(f, style)[0]) && OffsetText(f, style)[0] != '.'
  {
    SixDigits();
    PadShape(f.offHour, 2);
    PadValue(f.offHour, 2);
    PadShape(f.offMinute, 2);
    PadValue(f.offMinute, 2);
    var t := OffsetText(f, style);
    assert t[1..3] == Pad(f.offHour, 2);
    match style
    case HoursOnly =>
    case WithColon => assert t[4..6] == Pad(f.offMinute, 2);
    case WithoutColon => assert t[3..5] == Pad(f.offMinute, 2);
  }

  lemma {:induction false} RunStops(a: string, b: string)
    requires Digits(a) && (b == "" || !IsDigit(b[0]))
    ensures DigitRun(a + b) == |a|
  {
    if a == "" {
      assert a + b == b;
    } else {
      assert (a + b)[1..] == a[1..] + b;
      RunStops(a[1..], b);
    }
  }

  lemma FractionParses(f: Fields, style: OffsetStyle)
    requires Printable(f, style)
    ensures Fraction((if f.fraction == "" then "" else "." + f.fraction) + OffsetText(f, style)) == Some((f.fraction, OffsetText(f, style)))
  {
    OffsetParses(f, style);
    var o := OffsetText(f, style);
    if f.fraction == "" {
      assert "" + o == o;
    } else {
      var t := "." + f.fraction + o;
      assert t[1..] == f.fraction + o;
      RunStops(f.fraction, o);
      assert t[1..1 + |f.fraction|] == f.fraction && t[1 + |f.fraction|..] == o;
    }
  }

  /** A field and its separator come off the front. */
  lemma Peel(p: string, sep: char, rest: string)
    ensures var t := p + ([sep] + rest);
      |t| == |p| + 1 + |rest| && t[0..|p|] == p && t[|p|] == sep && t[|p| + 1..] == rest
  {}

  lemma ClockParses(f: Fields, rest: string)
    requires f.hour < 100 && f.minute < 100 && f.second < 100
    ensures var t := ClockText(f, rest);
      && |t| == 8 + |rest| && t[8..] == rest && t[2] == ':' && t[5] == ':'
      && t[0..2] == Pad(f.hour, 2) && t[3..5] == Pad(f.minute, 2) && t[6..8] == Pad(f.second, 2)
  {
    PadShape(f.hour, 2);
    PadShape(f.minute, 2);
    PadShape(f.second, 2);
    var t2 := Pad(f.second, 2) + rest;
    var t1 := Pad(f.minute, 2) + (":" + t2);
    var t := ClockText(f, rest);
    Peel(Pad(f.minute, 2), ':', t2);
    Peel(Pad(f.hour, 2), ':', t1);
    assert t[3..] == t1 && t1[3..] == t2;
    assert t[3..5] == t1[0..2] && t[6..8] == t2[0..2] && t[8..] == t2[2..] && t[5] == t1[2];
  }

  lemma DateParses(y: nat, m: nat, d: nat, sep: char, clock: string)
    ensures var t := Pad(y, 4) + ("-" + (Pad(m, 2) + ("-" + (Pad(d, 2) + ([sep] + clock)))));
      && |t| == 11 + |clock| && t[11..] == clock && t[4] == '-' && t[7] == '-' && t[10] == sep
      && t[0..4] == Pad(y, 4) && t[5..7] == Pad(m, 2) && t[8..10] == Pad(d, 2)
  {
    PadShape(y, 4);
    PadShape(m, 2);
    PadShape(d, 2);
    var t2 := Pad(d, 2) + ([sep] + clock);
    var t1 := Pad(m, 2) + ("-" + t2);
    var t := Pad(y, 4) + ("-" + t1);
    Peel(Pad(d, 2), sep, clock);
    Peel(Pad(m, 2), '-', t2);
    Peel(Pad(y, 4), '-', t1);
    assert t[5..] == t1 && t1[3..] == t2 && t2[3..] == clock;
    assert t[5..7] == t1[0..2] && t[7] == t1[2] && t[8..] == t2 && t[8..10] == t2[0..2] && t[10] == t2[2] && t[11..] == t2[3..];
  }

  lemma HeadParses(f: Fields, rest: string)
    requires f.year < 10_000 && f.month < 100 && f.day < 100 && f.hour < 100 && f.minute < 100 && f.second < 100
    ensures var t := HeadText(f, rest);
      && Head(t) && t[19..] == rest
      && Value(t[0..4]) == f.year && Value(t[5..7]) == f.month && Value(t[8..10]) == f.day
      && Value(t[11..13]) == f.hour && Value(t[14..16]) == f.minute && Value(t[17..19]) == f.second
  {
    SixDigits();
    var t, clock := HeadText(f, rest), ClockText(f, rest);
    DateParses(f.year, f.month, f.day, ' ', clock);
    ClockParses(f, rest);
    assert t[11..13] == clock[0..2] && t[14..16] == clock[3..5] && t[17..19] == clock[6..8] && t[19..] == clock[8..];
    assert t[13] == clock[2] && t[16] == clock[5];
    PadShape(f.year, 4);
    PadValue(f.year, 4);
    PadShape(f.month, 2);
    PadValue(f.month, 2);
    PadShape(f.day, 2);
    PadValue(f.day, 2);
    PadShape(f.hour, 2);
    PadValue(f.hour, 2);
    PadShape(f.minute, 2);
    PadValue(f.minute, 2);
    PadShape(f.second, 2);
    PadValue(f.second, 2);
  }

  /** Every printed timestamp is matched, with exactly the fields it was printed from. */
  lemma ParsePrint(f: Fields, style: OffsetStyle)
    requires Printable(f, style)
    ensures Parse(Print(f, style)) == Some(f)
  {
    var rest := (if f.fraction == "" then "" else "." + f.fraction) + OffsetText(f, style);
    HeadParses(f, rest);
    FractionParses(f, style);
    OffsetParses(f, style);
  }

  /** A matched text is normalised exactly when its fields name a date of the Gregorian calendar, a time of day and an offset. */
  lemma IsoIff(text: string)
    ensures Iso(text).Some? <==>
      && Parse(text).Some?
      && var f := Parse(text).value;
        && 1 <= f.year <= 9999 && 1 <= f.month <= 12 && f.hour <= 23 && f.minute <= 59 && f.second <= 59
        && f.offHour <= 23 && f.offMinute <= 59
        && 1 <= f.day <= (if f.month == 2 then (if f.year % 4 == 0 && (f.year % 100 != 0 || f.year % 400 == 0) then 29 else 28)
                          else if f.month == 4 || f.month == 6 || f.month == 9 || f.month == 11 then 30 else 31)
  {
    if Parse(text).Some? {
      var f := Parse(text).value;
      FractionDigits(text[19..]);
      if 1 <= f.month <= 12 { DaysInMonthIsGregorian(f.year, f.month); }
    }
  }

  lemma FractionDigits(s: string)
    ensures Fraction(s).Some? ==> Digits(Fraction(s).value.0) && |Fraction(s).value.0| <= 6
  {
    if s != "" && s[0] == '.' { assert s[1..][..DigitRun(s[1..])] == s[1..1 + DigitRun(s[1..])]; }
  }

  // ---- The result read back. ----

  /** `YYYY-MM-DDTHH:MM:SS.ffffffZ`, a date of the calendar and a time of day. */
  predicate UtcText(t: string) {
    && |t| == 27
    && Digits(t[0..4]) && t[4] == '-' && Digits(t[5..7]) && t[7] == '-' && Digits(t[8..10]) && t[10] == 'T'
    && Digits(t[11..13]) && t[13] == ':' && Digits(t[14..16]) && t[16] == ':' && Digits(t[17..19])
    && t[19] == '.' && Digits(t[20..26]) && t[26] == 'Z'
    && ValidDate(Date(Value(t[0..4]), Value(t[5..7]), Value(t[8..10])))
    && Value(t[11..13]) < 24 && Value(t[14..16]) < 60 && Value(t[17..19]) < 60
  }

  /** Microseconds since the epoch, from the digits of such a text. */
  function UtcMicros(t: string): int
    requires UtcText(t)
  {
    var day := DayOf(Date(Value(t[0..4]), Value(t[5..7]), Value(t[8..10])));
    1_000_000 * (86_400 * day + 3600 * Value(t[11..13]) + 60 * Value(t[14..16]) + Value(t[17..19])) + Value(t[20..26])
  }

  lemma TwoFields(h: nat, mi: nat)
    ensures var t := Pad(h, 2) + (":" + Pad(mi, 2));
      |t| == 5 && t[0..2] == Pad(h, 2) && t[2] == ':' && t[3..5] == Pad(mi, 2)
  {
    PadShape(h, 2);
    PadShape(mi, 2);
    Peel(Pad(h, 2), ':', Pad(mi, 2));
  }

  lemma SecondFields(s: nat, us: nat)
    ensures var t := SecondText(s, us);
      |t| == 10 && t[0..2] == Pad(s, 2) && t[2] == '.' && t[3..9] == Pad(us, 6) && t[9] == 'Z'
  {
    PadShape(s, 2);
    PadShape(us, 6);
    var tail := Pad(us, 6) + "Z";
    Peel(Pad(s, 2), '.', tail);
    assert SecondText(s, us)[3..] == tail && tail[0..6] == Pad(us, 6) && tail[6] == 'Z';
    assert SecondText(s, us)[3..9] == tail[0..6] && SecondText(s, us)[9] == tail[6];
  }

  lemma ClockPieces(y: nat, m: nat, d: nat, h: nat, mi: nat)
    ensures var t := MinuteText(Pad(y, 4), m, d, h, mi);
      && |t| == 16 && t[4] == '-' && t[7] == '-' && t[10] == 'T' && t[13] == ':'
      && t[0..4] == Pad(y, 4) && t[5..7] == Pad(m, 2) && t[8..10] == Pad(d, 2)
      && t[11..13] == Pad(h, 2) && t[14..16] == Pad(mi, 2)
  {
    var clock, t := Pad(h, 2) + (":" + Pad(mi, 2)), MinuteText(Pad(y, 4), m, d, h, mi);
    DateParses(y, m, d, 'T', clock);
    TwoFields(h, mi);
    assert t[11..] == clock;
    TailPieces(t, clock);
  }

  lemma TailPieces(t: string, clock: string)
    requires |t| == 16 && |clock| == 5 && t[11..] == clock
    ensures t[11..13] == clock[0..2] && t[13] == clock[2] && t[14..16] == clock[3..5]
  {}

  lemma FrontPieces(front: string, t: string)
    requires |front| == 16 && |t| >= 16 && t[0..16] == front
    ensures t[0..4] == front[0..4] && t[5..7] == front[5..7] && t[8..10] == front[8..10]
    ensures t[11..13] == front[11..13] && t[14..16] == front[14..16]
    ensures t[4] == front[4] && t[7] == front[7] && t[10] == front[10] && t[13] == front[13]
  {}

  /** Two texts joined by a colon, piece by piece. */
  lemma JoinedPieces(front: string, back: string)
    requires |front| == 16 && |back| == 10
    ensures var t := front + (":" + back);
      && |t| == 27 && t[0..16] == front && t[16] == ':' && t[17..] == back
      && t[17..19] == back[0..2] && t[19] == back[2] && t[20..26] == back[3..9] && t[26] == back[9]
  {
    Peel(front, ':', back);
  }

  /** The marks and the seven numbers of a text. */
  predicate Pieces(t: string, y: nat, m: nat, d: nat, h: nat, mi: nat, s: nat, us: nat) {
    && |t| == 27 && t[4] == '-' && t[7] == '-' && t[10] == 'T' && t[13] == ':' && t[16] == ':' && t[19] == '.' && t[26] == 'Z'
    && t[0..4] == Pad(y, 4) && t[5..7] == Pad(m, 2) && t[8..10] == Pad(d, 2)
    && t[11..13] == Pad(h, 2) && t[14..16] == Pad(mi, 2) && t[17..19] == Pad(s, 2) && t[20..26] == Pad(us, 6)
  }

  lemma FrontAndBack(front: string, back: string, y: nat, m: nat, d: nat, h: nat, mi: nat, s: nat, us: nat)
    requires |front| == 16 && front[4] == '-' && front[7] == '-' && front[10] == 'T' && front[13] == ':'
    requires front[0..4] == Pad(y, 4) && front[5..7] == Pad(m, 2) && front[8..10] == Pad(d, 2)
    requires front[11..13] == Pad(h, 2) && front[14..16] == Pad(mi, 2)
    requires |back| == 10 && back[0..2] == Pad(s, 2) && back[2] == '.' && back[3..9] == Pad(us, 6) && back[9] == 'Z'
    ensures Pieces(front + (":" + back), y, m, d, h, mi, s, us)
  {
    JoinedPieces(front, back);
    FrontPieces(front, front + (":" + back));
  }

  lemma MinutePieces(y: nat, m: nat, d: nat, h: nat, mi: nat, s: nat, us: nat)
    ensures Pieces(MinuteText(Pad(y, 4), m, d, h, mi) + (":" + SecondText(s, us)), y, m, d, h, mi, s, us)
  {
    ClockPieces(y, m, d, h, mi);
    SecondFields(s, us);
    FrontAndBack(MinuteText(Pad(y, 4), m, d, h, mi), SecondText(s, us), y, m, d, h, mi, s, us);
  }

  lemma PadReads(n: nat, w: nat)
    requires n < Pow10(w)
    ensures Digits(Pad(n, w)) && Value(Pad(n, w)) == n
  {
    PadShape(n, w);
    PadValue(n, w);
  }

  lemma PiecesRead(t: string, date: Date, h: nat, mi: nat, s: nat, us: nat)
    requires ValidDate(date) && 0 <= date.y <= 9999 && h < 24 && mi < 60 && s < 60 && us < 1_000_000
    requires Pieces(t, date.y, date.m, date.d, h, mi, s, us)
    ensures UtcText(t)
    ensures UtcMicros(t) == 1_000_000 * (86_400 * DayOf(date) + 3600 * h + 60 * mi + s) + us
  {
    SixDigits();
    PadReads(date.y, 4);
    PadReads(date.m, 2);
    PadReads(date.d, 2);
    PadReads(h, 2);
    PadReads(mi, 2);
    PadReads(s, 2);
    PadReads(us, 6);
  }

  lemma CanonicalReads(s: int, us: nat)
    requires InRange(s) && us < 1_000_000
    ensures UtcText(Canonical(s, us)) && UtcMicros(Canonical(s, us)) == 1_000_000 * s + us
  {
    DateOfDay(s / 86_400);
    var t, r := DateOf(s / 86_400), s % 86_400;
    TimeOfDay(r);
    MinutePieces(t.y, t.m, t.d, r / 3600, r % 3600 / 60, r % 60, us);
    PiecesRead(Canonical(s, us), t, r / 3600, r % 3600 / 60, r % 60, us);
  }

  lemma AppendZero(t: string)
    requires Digits(t)
    ensures Digits(t + "0") && Value(t + "0") == 10 * Value(t)
  {
    assert (t + "0")[..|t|] == t;
  }

  lemma TimesTen(v: int, p: int)
    ensures 10 * (v * p) == v * (10 * p)
  {}

  lemma {:induction false} ZerosScale(s: string, n: nat)
    requires Digits(s)
    ensures Digits(s + Zeros(n)) && Value(s + Zeros(n)) == Value(s) * Pow10(n)
    decreases n
  {
    if n == 0 {
      assert s + "" == s;
    } else {
      ZerosScale(s, n - 1);
      assert s + Zeros(n) == (s + Zeros(n - 1)) + "0";
      AppendZero(s + Zeros(n - 1));
      TimesTen(Value(s), Pow10(n - 1));
    }
  }

  /**
   * Up to the year 9999 the result is one date and time of UTC, and read back by its digits it is the
   * local time of the text less its offset, west negative, every digit of the fraction kept.
   */
  lemma IsoReadsBack(f: Fields)
    requires Accepted(f) && NormalYear(f) <= 9999
    ensures UtcText(IsoOf(f))
    ensures UtcMicros(IsoOf(f)) ==
      1_000_000 * (86_400 * DayOf(Date(f.year, f.month, f.day)) + 3600 * f.hour + 60 * f.minute + f.second
                   + (if f.negative then 60 else -60) * (60 * f.offHour + f.offMinute))
      + Value(f.fraction) * Pow10(6 - |f.fraction|)
  {
    IsoIsCanonical(f);
    MicrosShape(f.fraction);
    ZerosScale(f.fraction, 6 - |f.fraction|);
    CanonicalReads(UtcSeconds(f), Value(Micros(f.fraction)));
  }
}
