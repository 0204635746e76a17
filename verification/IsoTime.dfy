/**
 * ISO 8601 printing of whole seconds in UTC, over the years a datetime can hold: the calendar, the
 * fixed width, and that no two instants print alike.
 */
module IsoTime {
  /** The first second of year 1 and the last of year 9999, counted from the epoch. */
  const FIRST := -62_135_596_800
  const LAST := 253_402_300_799

  const DAY := 86_400

  /** Days from the first of January of year 1 to the epoch. */
  const EPOCH_DAY := 719_162

  /** `2026-07-30T14:00:00+00:00`: whole seconds in UTC always print to this length. */
  const ISO_LENGTH := 25

  predicate Printable(second: int) {
    FIRST <= second <= LAST
  }

  predicate IsLeap(year: nat) {
    year % 4 == 0 && (year % 100 != 0 || year % 400 == 0)
  }

  function DaysInYear(year: nat): nat {
    if IsLeap(year) then 366 else 365
  }

  function DaysInMonth(year: nat, month: nat): nat {
    if month == 2 then (if IsLeap(year) then 29 else 28)
    else if month == 4 || month == 6 || month == 9 || month == 11 then 30
    else 31
  }

  /** A position in a calendar unit: which unit, and how far into it. */
  datatype Place = Place(unit: nat, days: nat)

  /** The year that is `days` days after the start of a year. */
  function YearFrom(year: nat, days: nat): Place
    decreases days
  {
    if days < DaysInYear(year) then Place(year, days) else YearFrom(year + 1, days - DaysInYear(year))
  }

  /** The month that is `days` days after the start of a month of the same year. */
  function MonthFrom(year: nat, month: nat, days: nat): Place
    decreases days
  {
    if month >= 12 || days < DaysInMonth(year, month) then Place(month, days)
    else MonthFrom(year, month + 1, days - DaysInMonth(year, month))
  }

  function Digit(n: nat): char
    requires n < 10
  {
    "0123456789"[n]
  }

  function TwoDigits(n: nat): (s: string)
    ensures |s| == 2
  {
    [Digit(n / 10 % 10), Digit(n % 10)]
  }

  function FourDigits(n: nat): (s: string)
    ensures |s| == 4
  {
    TwoDigits(n / 100) + TwoDigits(n % 100)
  }

  function DateText(day: nat): (s: string)
    ensures |s| == 10
  {
    var y := YearFrom(1, day);
    var m := MonthFrom(y.unit, 1, y.days);
    FourDigits(y.unit) + ("-" + (TwoDigits(m.unit) + ("-" + TwoDigits(m.days + 1))))
  }

  function ClockText(second: nat): (s: string)
    ensures |s| == 8
  {
    TwoDigits(second / 3600) + (":" + (TwoDigits(second / 60 % 60) + (":" + TwoDigits(second % 60))))
  }

  /** The printed instant; outside the years of a datetime there is none. */
  function IsoText(second: int): string {
    if !Printable(second) then ""
    else DateText(second / DAY + EPOCH_DAY) + ("T" + (ClockText(second % DAY) + "+00:00"))
  }

  // ---------------------------------------------------------------------------------------------
  // The calendar.

  /** Days of the years before `year`, from year 1 on. */
  function DaysBefore(year: nat): int {
    var y := year - 1;
    365 * y + y / 4 - y / 100 + y / 400
  }

  lemma QuotientSteps(n: nat)
    requires n >= 1
    ensures n / 4 == (n - 1) / 4 + if n % 4 == 0 then 1 else 0
    ensures n / 100 == (n - 1) / 100 + if n % 100 == 0 then 1 else 0
    ensures n / 400 == (n - 1) / 400 + if n % 400 == 0 then 1 else 0
  {}

  lemma LeapMultiples(n: nat)
    ensures n % 400 == 0 ==> n % 100 == 0
    ensures n % 100 == 0 ==> n % 4 == 0
  {
    var a, b := n / 100, n / 400;
    assert n % 400 == 0 ==> n == 100 * (4 * b);
    assert n % 100 == 0 ==> n == 4 * (25 * a);
  }

  lemma OneYear(year: nat)
    requires year >= 1
    ensures DaysBefore(year + 1) == DaysBefore(year) + DaysInYear(year)
  {
    QuotientSteps(year);
    LeapMultiples(year);
  }

  /** A day is told by its year and its day in the year. */
  lemma {:induction false} YearTells(year: nat, days: nat)
    requires year >= 1
    ensures var y := YearFrom(year, days);
            && y.unit >= year && y.days < DaysInYear(y.unit)
            && DaysBefore(year) + days == DaysBefore(y.unit) + y.days
    decreases days
  {
    hide DaysBefore;
    if days >= DaysInYear(year) {
      OneYear(year);
      YearTells(year + 1, days - DaysInYear(year));
    }
  }

  lemma {:induction false} YearsRise(a: nat, b: nat)
    requires 1 <= a
    ensures a <= b ==> DaysBefore(a) <= DaysBefore(b)
    decreases b
  {
    hide DaysBefore;
    if a < b {
      YearsRise(a, b - 1);
      OneYear(b - 1);
    }
  }

  lemma YearBounded(day: nat)
    requires day < 3_652_059
    ensures YearFrom(1, day).unit <= 9999
  {
    var y := YearFrom(1, day);
    YearTells(1, day);
    assert DaysBefore(1) == 0 && DaysBefore(10_000) == 3_652_059;
    YearsRise(10_000, y.unit);
  }

  /** Days of the months of a year before `month`. */
  function MonthsBefore(year: nat, month: nat): nat {
    if month <= 1 then 0 else MonthsBefore(year, month - 1) + DaysInMonth(year, month - 1)
  }

  lemma {:induction false} MonthTells(year: nat, month: nat, days: nat)
    requires 1 <= month <= 12
    ensures var m := MonthFrom(year, month, days);
            month <= m.unit <= 12 && MonthsBefore(year, month) + days == MonthsBefore(year, m.unit) + m.days
    decreases days
  {
    if month < 12 && days >= DaysInMonth(year, month) {
      MonthTells(year, month + 1, days - DaysInMonth(year, month));
    }
  }

  lemma YearLength(year: nat)
    ensures MonthsBefore(year, 12) + 31 == DaysInYear(year)
  {
    hide IsLeap;
    assert MonthsBefore(year, 2) == 31;
    assert MonthsBefore(year, 3) == 31 + DaysInMonth(year, 2);
    assert MonthsBefore(year, 5) == MonthsBefore(year, 3) + 61;
    assert MonthsBefore(year, 7) == MonthsBefore(year, 5) + 61;
    assert MonthsBefore(year, 9) == MonthsBefore(year, 7) + 62;
    assert MonthsBefore(year, 11) == MonthsBefore(year, 9) + 61;
  }

  lemma {:induction false} MonthBounded(year: nat, month: nat, days: nat)
    requires 1 <= month <= 12 && MonthsBefore(year, month) + days < DaysInYear(year)
    ensures MonthFrom(year, month, days).days < 31
    decreases days
  {
    if month >= 12 {
      YearLength(year);
    } else if days >= DaysInMonth(year, month) {
      MonthBounded(year, month + 1, days - DaysInMonth(year, month));
    }
  }

  /** The printed fields fit their widths, and together they tell the day. */
  lemma DateFields(day: nat)
    requires day < 3_652_059
    ensures var y := YearFrom(1, day);
            var m := MonthFrom(y.unit, 1, y.days);
            && y.unit < 10_000 && m.unit < 100 && m.days + 1 < 100
            && day == DaysBefore(y.unit) + MonthsBefore(y.unit, m.unit) + m.days
  {
    var y := YearFrom(1, day);
    YearTells(1, day);
    YearBounded(day);
    hide DaysBefore, DaysInMonth, DaysInYear, YearFrom, MonthFrom;
    assert DaysBefore(1) == 0 by { FirstYear(); }
    assert MonthsBefore(y.unit, 1) == 0;
    MonthTells(y.unit, 1, y.days);
    MonthBounded(y.unit, 1, y.days);
  }

  lemma FirstYear()
    ensures DaysBefore(1) == 0
  {}

  lemma ClockTells(second: nat)
    ensures second == second / 3600 * 3600 + second / 60 % 60 * 60 + second % 60
  {}

  // ---------------------------------------------------------------------------------------------
  // Reading a printed instant.

  /** The number that two characters spell. */
  function Two(s: string, i: nat): int
    requires i + 2 <= |s|
  {
    10 * (s[i] as int - '0' as int) + (s[i + 1] as int - '0' as int)
  }

  function Four(s: string, i: nat): int
    requires i + 4 <= |s|
  {
    100 * Two(s, i) + Two(s, i + 2)
  }

  lemma DigitReads(n: nat)
    requires n < 10
    ensures Digit(n) as int == '0' as int + n
  {
    assert n == 0 || n == 1 || n == 2 || n == 3 || n == 4 || n == 5 || n == 6 || n == 7 || n == 8 || n == 9;
  }

  lemma TwoReads(n: nat, s: string, i: nat)
    requires n < 100 && i + 2 <= |s| && s[i..i + 2] == TwoDigits(n)
    ensures Two(s, i) == n
  {
    DigitReads(n / 10 % 10);
    DigitReads(n % 10);
    hide Digit;
    assert s[i] == s[i..i + 2][0] && s[i + 1] == s[i..i + 2][1];
  }

  lemma FourReads(n: nat, s: string, i: nat)
    requires n < 10_000 && i + 4 <= |s| && s[i..i + 4] == FourDigits(n)
    ensures Four(s, i) == n
  {
    hide TwoDigits, Two;
    assert s[i..i + 2] == s[i..i + 4][..2] && s[i + 2..i + 4] == s[i..i + 4][2..];
    TwoReads(n / 100, s, i);
    TwoReads(n % 100, s, i + 2);
  }

  /** A day of the year falls in its month. */
  lemma {:induction false} MonthFits(year: nat, month: nat, days: nat)
    requires 1 <= month <= 12 && MonthsBefore(year, month) + days < DaysInYear(year)
    ensures var m := MonthFrom(year, month, days); m.unit <= 12 && m.days < DaysInMonth(year, m.unit)
    decreases days
  {
    if month >= 12 {
      YearLength(year);
    } else if days >= DaysInMonth(year, month) {
      MonthFits(year, month + 1, days - DaysInMonth(year, month));
    }
  }

  /** A printed date reads back: year, month and day of the calendar, together the day printed. */
  lemma DateReads(day: nat)
    requires day < 3_652_059
    ensures var s := DateText(day);
            var y, m, d := Four(s, 0), Two(s, 5), Two(s, 8);
            && s[4] == s[7] == '-' && 1 <= y <= 9999 && 1 <= m <= 12 && 1 <= d <= DaysInMonth(y, m)
            && day == DaysBefore(y) + MonthsBefore(y, m) + d - 1
  {
    hide YearFrom, MonthFrom, FourDigits, TwoDigits, DaysBefore, DaysInYear, DaysInMonth, MonthsBefore, Two, Four;
    var y := YearFrom(1, day);
    var m := MonthFrom(y.unit, 1, y.days);
    DateFields(day);
    YearTells(1, day);
    YearBounded(day);
    MonthInYear(y.unit, y.days);
    var s := DateText(day);
    assert s[0..4] == FourDigits(y.unit) && s[5..7] == TwoDigits(m.unit) && s[8..10] == TwoDigits(m.days + 1);
    FourReads(y.unit, s, 0);
    TwoReads(m.unit, s, 5);
    TwoReads(m.days + 1, s, 8);
  }

  lemma MonthInYear(year: nat, days: nat)
    requires days < DaysInYear(year)
    ensures var m := MonthFrom(year, 1, days); 1 <= m.unit <= 12 && m.days < DaysInMonth(year, m.unit)
  {
    hide DaysInYear, DaysInMonth, MonthFrom;
    assert MonthsBefore(year, 1) == 0;
    MonthFits(year, 1, days);
    MonthTells(year, 1, days);
  }

  lemma ClockReads(second: nat)
    requires second < DAY
    ensures var s := ClockText(second);
            var h, m, sec := Two(s, 0), Two(s, 3), Two(s, 6);
            && s[2] == s[5] == ':' && 0 <= h < 24 && 0 <= m < 60 && 0 <= sec < 60
            && second == h * 3600 + m * 60 + sec
  {
    hide TwoDigits, Two;
    var s := ClockText(second);
    assert s[0..2] == TwoDigits(second / 3600) && s[3..5] == TwoDigits(second / 60 % 60);
    assert s[6..8] == TwoDigits(second % 60);
    ClockTells(second);
    TwoReads(second / 3600, s, 0);
    TwoReads(second / 60 % 60, s, 3);
    TwoReads(second % 60, s, 6);
  }

  /** Two readings at shifted places agree. */
  lemma TwoShifts(s: string, part: string, at: nat, i: nat)
    requires at + |part| <= |s| && s[at..at + |part|] == part && i + 2 <= |part|
    ensures Two(s, at + i) == Two(part, i)
  {
    assert s[at + i] == part[i] && s[at + i + 1] == part[i + 1];
  }

  /**
   * A printed instant is a date of the calendar and a time of the day in UTC, digit by digit, and it reads
   * back to the second it was printed from.
   */
  lemma IsoReadsBack(second: int)
    requires Printable(second)
    ensures var s := IsoText(second);
            && |s| == 25 && s[4] == s[7] == '-' && s[10] == 'T' && s[13] == s[16] == ':' && s[19..] == "+00:00"
    ensures var s := IsoText(second);
            var y, month, d, h, m, sec := Four(s, 0), Two(s, 5), Two(s, 8), Two(s, 11), Two(s, 14), Two(s, 17);
            && 1 <= y <= 9999 && 1 <= month <= 12 && 1 <= d <= DaysInMonth(y, month)
            && 0 <= h < 24 && 0 <= m < 60 && 0 <= sec < 60
            && second == (DaysBefore(y) + MonthsBefore(y, month) + d - 1 - DaysBefore(1970)) * 86_400 +
                         h * 3600 + m * 60 + sec
  {
    hide DateText, ClockText, Two, DaysInMonth, DaysInYear, MonthsBefore;
    var s, date, clock := IsoText(second), DateText(second / DAY + EPOCH_DAY), ClockText(second % DAY);
    assert DaysBefore(1970) == EPOCH_DAY;
    hide DaysBefore;
    DateReads(second / DAY + EPOCH_DAY);
    ClockReads(second % DAY);
    assert s[0..10] == date && s[11..19] == clock && s[19..] == "+00:00" && s[10] == 'T';
    assert s[4] == date[4] && s[7] == date[7] && s[13] == clock[2] && s[16] == clock[5];
    TwoShifts(s, date, 0, 0);
    TwoShifts(s, date, 0, 2);
    TwoShifts(s, date, 0, 5);
    TwoShifts(s, date, 0, 8);
    TwoShifts(s, clock, 11, 0);
    TwoShifts(s, clock, 11, 3);
    TwoShifts(s, clock, 11, 6);
    assert second == second / DAY * DAY + second % DAY;
  }

  /** Every instant a datetime can hold prints to the fixed length, and no two print alike. */
  lemma IsoTextInjective(a: int, b: int)
    requires Printable(a) && Printable(b)
    ensures |IsoText(a)| == ISO_LENGTH
    ensures IsoText(a) == IsoText(b) <==> a == b
  {
    hide IsoText, DaysBefore, MonthsBefore, DaysInMonth, Two, Four;
    IsoReadsBack(a);
    IsoReadsBack(b);
  }
}
