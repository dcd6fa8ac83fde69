/** Timestamps as the queue stores them: UTC instants rendered by Go's RFC3339Nano
    layout and compared by SQLite as text.  The layout drops trailing zeros of the
    fraction, so text order and time order are two different orders. */
module Timestamps {

  const NANOS: int := 1_000_000_000
  const SECONDS_PER_DAY: int := 86_400
  const DAYS_TO_YEAR_10000: int := 3_652_425

  /** Nanoseconds since 0000-01-01T00:00:00Z, up to the end of year 9999. */
  type Instant = t: int | 0 <= t < DAYS_TO_YEAR_10000 * SECONDS_PER_DAY * NANOS

  // ---- The calendar ----

  predicate IsLeap(year: nat) {
    year % 4 == 0 && (year % 100 != 0 || year % 400 == 0)
  }

  function DaysBeforeYear(year: nat): nat {
    if year == 0 then 0 else DaysBeforeYear(year - 1) + (if IsLeap(year - 1) then 366 else 365)
  }

  function MonthLength(leap: bool, month: nat): (days: nat)
    ensures 28 <= days <= 31
  {
    if month == 2 then (if leap then 29 else 28)
    else if month == 4 || month == 6 || month == 9 || month == 11 then 30
    else 31
  }

  function DaysBeforeMonth(leap: bool, month: nat): nat
    requires 1 <= month <= 13
  {
    if month == 1 then 0 else DaysBeforeMonth(leap, month - 1) + MonthLength(leap, month - 1)
  }

  lemma TwelveMonths(leap: bool)
    ensures DaysBeforeMonth(leap, 13) == if leap then 366 else 365
  {
    if leap {
      assert DaysBeforeMonth(true, 13) == 366;
    } else {
      assert DaysBeforeMonth(false, 13) == 365;
    }
  }

  function YearFrom(day: nat, year: nat): (y: nat)
    requires DaysBeforeYear(year) <= day
    ensures DaysBeforeYear(y) <= day < DaysBeforeYear(y + 1)
    decreases day - DaysBeforeYear(year)
  {
    if day < DaysBeforeYear(year + 1) then year else YearFrom(day, year + 1)
  }

  function MonthFrom(leap: bool, yearDay: nat, m: nat): (month: nat)
    requires 1 <= m <= 12 && DaysBeforeMonth(leap, m) <= yearDay < DaysBeforeMonth(leap, 13)
    ensures 1 <= month <= 12
    ensures DaysBeforeMonth(leap, month) <= yearDay < DaysBeforeMonth(leap, month + 1)
    decreases 12 - m
  {
    if yearDay < DaysBeforeMonth(leap, m + 1) then m else MonthFrom(leap, yearDay, m + 1)
  }

  datatype Date = Date(year: nat, month: nat, day: nat)

  function DateOf(day: nat): (d: Date)
    ensures 1 <= d.month <= 12 && 1 <= d.day <= 31
    ensures DaysBeforeYear(d.year) + DaysBeforeMonth(IsLeap(d.year), d.month) + d.day - 1 == day
  {
    var year := YearFrom(day, 0);
    TwelveMonths(IsLeap(year));
    var yearDay := day - DaysBeforeYear(year);
    var month := MonthFrom(IsLeap(year), yearDay, 1);
    Date(year, month, yearDay - DaysBeforeMonth(IsLeap(year), month) + 1)
  }

  predicate DateLess(a: Date, b: Date) {
    a.year < b.year || (a.year == b.year && (a.month < b.month || (a.month == b.month && a.day < b.day)))
  }

  lemma YearsGrow(x: nat, y: nat)
    requires x <= y
    ensures DaysBeforeYear(x) <= DaysBeforeYear(y)
  {}

  lemma MonthsGrow(leap: bool, x: nat, y: nat)
    requires 1 <= x <= y <= 13
    ensures DaysBeforeMonth(leap, x) <= DaysBeforeMonth(leap, y)
  {}

  /** Later days have later dates. */
  lemma DatesGrow(a: nat, b: nat)
    requires a < b
    ensures DateLess(DateOf(a), DateOf(b))
  {
    hide DaysBeforeYear, DaysBeforeMonth, YearFrom, MonthFrom, IsLeap, DateOf;
    DateBounds(a);
    DateBounds(b);
    var x, y := DateOf(a), DateOf(b);
    if y.year < x.year {
      YearsGrow(y.year + 1, x.year);
    } else if x.year == y.year && y.month < x.month {
      MonthsGrow(IsLeap(x.year), y.month + 1, x.month);
    }
  }

  /** A date is the day within its month within its year. */
  lemma DateBounds(day: nat)
    ensures var d := DateOf(day);
      && DaysBeforeYear(d.year) <= day < DaysBeforeYear(d.year + 1)
      && DaysBeforeYear(d.year) + DaysBeforeMonth(IsLeap(d.year), d.month) + d.day - 1 == day
      && 1 <= d.month <= 12 && 1 <= d.day
      && day - DaysBeforeYear(d.year) < DaysBeforeMonth(IsLeap(d.year), d.month + 1)
  {
    TwelveMonths(IsLeap(YearFrom(day, 0)));
  }

  function LeapYearsBefore(year: nat): int {
    (year + 3) / 4 - (year + 99) / 100 + (year + 399) / 400
  }

  lemma EveryFourth(year: nat)
    ensures (year + 4) / 4 == (year + 3) / 4 + (if year % 4 == 0 then 1 else 0)
  {}

  lemma EveryHundredth(year: nat)
    ensures (year + 100) / 100 == (year + 99) / 100 + (if year % 100 == 0 then 1 else 0)
  {}

  lemma EveryFourHundredth(year: nat)
    ensures (year + 400) / 400 == (year + 399) / 400 + (if year % 400 == 0 then 1 else 0)
  {}

  lemma HundredsAreFourths(year: nat)
    requires year % 100 == 0
    ensures year % 4 == 0
  {
    var k := 25 * (year / 100) - year / 4;
    assert year % 4 == 4 * k;
    assert k == 0;
  }

  lemma FourHundredsAreHundreds(year: nat)
    requires year % 400 == 0
    ensures year % 100 == 0
  {
    var k := 4 * (year / 400) - year / 100;
    assert year % 100 == 100 * k;
    assert k == 0;
  }

  lemma LeapYearsStep(year: nat)
    ensures LeapYearsBefore(year + 1) == LeapYearsBefore(year) + (if IsLeap(year) then 1 else 0)
  {
    EveryFourth(year);
    EveryHundredth(year);
    EveryFourHundredth(year);
    if year % 400 == 0 {
      FourHundredsAreHundreds(year);
    }
    if year % 100 == 0 {
      HundredsAreFourths(year);
    }
  }

  /** The Gregorian leap rule in closed form. */
  lemma {:induction false} DaysBeforeYearClosed(year: nat)
    ensures DaysBeforeYear(year) == 365 * year + LeapYearsBefore(year)
  {
    if year > 0 {
      DaysBeforeYearClosed(year - 1);
      LeapYearsStep(year - 1);
    }
  }

  lemma YearFitsFourDigits(day: nat)
    requires day < DAYS_TO_YEAR_10000
    ensures DateOf(day).year < 10000
  {
    DaysBeforeYearClosed(10000);
    if DateOf(day).year >= 10000 {
      YearsGrow(10000, DateOf(day).year);
    }
  }

  // ---- The layout "2006-01-02T15:04:05.999999999Z07:00", in UTC ----

  function Digit(d: nat): char
    requires d < 10
  {
    '0' + d as char
  }

  function Pow10(w: nat): (p: nat)
    ensures p > 0
  {
    if w == 0 then 1 else 10 * Pow10(w - 1)
  }

  /** Decimal digits of `n`, zero-padded to width `w`. */
  function Pad(n: nat, w: nat): (s: string)
    requires n < Pow10(w)
    ensures |s| == w
    ensures forall i :: 0 <= i < |s| ==> '0' <= s[i] <= '9'
  {
    if w == 0 then [] else Pad(n / 10, w - 1) + [Digit(n % 10)]
  }

  /** Digits without their trailing zeros. */
  function Trim(digits: string): (s: string)
    ensures |s| <= |digits| && s == digits[..|s|]
  {
    if digits == [] then []
    else
      var rest := Trim(digits[1..]);
      if digits[0] == '0' && rest == [] then [] else [digits[0]] + rest
  }

  /** Month lengths in closed form: from March on they repeat every five months. */
  lemma MonthsClosed(leap: bool, month: nat)
    requires 1 <= month <= 13
    ensures DaysBeforeMonth(leap, month) ==
      if month <= 2 then 31 * (month - 1) else 59 + (if leap then 1 else 0) + (153 * (month - 3) + 2) / 5
  {
    if month > 1 {
      MonthsClosed(leap, month - 1);
    }
  }

  function SecondOf(t: Instant): nat {
    t / NANOS
  }

  /** Date and time of day down to the second: always 19 characters. */
  function Stamp(second: nat): (s: string)
    requires second < DAYS_TO_YEAR_10000 * SECONDS_PER_DAY
  {
    var date, time := DateOf(second / SECONDS_PER_DAY), second % SECONDS_PER_DAY;
    YearFitsFourDigits(second / SECONDS_PER_DAY);
    Pad(date.year, 4) + ("-" + (Pad(date.month, 2) + ("-" + (Pad(date.day, 2) + ("T" +
    (Pad(time / 3600, 2) + (":" + (Pad(time / 60 % 60, 2) + (":" + Pad(time % 60, 2))))))))))
  }

  function Fraction(t: Instant): string {
    Trim(Pad(t % NANOS, 9))
  }

  function Zone(fraction: string): string {
    if fraction == [] then "Z" else "." + fraction + "Z"
  }

  function Format(t: Instant): string {
    Stamp(SecondOf(t)) + Zone(Fraction(t))
  }

  lemma YearIs(day: nat, year: nat)
    requires DaysBeforeYear(year) <= day < DaysBeforeYear(year + 1)
    ensures DateOf(day).year == year
  {
    hide DaysBeforeYear, YearFrom, MonthFrom;
    DateBounds(day);
    if DateOf(day).year < year {
      YearsGrow(DateOf(day).year + 1, year);
    } else if DateOf(day).year > year {
      YearsGrow(year + 1, DateOf(day).year);
    }
  }

  lemma EpochDate()
    ensures DateOf(719_528) == Date(1970, 1, 1)
  {
    hide DaysBeforeYear, YearFrom, MonthFrom;
    DaysBeforeYearClosed(1970);
    DaysBeforeYearClosed(1971);
    YearIs(719_528, 1970);
    DateBounds(719_528);
    var month := DateOf(719_528).month;
    assert DaysBeforeMonth(false, month) == 0;
    MonthsClosed(false, month);
  }

  lemma TwoDigits(n: nat)
    requires n < 100
    ensures Pow10(2) == 100 && Pad(n, 2) == [Digit(n / 10), Digit(n % 10)]
  {
    assert Pad(n / 10, 1) == Pad(0, 0) + [Digit(n / 10)];
  }

  lemma EpochYear()
    ensures Pow10(4) == 10000 && Pad(1970, 4) == "1970"
  {
    TwoDigits(19);
    assert Pad(197, 3) == Pad(19, 2) + [Digit(7)];
    assert Pad(1970, 4) == Pad(197, 3) + [Digit(0)];
  }

  lemma Joined(year: string, month: string, day: string, hour: string, minute: string, second: string)
    requires |year| == 4 && |month| == 2 && |day| == 2 && |hour| == 2 && |minute| == 2 && |second| == 2
    ensures year + ("-" + (month + ("-" + (day + ("T" + (hour + (":" + (minute + (":" + second)))))))))
         == [year[0], year[1], year[2], year[3], '-', month[0], month[1], '-', day[0], day[1], 'T',
             hour[0], hour[1], ':', minute[0], minute[1], ':', second[0], second[1]]
  {}

  /** The layout on the last second of the day that Go counts from. */
  lemma EpochText()
    ensures Stamp(719_528 * SECONDS_PER_DAY + 86_399) == "1970-01-01T23:59:59"
  {
    hide DateOf, Pad, DaysBeforeYear;
    EpochDate();
    EpochYear();
    TwoDigits(1);
    TwoDigits(23);
    TwoDigits(59);
    Joined(Pad(1970, 4), Pad(1, 2), Pad(1, 2), Pad(23, 2), Pad(59, 2), Pad(59, 2));
  }

  lemma {:induction false} ZeroTrimmed(digits: string)
    ensures Trim(digits + "0") == Trim(digits)
  {
    if digits != [] {
      ZeroTrimmed(digits[1..]);
      assert (digits + "0")[1..] == digits[1..] + "0";
    }
  }

  /** Ten times as much with one more digit has the same digits but for the last zero. */
  lemma TimesTen(n: nat, w: nat)
    requires n < Pow10(w)
    ensures 10 * n < Pow10(w + 1) && Trim(Pad(10 * n, w + 1)) == Trim(Pad(n, w))
  {
    hide Trim;
    ZeroTrimmed(Pad(n, w));
    assert Pad(10 * n, w + 1) == Pad(n, w) + "0";
  }

  lemma TrimmedDigits()
    ensures 50_000_000 < Pow10(9) && Trim(Pad(50_000_000, 9)) == "05"
  {
    hide Pad, Trim, Pow10;
    TwoDigits(5);
    TimesTen(5, 2);
    TimesTen(50, 3);
    TimesTen(500, 4);
    TimesTen(5_000, 5);
    TimesTen(50_000, 6);
    TimesTen(500_000, 7);
    TimesTen(5_000_000, 8);
    NothingTrimmed();
  }

  lemma NothingTrimmed()
    ensures Trim("05") == "05"
  {
    assert Trim("05"[1..]) == "5";
  }

  /** And with a fraction of a second. */
  lemma FractionText()
    ensures Format((719_528 * SECONDS_PER_DAY + 86_399) * 1_000_000_000 + 50_000_000) == "1970-01-01T23:59:59.05Z"
  {
    hide Stamp, Pad, Trim;
    var t := (719_528 * SECONDS_PER_DAY + 86_399) * 1_000_000_000 + 50_000_000;
    assert SecondOf(t) == 719_528 * SECONDS_PER_DAY + 86_399 && t % NANOS == 50_000_000;
    EpochText();
    TrimmedDigits();
    assert Zone("05") == ".05Z";
  }

  // ---- SQLite's text order ----

  /** Byte-wise order, a proper prefix being the smaller. */
  predicate TextLess(a: string, b: string) {
    b != [] && (a == [] || a[0] < b[0] || (a[0] == b[0] && TextLess(a[1..], b[1..])))
  }

  /** `a` sorts strictly before `b` when both are stored as text. */
  predicate Before(a: Instant, b: Instant) {
    TextLess(Format(a), Format(b))
  }
}
