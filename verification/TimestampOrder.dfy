/** How far the text order of stored timestamps strays from the order of the instants. */
module TimestampOrder {
  import opened Timestamps

  // ---- TextLess is a strict total order ----

  lemma {:induction false} TextTotal(a: string, b: string)
    ensures !(TextLess(a, b) && TextLess(b, a))
    ensures a == b || TextLess(a, b) || TextLess(b, a)
    ensures a == b ==> !TextLess(a, b)
  {
    if a != [] && b != [] && a[0] == b[0] {
      TextTotal(a[1..], b[1..]);
      assert a == [a[0]] + a[1..] && b == [b[0]] + b[1..];
    }
  }

  lemma {:induction false} TextTransitive(a: string, b: string, c: string)
    requires TextLess(a, b) && !TextLess(c, b)
    ensures TextLess(a, c)
  {
    if a != [] && a[0] == b[0] && c != [] && c[0] == b[0] {
      TextTransitive(a[1..], b[1..], c[1..]);
    }
  }

  // ---- Concatenations ----

  lemma {:induction false} SamePrefix(p: string, x: string, y: string)
    ensures TextLess(p + x, p + y) <==> TextLess(x, y)
  {
    if p == [] {
      assert p + x == x && p + y == y;
    } else {
      SamePrefix(p[1..], x, y);
      assert (p + x)[1..] == p[1..] + x && (p + y)[1..] == p[1..] + y;
    }
  }

  lemma {:induction false} PrefixDecides(p: string, q: string, x: string, y: string)
    requires |p| == |q| && TextLess(p, q)
    ensures TextLess(p + x, q + y)
  {
    if p[0] == q[0] {
      PrefixDecides(p[1..], q[1..], x, y);
      assert (p + x)[1..] == p[1..] + x && (q + y)[1..] == q[1..] + y;
    }
  }

  // ---- Whole seconds: text order is time order ----

  lemma {:induction false} PadOrder(n: nat, m: nat, w: nat)
    requires n < m < Pow10(w)
    ensures TextLess(Pad(n, w), Pad(m, w))
  {
    if n / 10 < m / 10 {
      PadOrder(n / 10, m / 10, w - 1);
      PrefixDecides(Pad(n / 10, w - 1), Pad(m / 10, w - 1), [Digit(n % 10)], [Digit(m % 10)]);
    } else {
      SamePrefix(Pad(n / 10, w - 1), [Digit(n % 10)], [Digit(m % 10)]);
    }
  }

  /** A fixed-width field, a separator and the later fields compare as a tuple. */
  lemma FieldOrder(n: nat, m: nat, w: nat, separator: char, x: string, y: string)
    requires n < Pow10(w) && m < Pow10(w)
    requires n < m || (n == m && TextLess(x, y))
    ensures TextLess(Pad(n, w) + ([separator] + x), Pad(m, w) + ([separator] + y))
  {
    if n < m {
      PadOrder(n, m, w);
      PrefixDecides(Pad(n, w), Pad(m, w), [separator] + x, [separator] + y);
    } else {
      SamePrefix([separator], x, y);
      SamePrefix(Pad(n, w), [separator] + x, [separator] + y);
    }
  }

  function Clock(time: nat): string
    requires time < SECONDS_PER_DAY
  {
    Pad(time / 3600, 2) + (":" + (Pad(time / 60 % 60, 2) + (":" + Pad(time % 60, 2))))
  }

  lemma ClockFields(time: nat)
    requires time < SECONDS_PER_DAY
    ensures time == 3600 * (time / 3600) + 60 * (time / 60 % 60) + time % 60
    ensures time / 3600 < 24 && time / 60 % 60 < 60 && time % 60 < 60
  {
    assert time / 60 / 60 == time / 3600;
  }

  lemma ClockOrder(a: nat, b: nat)
    requires a < b < SECONDS_PER_DAY
    ensures TextLess(Clock(a), Clock(b))
  {
    ClockFields(a);
    ClockFields(b);
    assert Pow10(2) == 100;
    if a / 3600 == b / 3600 {
      MinuteOrder(2, a / 60 % 60, a % 60, b / 60 % 60, b % 60);
    }
    FieldOrder(a / 3600, b / 3600, 2, ':',
               Pad(a / 60 % 60, 2) + (":" + Pad(a % 60, 2)), Pad(b / 60 % 60, 2) + (":" + Pad(b % 60, 2)));
  }

  lemma MinuteOrder(w: nat, m: nat, s: nat, m': nat, s': nat)
    requires m < Pow10(w) && s < Pow10(w) && m' < Pow10(w) && s' < Pow10(w)
    requires m < m' || (m == m' && s < s')
    ensures TextLess(Pad(m, w) + (":" + Pad(s, w)), Pad(m', w) + (":" + Pad(s', w)))
  {
    if m == m' {
      PadOrder(s, s', w);
    }
    FieldOrder(m, m', w, ':', Pad(s, w), Pad(s', w));
  }

  function Calendar(date: Date, rest: string): string
    requires date.year < 10000 && date.month < 100 && date.day < 100
  {
    Pad(date.year, 4) + ("-" + (Pad(date.month, 2) + ("-" + (Pad(date.day, 2) + ("T" + rest)))))
  }

  lemma CalendarOrder(a: Date, b: Date, x: string, y: string)
    requires a.year < 10000 && a.month < 100 && a.day < 100
    requires b.year < 10000 && b.month < 100 && b.day < 100
    requires DateLess(a, b) || (a == b && TextLess(x, y))
    ensures TextLess(Calendar(a, x), Calendar(b, y))
  {
    var dayA, dayB := Pad(a.day, 2) + ("T" + x), Pad(b.day, 2) + ("T" + y);
    if a.year == b.year && a.month == b.month {
      FieldOrder(a.day, b.day, 2, 'T', x, y);
    }
    var monthA, monthB := Pad(a.month, 2) + ("-" + dayA), Pad(b.month, 2) + ("-" + dayB);
    if a.year == b.year {
      FieldOrder(a.month, b.month, 2, '-', dayA, dayB);
    }
    FieldOrder(a.year, b.year, 4, '-', monthA, monthB);
  }

  lemma StampOrder(a: nat, b: nat)
    requires a < b < DAYS_TO_YEAR_10000 * SECONDS_PER_DAY
    ensures TextLess(Stamp(a), Stamp(b))
  {
    var dayA, dayB := a / SECONDS_PER_DAY, b / SECONDS_PER_DAY;
    YearFitsFourDigits(dayA);
    YearFitsFourDigits(dayB);
    if dayA < dayB {
      DatesGrow(dayA, dayB);
    } else {
      ClockOrder(a % SECONDS_PER_DAY, b % SECONDS_PER_DAY);
    }
    CalendarOrder(DateOf(dayA), DateOf(dayB), Clock(a % SECONDS_PER_DAY), Clock(b % SECONDS_PER_DAY));
  }

  lemma StampLength(second: nat)
    requires second < DAYS_TO_YEAR_10000 * SECONDS_PER_DAY
    ensures |Stamp(second)| == 19
  {}

  // ---- Fractions: a trimmed fraction that is a proper prefix sorts last ----

  predicate Digits(s: string) {
    forall i :: 0 <= i < |s| ==> '0' <= s[i] <= '9'
  }

  /** Equal-length digit strings against their trimmed, 'Z'-terminated forms. */
  lemma {:induction false} TrimOrder(s: string, t: string)
    requires |s| == |t| && Digits(s) && Digits(t) && TextLess(s, t)
    ensures Trim(s) != Trim(t) && !(Trim(t) < Trim(s))
    ensures TextLess(Trim(s) + "Z", Trim(t) + "Z") <==> !(Trim(s) < Trim(t))
  {
    var x, y := Trim(s), Trim(t);
    if s[0] < t[0] {
      assert y != [] && y[0] == t[0];
      assert x != [] ==> x[0] == s[0];
    } else {
      TrimOrder(s[1..], t[1..]);
      var x', y' := Trim(s[1..]), Trim(t[1..]);
      assert y' != [];
      assert y == [t[0]] + y';
      if x == [] {
        assert x' == [];
      } else {
        assert x == [s[0]] + x';
        assert x + "Z" == [s[0]] + (x' + "Z") && y + "Z" == [t[0]] + (y' + "Z");
        assert x < y <==> x' < y';
      }
    }
  }

  lemma ZoneOrder(s: string, t: string)
    requires |s| == |t| && Digits(s) && Digits(t) && TextLess(s, t)
    ensures Trim(s) != Trim(t) && !(Trim(t) < Trim(s))
    ensures TextLess(Zone(Trim(s)), Zone(Trim(t))) <==> !(Trim(s) < Trim(t))
  {
    TrimOrder(s, t);
    if Trim(s) != [] {
      assert Zone(Trim(s)) == "." + (Trim(s) + "Z") && Zone(Trim(t)) == "." + (Trim(t) + "Z");
      SamePrefix(".", Trim(s) + "Z", Trim(t) + "Z");
    }
  }

  // ---- The two orders compared ----

  predicate FractionCutShort(a: Instant, b: Instant) {
    SecondOf(a) == SecondOf(b) && Fraction(a) < Fraction(b)
  }

  lemma EarlierInstants(a: Instant, b: Instant)
    requires a < b
    ensures Before(a, b) <==> !FractionCutShort(a, b)
    ensures !FractionCutShort(b, a)
    ensures Format(a) != Format(b)
  {
    var x, y := Stamp(SecondOf(a)), Stamp(SecondOf(b));
    StampLength(SecondOf(a));
    StampLength(SecondOf(b));
    if SecondOf(a) < SecondOf(b) {
      StampOrder(SecondOf(a), SecondOf(b));
      PrefixDecides(x, y, Zone(Fraction(a)), Zone(Fraction(b)));
    } else {
      PadOrder(a % NANOS, b % NANOS, 9);
      ZoneOrder(Pad(a % NANOS, 9), Pad(b % NANOS, 9));
      SamePrefix(x, Zone(Fraction(a)), Zone(Fraction(b)));
      SamePrefix(x, Zone(Fraction(b)), Zone(Fraction(a)));
      TextTotal(Zone(Fraction(a)), Zone(Fraction(b)));
    }
    TextTotal(Format(a), Format(b));
  }

  /** Text order agrees with time order on two distinct instants unless they share a
      second and one trimmed fraction is a proper prefix of the other; then the two
      orders are opposite. */
  lemma OrdersAgreeExactlyWhen(a: Instant, b: Instant)
    requires a != b
    ensures (Before(a, b) <==> a < b) <==> !(FractionCutShort(a, b) || FractionCutShort(b, a))
    ensures Before(a, b) <==> !Before(b, a)
  {
    TextTotal(Format(a), Format(b));
    if a < b {
      EarlierInstants(a, b);
    } else {
      EarlierInstants(b, a);
    }
  }

  lemma {:induction false} ZeroFraction(w: nat)
    ensures Trim(Pad(0, w)) == []
    ensures forall i :: 0 <= i < w ==> Pad(0, w)[i] == '0'
  {
    if w > 0 {
      ZeroFraction(w - 1);
    }
    AllZerosTrimAway(Pad(0, w));
  }

  lemma {:induction false} AllZerosTrimAway(s: string)
    requires forall i :: 0 <= i < |s| ==> s[i] == '0'
    ensures Trim(s) == []
  {
    if s != [] {
      AllZerosTrimAway(s[1..]);
    }
  }

  /** A whole second sorts after every later instant of that second. */
  lemma WholeSecondSortsLast(a: Instant, b: Instant)
    requires a % NANOS == 0 && a < b && SecondOf(a) == SecondOf(b)
    ensures Before(b, a)
  {
    ZeroFraction(9);
    PadOrder(a % NANOS, b % NANOS, 9);
    ZoneOrder(Pad(a % NANOS, 9), Pad(b % NANOS, 9));
    OrdersAgreeExactlyWhen(a, b);
  }

  /** What every caller of the text order may rely on. */
  lemma BeforeWithinASecond(a: Instant, b: Instant)
    ensures SecondOf(a) < SecondOf(b) ==> Before(a, b)
    ensures Before(a, b) ==> SecondOf(a) <= SecondOf(b) && a < b + NANOS
    ensures !Before(b, a) ==> SecondOf(a) <= SecondOf(b) && a < b + NANOS
    ensures !Before(a, a) && !(Before(a, b) && Before(b, a))
  {
    TextTotal(Format(a), Format(b));
    TextTotal(Format(a), Format(a));
    if a < b {
      EarlierInstants(a, b);
    } else if b < a {
      EarlierInstants(b, a);
    }
  }

  lemma BeforeTransitive(a: Instant, b: Instant, c: Instant)
    requires Before(a, b) && !Before(c, b)
    ensures Before(a, c)
  {
    TextTransitive(Format(a), Format(b), Format(c));
  }

  /** The stored text determines the instant, so nothing is lost by storing text. */
  lemma FormatInjective(a: Instant, b: Instant)
    ensures Format(a) == Format(b) <==> a == b
  {
    if a < b {
      EarlierInstants(a, b);
    } else if b < a {
      EarlierInstants(b, a);
    }
  }
}
