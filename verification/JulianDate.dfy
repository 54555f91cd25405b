/** Julian dates (backend/src/orbit/propagator.py, _datetime_to_jd), in exact
    arithmetic. */
module JulianDate {

  predicate Leap(y: int) {
    y % 4 == 0 && (y % 100 != 0 || y % 400 == 0)
  }

  function MonthLength(y: int, m: int): int
    requires 1 <= m <= 12
  {
    if m == 2 then (if Leap(y) then 29 else 28)
    else if m in {4, 6, 9, 11} then 30
    else 31
  }

  datatype Date = Date(y: int, m: int, d: int) {
    predicate Valid() {
      y >= 1 && 1 <= m <= 12 && 1 <= d <= MonthLength(y, m)
    }

    predicate Before(that: Date) {
      y < that.y || (y == that.y && (m < that.m || (m == that.m && d < that.d)))
    }

    /** The next calendar day. */
    function Next(): (n: Date)
      requires Valid()
      ensures n.Valid() && Before(n)
    {
      if d < MonthLength(y, m) then Date(y, m, d + 1)
      else if m < 12 then Date(y, m + 1, 1)
      else Date(y + 1, 1, 1)
    }
  }

  /** int(x / n) for a non-negative x */
  function Div(x: int, n: int): int
    requires x >= 0 && n > 0
  {
    x / n
  }

  /** The integer part of the code's sum: the Julian date at midnight plus 1524.5. */
  function Count(t: Date): int
    requires t.Valid()
  {
    var y := if t.m <= 2 then t.y - 1 else t.y;
    var m := if t.m <= 2 then t.m + 12 else t.m;
    var a := Div(y, 100);
    var b := 2 - a + Div(a, 4);
    Div(1461 * (y + 4716), 4) + Div(306001 * (m + 1), 10000) + t.d + b
  }

  /** _datetime_to_jd, `hours` being the time of day. */
  function JulianDay(t: Date, hours: real): real
    requires t.Valid() && 0.0 <= hours < 24.0
  {
    Count(t) as real + hours / 24.0 - 1524.5
  }

  // ---------------------------------------------------------------------

  /** int(30.6001 * (m + 1)) in floats: however the product is rounded, as long
      as it is less than 1/10000 off, rounding it down gives the exact value.
      (The other product, of 365.25, is exact in binary.) */
  lemma FloatsRoundAlike(m: int, product: real)
    requires 3 <= m <= 14
    requires -0.0001 < product - 30.6001 * (m + 1) as real < 0.0001
    ensures product.Floor == Div(306001 * (m + 1), 10000)
  {
    var x := 306001 * (m + 1);
    MonthProductsAreClear(m);
    assert 30.6001 * (m + 1) as real == x as real / 10000.0;
    assert x == 10000 * (x / 10000) + x % 10000;
    assert x as real / 10000.0 == (x / 10000) as real + (x % 10000) as real / 10000.0;
  }

  lemma MonthProductsAreClear(m: int)
    requires 3 <= m <= 14
    ensures 1 <= 306001 * (m + 1) % 10000 <= 9999
  {
  }

  /** Days before the first of a month, in a year that starts in March. */
  lemma MonthStep(y: int, m: int)
    requires 3 <= m <= 13 && y >= 0
    ensures Div(306001 * (m + 2), 10000) - Div(306001 * (m + 1), 10000) == MonthLength(y, if m <= 12 then m else m - 12)
  {
  }

  /** From one March to the next: 365 days, plus the leap day of the February between. */
  lemma YearStep(y: int)
    requires y >= 0
    ensures var before := Div(1461 * (y + 4716), 4) - Div(y, 100) + Div(Div(y, 100), 4);
            var after := Div(1461 * (y + 1 + 4716), 4) - Div(y + 1, 100) + Div(Div(y + 1, 100), 4);
            after - before == 365 + if Leap(y + 1) then 1 else 0
  {
    FourYears(y + 1);
    Centuries(y + 1);
    FourCenturies(Div(y, 100), Div(y + 1, 100));
    if (y + 1) % 100 == 0 { LeapCenturies(y + 1); }
  }

  lemma FourYears(y: int)
    requires y >= 1
    ensures Div(1461 * (y + 4716), 4) - Div(1461 * (y - 1 + 4716), 4) == 365 + if y % 4 == 0 then 1 else 0
  {
    var q, r := y / 4, y % 4;
    assert y == 4 * q + r;
    assert 1461 * (y + 4716) == 4 * (1461 * (q + 1179)) + 1461 * r;
  }

  lemma Centuries(y: int)
    requires y >= 1
    ensures Div(y, 100) - Div(y - 1, 100) == if y % 100 == 0 then 1 else 0
  {
  }

  lemma FourCenturies(c: int, e: int)
    requires 0 <= c <= e <= c + 1
    ensures Div(e, 4) - Div(c, 4) == if e > c && e % 4 == 0 then 1 else 0
  {
  }

  lemma LeapCenturies(y: int)
    requires y >= 1 && y % 100 == 0
    ensures (y / 100) % 4 == 0 <==> y % 400 == 0
  {
    var c := y / 100;
    assert y == 100 * c;
    assert c == 4 * (c / 4) + c % 4;
  }

  /** Across the end of a month other than February. */
  lemma MonthEndCounts(t: Date)
    requires t.Valid() && t.d == MonthLength(t.y, t.m) && t.m != 2
    ensures Count(t.Next()) == Count(t) + 1
  {
    if t.m == 1 { MonthStep(t.y - 1, 13); } else { MonthStep(t.y, t.m); }
  }

  /** Across the end of February. */
  lemma FebruaryCounts(t: Date)
    requires t.Valid() && t.d == MonthLength(t.y, t.m) && t.m == 2
    ensures Count(t.Next()) == Count(t) + 1
  {
    YearStep(t.y - 1);
  }

  /** The next calendar day counts exactly one more. */
  lemma {:induction false} NextDayIsOneMore(t: Date)
    requires t.Valid()
    ensures Count(t.Next()) == Count(t) + 1
  {
    hide Div;
    if t.d == MonthLength(t.y, t.m) {
      if t.m == 2 { FebruaryCounts(t); } else { MonthEndCounts(t); }
    }
  }

  /** The calendar n days later. */
  function Later(t: Date, n: nat): (u: Date)
    requires t.Valid()
    ensures u.Valid()
  {
    if n == 0 then t else Later(t, n - 1).Next()
  }

  /** The count advances by exactly the days that pass. */
  lemma {:induction false} DaysAreCounted(t: Date, n: nat)
    requires t.Valid()
    ensures Count(Later(t, n)) == Count(t) + n
  {
    hide Count;
    if n > 0 {
      DaysAreCounted(t, n - 1);
      NextDayIsOneMore(Later(t, n - 1));
    }
  }

  /** Together with this instant, which fixes the scale, that determines every date. */
  lemma StandardEpoch()
    ensures JulianDay(Date(2000, 1, 1), 12.0) == 2451545.0
  {
  }

  /** A bound on the days from t to u, for induction. */
  function Distance(t: Date, u: Date): int {
    (u.y - t.y) * 400 + (u.m - t.m) * 32 + (u.d - t.d)
  }

  /** Every later date is reached day by day. */
  lemma {:induction false} LaterDatesAreReached(t: Date, u: Date) returns (n: nat)
    requires t.Valid() && u.Valid() && (t == u || t.Before(u))
    ensures u == Later(t, n) && (t.Before(u) ==> n > 0)
    decreases Distance(t, u)
  {
    if t == u {
      n := 0;
    } else {
      var k := LaterDatesAreReached(t.Next(), u);
      LaterShift(t, k);
      n := k + 1;
    }
  }

  lemma {:induction false} LaterShift(t: Date, n: nat)
    requires t.Valid()
    ensures Later(t.Next(), n) == Later(t, n + 1)
  {
    if n > 0 { LaterShift(t, n - 1); }
  }

  /** Later instants have greater Julian dates; different ones have different dates. */
  lemma JulianDaysAreOrdered(t: Date, hours: real, u: Date, hours': real)
    requires t.Valid() && u.Valid() && 0.0 <= hours < 24.0 && 0.0 <= hours' < 24.0
    requires t.Before(u) || (t == u && hours < hours')
    ensures JulianDay(t, hours) < JulianDay(u, hours')
  {
    var n := LaterDatesAreReached(t, u);
    DaysAreCounted(t, n);
  }

  lemma {:induction false} JulianDaysAreUnique(t: Date, hours: real, u: Date, hours': real)
    requires t.Valid() && u.Valid() && 0.0 <= hours < 24.0 && 0.0 <= hours' < 24.0
    requires JulianDay(t, hours) == JulianDay(u, hours')
    ensures t == u && hours == hours'
  {
    if t.Before(u) || (t == u && hours < hours') {
      JulianDaysAreOrdered(t, hours, u, hours');
    } else if u.Before(t) || (t == u && hours' < hours) {
      JulianDaysAreOrdered(u, hours', t, hours);
    }
  }
}
