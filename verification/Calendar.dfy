/**
 Calendar arithmetic: `days_from_civil` (src/explore/timeline.rs) against counting days one at a time by the
 Gregorian rule, and `epoch_to_ymdhms` (src/types/handlers/core.rs) as its inverse.
 */
module Calendar {

  datatype Date = Date(year: int, month: int, day: int)

  const EPOCH := Date(1970, 1, 1)

  // ---- the Gregorian rule ----

  predicate Leap(y: int) {
    y % 4 == 0 && (y % 100 != 0 || y % 400 == 0)
  }

  function MonthLength(y: int, m: int): int {
    if m == 2 then (if Leap(y) then 29 else 28)
    else if m == 4 || m == 6 || m == 9 || m == 11 then 30
    else 31
  }

  predicate Valid(d: Date) {
    1 <= d.month <= 12 && 1 <= d.day <= MonthLength(d.year, d.month)
  }

  function Next(d: Date): (r: Date)
    requires Valid(d)
    ensures Valid(r)
  {
    if d.day < MonthLength(d.year, d.month) then Date(d.year, d.month, d.day + 1)
    else if d.month < 12 then Date(d.year, d.month + 1, 1)
    else Date(d.year + 1, 1, 1)
  }

  function Previous(d: Date): (r: Date)
    requires Valid(d)
    ensures Valid(r) && Next(r) == d
  {
    if d.day > 1 then Date(d.year, d.month, d.day - 1)
    else if d.month > 1 then Date(d.year, d.month - 1, MonthLength(d.year, d.month - 1))
    else Date(d.year - 1, 12, 31)
  }

  /** The date `n` days after 1970-01-01, counted day by day; before it for negative `n`. */
  function Counted(n: int): (r: Date)
    ensures Valid(r)
    decreases if n < 0 then -n else n
  {
    if n == 0 then EPOCH else if n > 0 then Next(Counted(n - 1)) else Previous(Counted(n + 1))
  }

  // ---- the formula ----

  function DaysFromCivil(y: int, m: int, d: int): int {
    var y' := if m <= 2 then y - 1 else y;
    var era := y' / 400;
    var yoe := y' - era * 400;
    var mp := (m + 9) % 12;
    var doy := (153 * mp + 2) / 5 + d - 1;
    var doe := yoe * 365 + yoe / 4 - yoe / 100 + doy;
    era * 146097 + doe - 719468
  }

  function Days(d: Date): int {
    DaysFromCivil(d.year, d.month, d.day)
  }

  /** Days before 1 March of year `y`. */
  function YearStart(y: int): int {
    365 * y + y / 4 - y / 100 + y / 400
  }

  function MonthStart(m: int): int {
    (153 * ((m + 9) % 12) + 2) / 5
  }

  lemma Split(y: int, m: int, d: int)
    ensures DaysFromCivil(y, m, d) == YearStart(if m <= 2 then y - 1 else y) + MonthStart(m) + d - 1 - 719468
  {
    var y' := if m <= 2 then y - 1 else y;
    EraOut(y');
  }

  lemma EraOut(y: int)
    ensures var era := y / 400; var yoe := y - era * 400;
            era * 146097 + yoe * 365 + yoe / 4 - yoe / 100 == YearStart(y)
  {
    var era := y / 400;
    var yoe := y - era * 400;
    assert y / 4 == 100 * era + yoe / 4;
    assert y / 100 == 4 * era + yoe / 100;
  }

  lemma YearLength(y: int)
    ensures YearStart(y) - YearStart(y - 1) == if Leap(y) then 366 else 365
  {
    Fourths(y);
    Hundredths(y);
    FourHundredths(y);
  }

  lemma Fourths(y: int)
    ensures y / 4 - (y - 1) / 4 == if y % 4 == 0 then 1 else 0
  {
  }

  lemma Hundredths(y: int)
    ensures y / 100 - (y - 1) / 100 == if y % 100 == 0 then 1 else 0
    ensures y % 100 == 0 ==> y % 4 == 0
  {
    assert y == 100 * (y / 100) + y % 100;
    assert 100 * (y / 100) == 4 * (25 * (y / 100));
  }

  lemma FourHundredths(y: int)
    ensures y / 400 - (y - 1) / 400 == if y % 400 == 0 then 1 else 0
    ensures y % 400 == 0 ==> y % 100 == 0
  {
    assert y == 400 * (y / 400) + y % 400;
    assert 400 * (y / 400) == 100 * (4 * (y / 400));
  }

  /** The formula steps by one from each day to the next. */
  lemma DaysStep(d: Date)
    requires Valid(d)
    ensures Days(Next(d)) == Days(d) + 1
  {
    hide YearStart, DaysFromCivil, Leap;
    var y, m, n := d.year, d.month, Next(d);
    Split(y, m, d.day);
    Split(n.year, n.month, n.day);
    if d.day == MonthLength(y, m) {
      if m == 2 {
        YearLength(y);
        assert MonthStart(2) == 337 && MonthStart(3) == 0;
      } else if m < 12 {
      } else {
        assert MonthStart(12) == 275 && MonthStart(1) == 306;
      }
    }
  }

  /** The formula counts days. */
  lemma {:induction false} DaysCount(n: int)
    ensures Days(Counted(n)) == n
    decreases if n < 0 then -n else n
  {
    hide DaysFromCivil;
    if n == 0 {
      EpochIsZero();
    } else if n > 0 {
      DaysCount(n - 1);
      DaysStep(Counted(n - 1));
    } else {
      DaysCount(n + 1);
      DaysStep(Previous(Counted(n + 1)));
    }
  }

  lemma EpochIsZero()
    ensures Days(EPOCH) == 0
  {
  }

  // ---- order ----

  predicate Earlier(a: Date, b: Date) {
    a.year < b.year || (a.year == b.year && (a.month < b.month || (a.month == b.month && a.day < b.day)))
  }

  lemma CountedNext(n: int)
    ensures Counted(n + 1) == Next(Counted(n))
  {
  }

  lemma {:induction false} CountedGrows(m: int, n: int)
    requires m < n
    ensures Earlier(Counted(m), Counted(n))
    decreases n - m
  {
    CountedNext(n - 1);
    hide Counted;
    if m < n - 1 {
      CountedGrows(m, n - 1);
    }
  }

  function Rank(d: Date): int {
    d.year * 372 + d.month * 31 + d.day
  }

  /** Every valid date is counted, at the number the formula gives it. */
  lemma {:induction false} EveryDateCounted(d: Date)
    requires Valid(d)
    ensures Counted(Days(d)) == d
    decreases if Rank(d) < Rank(EPOCH) then Rank(EPOCH) - Rank(d) else Rank(d) - Rank(EPOCH)
  {
    hide DaysFromCivil, Counted, Leap;
    if Rank(d) == Rank(EPOCH) {
      assert d == EPOCH;
      EpochIsZero();
      CountedAtZero();
    } else if Rank(d) > Rank(EPOCH) {
      var p := Previous(d);
      EveryDateCounted(p);
      DaysStep(p);
      CountedNext(Days(p));
    } else {
      var n := Next(d);
      EveryDateCounted(n);
      DaysStep(d);
      CountedNext(Days(d));
    }
  }

  lemma CountedAtZero()
    ensures Counted(0) == EPOCH
  {
  }

  /** Strictly increasing over valid dates, and with `DaysCount` onto the integers. */
  lemma DaysOrder(a: Date, b: Date)
    requires Valid(a) && Valid(b)
    ensures Days(a) < Days(b) <==> Earlier(a, b)
    ensures Days(a) == Days(b) <==> a == b
  {
    hide DaysFromCivil, Counted;
    EveryDateCounted(a);
    EveryDateCounted(b);
    if Days(a) < Days(b) {
      CountedGrows(Days(a), Days(b));
    } else if Days(b) < Days(a) {
      CountedGrows(Days(b), Days(a));
    }
  }

  // ---- the inverse ----

  /** The year within its era a day of the era falls in. */
  function EraYear(doe: int): int {
    (doe - doe / 1460 + doe / 36524 - doe / 146096) / 365
  }

  /** The date part of `epoch_to_ymdhms`. */
  function CivilFromDays(days: int): Date {
    var z := days + 719468;
    var era := z / 146097;
    var doe := z % 146097;
    var yoe := EraYear(doe);
    var y := yoe + era * 400;
    var doy := doe - (365 * yoe + yoe / 4 - yoe / 100);
    var mp := (5 * doy + 2) / 153;
    var d := doy - (153 * mp + 2) / 5 + 1;
    var m := if mp < 10 then mp + 3 else mp - 9;
    Date(y + (if m <= 2 then 1 else 0), m, d)
  }

  /** A day of a 400-year era: `a` whole years, then day `b` of a year that starts in March. */
  predicate InEra(a: int, b: int) {
    0 <= a < 400 && 0 <= b <= 365 && (b == 365 ==> a % 4 == 3 && (a % 100 != 99 || a == 399))
  }

  lemma YearOfEra(a: int, b: int)
    requires InEra(a, b)
    ensures var doe := 365 * a + a / 4 - a / 100 + b;
            0 <= doe < 146097 && EraYear(doe) == a
  {
    hide EraYear;
    var c, q, r := a / 100, a % 100 / 4, a % 4;
    YearOfCycle(c, q, r, b);
  }

  lemma YearOfCycle(c: int, q: int, r: int, b: int)
    requires 0 <= c < 4 && 0 <= q < 25 && 0 <= r < 4 && 0 <= b <= 365
    requires b == 365 ==> r == 3 && (q < 24 || c == 3)
    ensures var doe := 36524 * c + 1461 * q + 365 * r + b;
            0 <= doe < 146097 && EraYear(doe) == 100 * c + 4 * q + r
  {
    var doe := 36524 * c + 1461 * q + 365 * r + b;
    var last := c == 3 && q == 24 && r == 3 && b == 365;
    var e := if 24 * c + q + 365 * r + b >= 1460 then 1 else 0;
    assert doe / 1460 == 25 * c + q + e;
    assert doe / 36524 == if last then 4 else c;
    assert doe / 146096 == if last then 1 else 0;
    assert doe - doe / 1460 + doe / 36524 - doe / 146096 == 365 * (100 * c + 4 * q + r) + (b - e);
    assert 0 <= b - e < 365;
  }

  lemma MonthOfYear(m: int, d: int, doy: int)
    requires 1 <= m <= 12 && 1 <= d <= (if m == 2 then 29 else MonthLength(1, m)) && doy == MonthStart(m) + d - 1
    ensures var mp := (5 * doy + 2) / 153;
            mp == (m + 9) % 12 && doy - (153 * mp + 2) / 5 + 1 == d && (if mp < 10 then mp + 3 else mp - 9) == m
    ensures 0 <= doy <= 365 && (doy == 365 <==> m == 2 && d == 29)
  {
  }

  /** Converting a valid date to days and back gives the date. */
  lemma CivilInverse(d: Date)
    requires Valid(d)
    ensures CivilFromDays(Days(d)) == d
  {
    hide Leap, MonthStart, DaysFromCivil, CivilFromDays, YearStart, EraYear;
    var y' := if d.month <= 2 then d.year - 1 else d.year;
    var era, b := y' / 400, MonthStart(d.month) + d.day - 1;
    var a := y' - era * 400;
    MonthOfYear(d.month, d.day, b);
    LeapInEra(y', a);
    YearOfEra(a, b);
    Split(d.year, d.month, d.day);
    EraOut(y');
    FromEra(Days(d), era, a, b, d.month, d.day);
  }

  lemma FromEra(days: int, era: int, a: int, b: int, m: int, d: int)
    requires days + 719468 == era * 146097 + (365 * a + a / 4 - a / 100 + b)
    requires var doe := 365 * a + a / 4 - a / 100 + b;
             0 <= doe < 146097 && EraYear(doe) == a
    requires var mp := (5 * b + 2) / 153;
             b - (153 * mp + 2) / 5 + 1 == d && (if mp < 10 then mp + 3 else mp - 9) == m
    ensures CivilFromDays(days) == Date(a + era * 400 + (if m <= 2 then 1 else 0), m, d)
  {
    hide EraYear;
    var doe := 365 * a + a / 4 - a / 100 + b;
    EraQuotient(days + 719468, era, doe);
  }

  lemma EraQuotient(z: int, era: int, doe: int)
    requires z == era * 146097 + doe && 0 <= doe < 146097
    ensures z / 146097 == era && z % 146097 == doe
  {
  }

  lemma LeapInEra(y: int, a: int)
    requires a == y - y / 400 * 400
    ensures 0 <= a < 400 && (Leap(y + 1) ==> a % 4 == 3 && (a % 100 != 99 || a == 399))
  {
    var e, n := y / 400, a + 1;
    assert y + 1 == 400 * e + n;
    assert (400 * e + n) / 4 == 100 * e + n / 4;
    assert (400 * e + n) / 100 == 4 * e + n / 100;
    assert (y + 1) % 4 == n % 4 && (y + 1) % 100 == n % 100;
    assert n < 400 ==> (y + 1) / 400 == e && (y + 1) % 400 == n;
  }

  /** The conversion from days is the counting itself. */
  lemma CivilCounts(n: int)
    ensures CivilFromDays(n) == Counted(n)
  {
    hide CivilFromDays, Counted, DaysFromCivil;
    DaysCount(n);
    CivilInverse(Counted(n));
  }
}
