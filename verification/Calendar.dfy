/** The calendar date of a day number, and the ordinary calendar it is held against. */
module Calendar {

  datatype Date = Date(year: int, month: int, day: int)

  // ---- The proleptic Gregorian calendar ------------------------------------------------

  predicate IsLeap(y: int) {
    y % 4 == 0 && (y % 100 != 0 || y % 400 == 0)
  }

  function MonthLength(y: int, m: int): int
    requires 1 <= m <= 12
  {
    if m == 2 then (if IsLeap(y) then 29 else 28)
    else if m in {4, 6, 9, 11} then 30
    else 31
  }

  predicate Valid(d: Date) {
    1 <= d.month <= 12 && 1 <= d.day <= MonthLength(d.year, d.month)
  }

  /** The day after. */
  function Tomorrow(d: Date): Date
    requires Valid(d)
  {
    if d.day < MonthLength(d.year, d.month) then Date(d.year, d.month, d.day + 1)
    else if d.month < 12 then Date(d.year, d.month + 1, 1)
    else Date(d.year + 1, 1, 1)
  }

  /** Leap years before `y`, counted from year 1 and backwards before it. */
  function LeapsBefore(y: int): int {
    (y - 1) / 4 - (y - 1) / 100 + (y - 1) / 400
  }

  function DaysBeforeYear(y: int): int {
    365 * (y - 1970) + LeapsBefore(y) - LeapsBefore(1970)
  }

  function DaysBeforeMonth(y: int, m: int): int
    requires 1 <= m <= 12
    decreases m
  {
    if m == 1 then 0 else DaysBeforeMonth(y, m - 1) + MonthLength(y, m - 1)
  }

  /** Days since 1970-01-01. */
  function DayNumber(d: Date): int
    requires Valid(d)
  {
    DaysBeforeYear(d.year) + DaysBeforeMonth(d.year, d.month) + d.day - 1
  }

  lemma LeapsAddUp(y: int)
    ensures LeapsBefore(y + 1) == LeapsBefore(y) + (if IsLeap(y) then 1 else 0)
  {
    OneMoreMultiple(y, 4);
    OneMoreMultiple(y, 100);
    OneMoreMultiple(y, 400);
    MultiplesNest(y);
  }

  lemma MultiplesNest(y: int)
    ensures y % 100 == 0 ==> y % 4 == 0
    ensures y % 400 == 0 ==> y % 100 == 0
  {
    if y % 100 == 0 {
      assert y == 4 * (25 * (y / 100));
      TimesFour(25 * (y / 100));
    }
    if y % 400 == 0 {
      assert y == 100 * (4 * (y / 400));
      TimesHundred(4 * (y / 400));
    }
  }

  lemma TimesFour(k: int)
    ensures (4 * k) % 4 == 0
  {
  }

  lemma TimesHundred(k: int)
    ensures (100 * k) % 100 == 0
  {
  }

  lemma OneMoreMultiple(y: int, n: int)
    requires n in {4, 100, 400}
    ensures y / n == (y - 1) / n + (if y % n == 0 then 1 else 0)
  {
  }

  /** The months before each one, in a common year and in a leap year. */
  function Cumulative(m: int): int
    requires 1 <= m <= 12
  {
    if m == 1 then 0 else if m == 2 then 31 else if m == 3 then 59 else if m == 4 then 90
    else if m == 5 then 120 else if m == 6 then 151 else if m == 7 then 181 else if m == 8 then 212
    else if m == 9 then 243 else if m == 10 then 273 else if m == 11 then 304 else 334
  }

  lemma {:induction false} MonthsAddUp(y: int, m: int)
    requires 1 <= m <= 12
    ensures DaysBeforeMonth(y, m) == Cumulative(m) + (if m > 2 && IsLeap(y) then 1 else 0)
    decreases m
  {
    if m > 1 {
      MonthsAddUp(y, m - 1);
    }
  }

  /** The day count moves by one when the date moves by one day, leap rules and all. */
  lemma TomorrowIsNext(d: Date)
    requires Valid(d)
    ensures Valid(Tomorrow(d)) && DayNumber(Tomorrow(d)) == DayNumber(d) + 1
  {
    hide DaysBeforeYear, DaysBeforeMonth, MonthLength;
    if d.day == MonthLength(d.year, d.month) {
      if d.month == 12 {
        NewYearsDay(d.year);
      } else {
        FirstOfMonth(d.year, d.month);
      }
    }
  }

  lemma NewYearsDay(y: int)
    ensures DaysBeforeYear(y + 1) + DaysBeforeMonth(y + 1, 1)
      == DaysBeforeYear(y) + DaysBeforeMonth(y, 12) + MonthLength(y, 12)
    ensures MonthLength(y + 1, 1) >= 1
  {
    hide LeapsBefore;
    MonthsAddUp(y, 12);
    LeapsAddUp(y);
  }

  lemma FirstOfMonth(y: int, m: int)
    requires 1 <= m < 12
    ensures DaysBeforeMonth(y, m + 1) == DaysBeforeMonth(y, m) + MonthLength(y, m) && MonthLength(y, m + 1) >= 1
  {
  }

  lemma {:induction false} YearsGrow(y: int, z: int)
    requires y <= z
    ensures DaysBeforeYear(y) + 365 * (z - y) <= DaysBeforeYear(z)
    decreases z - y
  {
    if y < z {
      LeapsAddUp(y);
      YearsGrow(y + 1, z);
    }
  }

  lemma WithinTheYear(d: Date)
    requires Valid(d)
    ensures DaysBeforeYear(d.year) <= DayNumber(d) < DaysBeforeYear(d.year + 1)
  {
    MonthsAddUp(d.year, d.month);
    LeapsAddUp(d.year);
  }

  lemma {:induction false} MonthsGrow(y: int, m: int, n: int)
    requires 1 <= m < n <= 12
    ensures DaysBeforeMonth(y, m) + MonthLength(y, m) <= DaysBeforeMonth(y, n)
    decreases n
  {
    if m < n - 1 {
      MonthsGrow(y, m, n - 1);
    }
  }

  /** No two dates have one day number. */
  lemma DayNumberInjective(d: Date, e: Date)
    requires Valid(d) && Valid(e) && DayNumber(d) == DayNumber(e)
    ensures d == e
  {
    hide DaysBeforeYear, DaysBeforeMonth;
    WithinTheYear(d);
    WithinTheYear(e);
    if d.year < e.year {
      YearsGrow(d.year + 1, e.year);
    } else if e.year < d.year {
      YearsGrow(e.year + 1, d.year);
    } else if d.month < e.month {
      MonthsGrow(d.year, d.month, e.month);
    } else if e.month < d.month {
      MonthsGrow(d.year, e.month, d.month);
    }
  }

  // ---- The algorithm ---------------------------------------------------------------------

  /** Integer division that drops the fraction, whatever the sign. */
  function Quotient(a: int, b: int): int
    requires b > 0
  {
    if a >= 0 then a / b else -((-a) / b)
  }

  /** The 400-year era a shifted day falls in, and the day within it. */
  function Era(z: int): int {
    Quotient(if z >= 0 then z else z - 146_096, 146_097)
  }

  function YearOfEra(doe: int): int {
    Quotient(doe - Quotient(doe, 1460) + Quotient(doe, 36_524) - Quotient(doe, 146_096), 365)
  }

  function CivilFromDays(days: int): Date {
    var z := days + 719_468;
    var era := Era(z);
    var doe := z - era * 146_097;
    var yoe := YearOfEra(doe);
    var y := yoe + era * 400;
    var doy := doe - (365 * yoe + Quotient(yoe, 4) - Quotient(yoe, 100));
    var mp := Quotient(5 * doy + 2, 153);
    var d := doy - Quotient(153 * mp + 2, 5) + 1;
    var m := if mp < 10 then mp + 3 else mp - 9;
    Date(if m <= 2 then y + 1 else y, m, d)
  }

  lemma EraIsFloor(z: int)
    ensures 0 <= z - Era(z) * 146_097 < 146_097
  {
  }

  /** Days before a March-based year of the era. */
  function MarchYear(yoe: int): int {
    365 * yoe + yoe / 4 - yoe / 100
  }

  /** Whether the February that ends a March-based year of the era has 29 days. */
  predicate EndsLeap(yoe: int) {
    IsLeap(yoe + 1)
  }

  /** A day of the era as a century, a four-year cycle in it and a day in that, with the year
      of the cycle. Only a cycle that ends in a leap year has a 1461st day. */
  lemma Cycles(doe: int) returns (c: int, f: int, t: int, k: int)
    requires 0 <= doe < 146_096
    ensures 0 <= c <= 3 && 0 <= f <= 24 && 0 <= t <= 1460 && 0 <= k <= 3
    ensures doe == 36_524 * c + 1461 * f + t
    ensures 365 * k <= t && t - 365 * k <= (if k == 3 then 365 else 364)
    ensures f == 24 ==> t < 1460
    ensures doe / 36_524 == c
  {
    c := doe / 36_524;
    var r := doe - 36_524 * c;
    f, t := r / 1461, r % 1461;
    k := if t < 365 then 0 else if t < 730 then 1 else if t < 1095 then 2 else 3;
  }

  lemma YearOfCycle(c: int, f: int, t: int, k: int)
    requires 0 <= c <= 3 && 0 <= f <= 24 && 0 <= t <= 1460 && 0 <= k <= 3
    requires 365 * k <= t && t - 365 * k <= (if k == 3 then 365 else 364)
    requires (36_524 * c + 1461 * f + t) / 36_524 == c
    ensures YearOfEra(36_524 * c + 1461 * f + t) == 100 * c + 4 * f + k
    ensures MarchYear(100 * c + 4 * f + k) == 36_524 * c + 1461 * f + 365 * k
  {
    var doe := 36_524 * c + 1461 * f + t;
    var spill := if 24 * c + f + t >= 1460 then 1 else 0;
    assert doe / 1460 == 25 * c + f + spill;
    assert doe / 146_096 == 0;
    assert doe - doe / 1460 + doe / 36_524 == 365 * (100 * c + 4 * f + k) + (t - spill - 365 * k);
    assert (100 * c + 4 * f + k) / 4 == 25 * c + f && (100 * c + 4 * f + k) / 100 == c;
  }

  lemma CycleEndsLeap(c: int, f: int)
    requires 0 <= c <= 3 && 0 <= f < 24
    ensures EndsLeap(100 * c + 4 * f + 3)
  {
    var y := 100 * c + 4 * f + 4;
    assert y == 4 * (25 * c + f + 1) && y % 4 == 0;
    assert y / 100 == c && y % 100 == 4 * f + 4;
  }

  lemma LastDayOfEra()
    ensures YearOfEra(146_096) == 399 && MarchYear(399) == 145_731 && EndsLeap(399)
  {
  }

  /** The year of the era a day falls in. */
  lemma YearOfEraIsRight(doe: int)
    requires 0 <= doe < 146_097
    ensures var yoe := YearOfEra(doe);
      && 0 <= yoe < 400
      && MarchYear(yoe) <= doe <= MarchYear(yoe) + 364 + (if EndsLeap(yoe) then 1 else 0)
  {
    hide YearOfEra, MarchYear, EndsLeap;
    if doe == 146_096 {
      LastDayOfEra();
    } else {
      var c, f, t, k := Cycles(doe);
      YearOfCycle(c, f, t, k);
      if t == 1460 {
        CycleEndsLeap(c, f);
      }
    }
  }

  /** The months of a March-based year: each one's first day is where the formula puts it. */
  lemma MonthOfYear(doy: int)
    requires 0 <= doy <= 365
    ensures var mp := (5 * doy + 2) / 153; var first := (153 * mp + 2) / 5;
      && 0 <= mp <= 11
      && first == (if mp < 10 then Cumulative(mp + 3) - 59 else Cumulative(mp - 9) + 306)
      && first <= doy
      && (mp < 11 ==> doy - first < MonthLength(2001, if mp < 10 then mp + 3 else mp - 9))
  {
    var mp := (5 * doy + 2) / 153;
    assert mp == 0 || mp == 1 || mp == 2 || mp == 3 || mp == 4 || mp == 5 || mp == 6 || mp == 7
        || mp == 8 || mp == 9 || mp == 10 || mp == 11;
  }

  /** Days before March of a year, as a multiple of eras and a year within one. */
  lemma BeforeMarch(era: int, yoe: int)
    requires 0 <= yoe < 400
    ensures DaysBeforeYear(era * 400 + yoe) + 59 + (if IsLeap(era * 400 + yoe) then 1 else 0)
         == era * 146_097 + MarchYear(yoe) - 719_468
  {
    var y := era * 400 + yoe;
    LeapsAddUp(y);
    assert y / 4 == era * 100 + yoe / 4;
    assert y / 100 == era * 4 + yoe / 100;
    assert y / 400 == era;
    assert LeapsBefore(y + 1) == era * 97 + yoe / 4 - yoe / 100;
  }

  lemma LeapsRepeat(era: int, yoe: int)
    ensures IsLeap(era * 400 + yoe) == IsLeap(yoe)
  {
    var y := era * 400 + yoe;
    assert y / 4 == era * 100 + yoe / 4 && y % 4 == y - 4 * (y / 4) && yoe % 4 == yoe - 4 * (yoe / 4);
    assert y / 100 == era * 4 + yoe / 100 && y % 100 == y - 100 * (y / 100) && yoe % 100 == yoe - 100 * (yoe / 100);
    assert y / 400 == era + yoe / 400 && y % 400 == y - 400 * (y / 400) && yoe % 400 == yoe - 400 * (yoe / 400);
  }

  /** The last step: a year, a day of it counted from March, and the date that is. */
  lemma DateOf(z: int, y: int, doy: int, mp: int)
    requires 0 <= doy <= 364 + (if IsLeap(y + 1) then 1 else 0)
    requires mp == (5 * doy + 2) / 153
    requires z == DaysBeforeYear(y) + 59 + (if IsLeap(y) then 1 else 0) + doy
    ensures
      var m := if mp < 10 then mp + 3 else mp - 9;
      var d := Date(if m <= 2 then y + 1 else y, m, doy - (153 * mp + 2) / 5 + 1);
      Valid(d) && DayNumber(d) == z
  {
    MonthOfYear(doy);
    LeapsAddUp(y);
    var m := if mp < 10 then mp + 3 else mp - 9;
    MonthsAddUp(if m <= 2 then y + 1 else y, m);
  }

  lemma SameLeap(era: int, yoe: int)
    ensures IsLeap(era * 400 + yoe + 1) == EndsLeap(yoe)
  {
    LeapsRepeat(era, yoe + 1);
  }

  /** The algorithm in terms of the year and day it goes through. */
  lemma InTermsOfMarch(z: int)
    ensures
      var s := z + 719_468;
      var yoe := YearOfEra(s - Era(s) * 146_097);
      var doy := s - Era(s) * 146_097 - MarchYear(yoe);
      var mp := (5 * doy + 2) / 153;
      var m := if mp < 10 then mp + 3 else mp - 9;
      var y := Era(s) * 400 + yoe;
      0 <= yoe && 0 <= doy ==>
        CivilFromDays(z) == Date(if m <= 2 then y + 1 else y, m, doy - (153 * mp + 2) / 5 + 1)
  {
    hide Era, YearOfEra;
  }

  /** Every day number has a date in the calendar, and the date's own count is that number. */
  lemma CivilIsADate(z: int)
    ensures Valid(CivilFromDays(z)) && DayNumber(CivilFromDays(z)) == z
  {
    InTermsOfMarch(z);
    EraIsFloor(z + 719_468);
    hide *;
    var era := Era(z + 719_468);
    var doe := z + 719_468 - era * 146_097;
    YearOfEraIsRight(doe);
    var yoe := YearOfEra(doe);
    var doy := doe - MarchYear(yoe);
    BeforeMarch(era, yoe);
    SameLeap(era, yoe);
    DateOf(z, era * 400 + yoe, doy, (5 * doy + 2) / 153);
  }

  // ---- Main results ------------------------------------------------------------------------

  /** A date is found from its own day number. */
  lemma CivilInverts(d: Date)
    requires Valid(d)
    ensures CivilFromDays(DayNumber(d)) == d
  {
    CivilIsADate(DayNumber(d));
    DayNumberInjective(CivilFromDays(DayNumber(d)), d);
  }

  /** The day after a day number is the day after in the calendar. */
  lemma CivilAdvances(z: int)
    ensures Valid(CivilFromDays(z)) && CivilFromDays(z + 1) == Tomorrow(CivilFromDays(z))
  {
    CivilIsADate(z);
    CivilIsADate(z + 1);
    TomorrowIsNext(CivilFromDays(z));
    DayNumberInjective(CivilFromDays(z + 1), Tomorrow(CivilFromDays(z)));
  }

  /** The count starts where it is said to. */
  lemma Epoch()
    ensures CivilFromDays(0) == Date(1970, 1, 1)
  {
    CivilInverts(Date(1970, 1, 1));
  }
}
