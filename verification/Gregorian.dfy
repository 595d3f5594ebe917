/** The proleptic Gregorian calendar over day ordinals (day 1 is 0001-01-01, a Monday), for every integer year. */
module Gregorian {

  type Day = int

  predicate IsLeap(y: int) { y % 4 == 0 && (y % 100 != 0 || y % 400 == 0) }

  /** Leap years from year 1 up to and not including `y`, counted negatively when `y` comes before year 1. */
  function LeapYearsBefore(y: int): int {
    |set z: int | 1 <= z < y && IsLeap(z)| - |set z: int | y <= z < 1 && IsLeap(z)|
  }

  lemma LeapYearsStep(y: int)
    ensures LeapYearsBefore(y + 1) == LeapYearsBefore(y) + if IsLeap(y) then 1 else 0
  {
    var here := if IsLeap(y) then {y} else {};
    if y >= 1 {
      assert (set z: int | 1 <= z < y + 1 && IsLeap(z)) == (set z: int | 1 <= z < y && IsLeap(z)) + here;
      assert (set z: int | y + 1 <= z < 1 && IsLeap(z)) == {};
      assert (set z: int | y <= z < 1 && IsLeap(z)) == {};
    } else {
      assert (set z: int | y <= z < 1 && IsLeap(z)) == (set z: int | y + 1 <= z < 1 && IsLeap(z)) + here;
      assert (set z: int | 1 <= z < y + 1 && IsLeap(z)) == {};
      assert (set z: int | 1 <= z < y && IsLeap(z)) == {};
    }
  }

  /** The count agrees with the usual closed form, for every year. */
  lemma {:induction false} LeapYearsClosedForm(y: int)
    ensures LeapYearsBefore(y) == (y - 1) / 4 - (y - 1) / 100 + (y - 1) / 400
    decreases if y < 1 then 2 - y else y
  {
    if y > 1 {
      LeapYearsClosedForm(y - 1);
      LeapYearsStep(y - 1);
      LeapDivisions(y - 1);
    } else if y < 1 {
      LeapYearsClosedForm(y + 1);
      LeapYearsStep(y);
      LeapDivisions(y);
    } else {
      assert (set z: int | 1 <= z < 1 && IsLeap(z)) == {};
    }
  }

  lemma LeapDivisions(y: int)
    ensures y / 4 - y / 100 + y / 400 ==
            (y - 1) / 4 - (y - 1) / 100 + (y - 1) / 400 + if IsLeap(y) then 1 else 0
  {
    FourthYear(y);
    HundredthYear(y);
    FourHundredthYear(y);
    if y % 400 == 0 {
      FourHundredsAreHundreds(y);
    }
    if y % 100 == 0 {
      HundredsAreFours(y);
    }
  }

  lemma FourthYear(y: int)
    ensures y / 4 - (y - 1) / 4 == if y % 4 == 0 then 1 else 0
  {
  }

  lemma HundredthYear(y: int)
    ensures y / 100 - (y - 1) / 100 == if y % 100 == 0 then 1 else 0
  {
  }

  lemma FourHundredthYear(y: int)
    ensures y / 400 - (y - 1) / 400 == if y % 400 == 0 then 1 else 0
  {
  }

  lemma HundredsAreFours(y: int)
    requires y % 100 == 0
    ensures y % 4 == 0
  {
    assert y == 4 * (25 * (y / 100));
  }

  lemma FourHundredsAreHundreds(y: int)
    requires y % 400 == 0
    ensures y % 100 == 0
  {
    assert y == 100 * (4 * (y / 400));
  }

  /** The length of month `m` in a common year. */
  function CommonLength(m: int): (n: int)
    ensures 28 <= n <= 31
  {
    if m == 2 then 28 else if m == 4 || m == 6 || m == 9 || m == 11 then 30 else 31
  }

  function DaysInMonth(y: int, m: int): (n: int)
    ensures 28 <= n <= 31
  {
    if m == 2 && IsLeap(y) then 29 else CommonLength(m)
  }

  /** Days before month `m` in a common year. */
  function DaysBefore(m: int): (n: int)
    requires 1 <= m <= 13
    ensures n >= 0
    decreases m
  {
    if m == 1 then 0 else DaysBefore(m - 1) + CommonLength(m - 1)
  }

  lemma CommonYear()
    ensures DaysBefore(13) == 365
  {
    assert DaysBefore(3) == 59;
    assert DaysBefore(5) == 120;
    assert DaysBefore(7) == 181;
    assert DaysBefore(9) == 243;
    assert DaysBefore(11) == 304;
  }

  lemma {:induction false} MonthsLeft(m: int)
    requires 1 <= m <= 13
    ensures DaysBefore(m) + 28 * (13 - m) <= 365
    decreases 13 - m
  {
    CommonYear();
    if m < 13 {
      MonthsLeft(m + 1);
    }
  }

  /** The first day of month `m` of year `y`: a leap year counts once its February is past. */
  function FirstOf(y: int, m: int): Day
    requires 1 <= m <= 12
  {
    1 + 365 * (y - 1) + LeapYearsBefore(if m > 2 then y + 1 else y) + DaysBefore(m)
  }

  /** Consecutive firsts are a month's length apart. */
  lemma MonthAfter(y: int, m: int)
    requires 1 <= m <= 12
    ensures FirstOf(y, m) + DaysInMonth(y, m) == if m == 12 then FirstOf(y + 1, 1) else FirstOf(y, m + 1)
  {
    LeapYearsStep(y);
    CommonYear();
  }

  /** A year counted from any month is 365 or 366 days. */
  lemma TwelveMonths(y: int, m: int)
    requires 1 <= m <= 12
    ensures 365 <= FirstOf(y + 1, m) - FirstOf(y, m) <= 366
  {
    LeapYearsStep(if m > 2 then y + 1 else y);
  }

  /** The months of the Gregorian calendar. */
  lemma MonthLengths(y: int, m: int)
    requires 1 <= m <= 12 && m != 2
    ensures m in {1, 3, 5, 7, 8, 10, 12} ==> DaysInMonth(y, m) == 31
    ensures m in {4, 6, 9, 11} ==> DaysInMonth(y, m) == 30
  {
  }

  /** February has 29 days every fourth year, except in centuries not divisible by 400. */
  lemma FebruaryLength(y: int)
    ensures DaysInMonth(y, 2) == if y % 400 == 0 then 29 else if y % 100 == 0 then 28 else if y % 4 == 0 then 29 else 28
  {
    if y % 400 == 0 {
      FourHundredsAreHundreds(y);
    }
    if y % 100 == 0 {
      HundredsAreFours(y);
    }
  }

  /** Where the ordinals start, and a day known by its weekday: 1 January 1970 was a Thursday. */
  lemma KnownDays()
    ensures FirstOf(1, 1) == 1 && FirstOf(1970, 1) == 719163 && Weekday(719163) == 3
  {
    LeapYearsClosedForm(1);
    LeapYearsClosedForm(1970);
  }

  /** Weekdays follow one another. */
  lemma WeekdaysFollow(n: Day)
    ensures Weekday(n + 1) == if Weekday(n) == 6 then 0 else Weekday(n) + 1
  {
  }

  /** Every first of a month lies in its own year, at least a month before the next. */
  lemma MonthWithinYear(y: int, m: int)
    requires 1 <= m <= 12
    ensures FirstOf(y, 1) <= FirstOf(y, m) <= FirstOf(y + 1, 1) - 28
  {
    LeapYearsStep(y);
    MonthsLeft(m);
  }

  predicate InYear(n: Day, y: int) { FirstOf(y, 1) <= n < FirstOf(y + 1, 1) }

  predicate InMonth(n: Day, y: int, m: int) {
    1 <= m <= 12 && FirstOf(y, m) <= n < FirstOf(y, m) + DaysInMonth(y, m)
  }

  lemma {:induction false} FirstsIncrease(y: int, z: int)
    requires y <= z
    ensures FirstOf(z, 1) - FirstOf(y, 1) >= 365 * (z - y)
    decreases z - y
  {
    if y < z {
      TwelveMonths(z - 1, 1);
      FirstsIncrease(y, z - 1);
    }
  }

  lemma YearUnique(n: Day, y: int, z: int)
    requires InYear(n, y) && InYear(n, z)
    ensures y == z
  {
    if y < z {
      FirstsIncrease(y + 1, z);
    } else if z < y {
      FirstsIncrease(z + 1, y);
    }
  }

  /** Walking from year `y` towards day `n` reaches its year. */
  lemma {:induction false} YearExists(n: Day, y: int) returns (r: int)
    ensures InYear(n, r)
    decreases n < FirstOf(y, 1), if n < FirstOf(y, 1) then FirstOf(y, 1) - n else n - FirstOf(y, 1)
  {
    TwelveMonths(y - 1, 1);
    TwelveMonths(y, 1);
    if n < FirstOf(y, 1) {
      r := YearExists(n, y - 1);
    } else if n >= FirstOf(y + 1, 1) {
      r := YearExists(n, y + 1);
    } else {
      r := y;
    }
  }

  /** A day's year is no further from year 1 than the day is from day 1. */
  lemma YearWithin(n: Day, y: int)
    requires InYear(n, y)
    ensures (if n < 0 then n else -n) - 1 <= y <= (if n < 0 then -n else n) + 1
  {
    assert (set z: int | 1 <= z < 1 && IsLeap(z)) == {};
    assert FirstOf(1, 1) == 1;
    if y >= 1 {
      FirstsIncrease(1, y);
    } else {
      FirstsIncrease(y + 1, 1);
    }
  }

  /** The year holding day `n`. */
  function YearOf(n: Day): (r: int)
    ensures InYear(n, r)
  {
    var reach := if n < 0 then 1 - n else n + 1;
    assert exists y :: -reach <= y <= reach && InYear(n, y) by {
      var y := YearExists(n, 1);
      YearWithin(n, y);
    }
    assert forall y, z :: InYear(n, y) && InYear(n, z) ==> y == z by {
      forall y, z | InYear(n, y) && InYear(n, z) ensures y == z { YearUnique(n, y, z); }
    }
    var y :| -reach <= y <= reach && InYear(n, y);
    y
  }

  lemma {:induction false} MonthExists(n: Day, y: int, m: int) returns (r: int)
    requires 1 <= m <= 12 && FirstOf(y, 1) <= n < FirstOf(y, m) + DaysInMonth(y, m)
    ensures InMonth(n, y, r)
    decreases m
  {
    if FirstOf(y, m) <= n {
      r := m;
    } else {
      MonthAfter(y, m - 1);
      r := MonthExists(n, y, m - 1);
    }
  }

  lemma {:induction false} MonthsOrdered(y: int, m: int, k: int)
    requires 1 <= m < k <= 12
    ensures FirstOf(y, m) + DaysInMonth(y, m) <= FirstOf(y, k)
    decreases k - m
  {
    MonthAfter(y, m);
    if m + 1 < k {
      MonthsOrdered(y, m + 1, k);
    }
  }

  lemma MonthUnique(n: Day, y: int, m: int, k: int)
    requires InMonth(n, y, m) && InMonth(n, y, k)
    ensures m == k
  {
    if m < k {
      MonthsOrdered(y, m, k);
    } else if k < m {
      MonthsOrdered(y, k, m);
    }
  }

  /** The month of the year holding day `n`. */
  function MonthOf(n: Day): (r: int)
    ensures InMonth(n, YearOf(n), r)
  {
    var y := YearOf(n);
    assert exists m :: 1 <= m <= 12 && InMonth(n, y, m) by {
      MonthAfter(y, 12);
      var m := MonthExists(n, y, 12);
    }
    assert forall m, k :: InMonth(n, y, m) && InMonth(n, y, k) ==> m == k by {
      forall m, k | InMonth(n, y, m) && InMonth(n, y, k) ensures m == k { MonthUnique(n, y, m, k); }
    }
    var m :| 1 <= m <= 12 && InMonth(n, y, m);
    m
  }

  /** Monday is 0. */
  function Weekday(n: Day): (w: int)
    ensures 0 <= w < 7
  {
    (n + 6) % 7
  }
}
