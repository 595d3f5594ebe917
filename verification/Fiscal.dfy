/** Fiscal-calendar period resolution: calendar-month and 4-4-5 calendars, and the inverse of the resolver. */
module Fiscal {
  import opened Prelude
  import opened Gregorian
  import opened PyText

  datatype CalendarRow =
    | CalendarMonth(startMonth: int)
    | Weeks445(startMonth: int, weekStart: int)
  {
    /** The checks on the fiscal_calendar table. */
    predicate Valid() {
      && 1 <= startMonth <= 12
      && (Weeks445? ==> 0 <= weekStart <= 6)
    }
  }

  type FiscalConfig = c: CalendarRow | c.Valid() witness CalendarMonth(1)

  // ---- Period keys

  /** The key text of period `p` of fiscal year `y`. */
  function PrintKey(y: int, p: int): string
    requires 1 <= p <= 12
  {
    PrintInt(y) + "-P" + [Digit(p / 10), Digit(p % 10)]
  }

  /** The position of the first "-P", or the length of the text when there is none. */
  function SeparatorAt(s: string): (i: nat)
    ensures i <= |s|
    ensures i < |s| ==> i + 1 < |s| && s[i] == '-' && s[i + 1] == 'P'
  {
    if |s| < 2 then |s|
    else if s[0] == '-' && s[1] == 'P' then 0
    else 1 + SeparatorAt(s[1..])
  }

  /** A key is two parts around one "-P", both integers, the second in 1..12. */
  function ParseKey(key: string): (r: Option<(int, int)>)
    ensures r.Some? ==> 1 <= r.value.1 <= 12
  {
    var i := SeparatorAt(key);
    if i == |key| then None
    else
      var yearText, periodText := key[..i], key[i + 2..];
      if SeparatorAt(periodText) != |periodText| then None
      else
        var y, p := ParseInt(yearText), ParseInt(periodText);
        if y.None? || p.None? || !(1 <= p.value <= 12) then None else Some((y.value, p.value))
  }

  lemma {:induction false} SeparatorAfter(front: string, back: string)
    requires 'P' !in front
    ensures SeparatorAt(front + "-P" + back) == |front|
  {
    if front != "" {
      var s := front + "-P" + back;
      assert |front| > 1 ==> s[1] == front[1];
      assert s[1..] == front[1..] + "-P" + back;
      SeparatorAfter(front[1..], back);
    }
  }

  /** Every printed key parses back to its year and period, for every year. */
  lemma ParseOfPrint(y: int, p: int)
    requires 1 <= p <= 12
    ensures ParseKey(PrintKey(y, p)) == Some((y, p))
  {
    var front, back := PrintInt(y), [Digit(p / 10), Digit(p % 10)];
    var key := PrintKey(y, p);
    assert key == front + "-P" + back;
    SeparatorAfter(front, back);
    assert key[..|front|] == front && key[|front| + 2..] == back;
    TwoDigits(p);
    ParseIntOfPrintInt(y);
  }

  lemma TwoDigits(p: int)
    requires 1 <= p <= 12
    ensures var text := [Digit(p / 10), Digit(p % 10)]; SeparatorAt(text) == |text| && ParseInt(text) == Some(p)
  {
    var text := [Digit(p / 10), Digit(p % 10)];
    assert SeparatorAt(text[1..]) == 1;
    assert Strip(text) == text;
    assert text[..1] == [Digit(p / 10)] && [Digit(p / 10)][..0] == "";
    assert ParseDigits(text[..1]) == Some(p / 10);
    assert ParseDigits(text) == Some(p);
  }

  /** The text has "-P" at position `i`. */
  predicate MarkAt(s: string, i: int) { 0 <= i < |s| - 1 && s[i] == '-' && s[i + 1] == 'P' }

  lemma {:induction false} SeparatorFirst(s: string)
    ensures forall i :: MarkAt(s, i) ==> SeparatorAt(s) <= i
    ensures SeparatorAt(s) < |s| ==> MarkAt(s, SeparatorAt(s))
  {
    if |s| >= 2 && !MarkAt(s, 0) {
      SeparatorFirst(s[1..]);
      forall i | MarkAt(s, i) ensures SeparatorAt(s) <= i {
        assert MarkAt(s[1..], i - 1);
      }
    }
  }

  /** A key parses exactly when it has one "-P" with an integer on each side, the second in 1 to 12. */
  lemma ParseKeyExact(key: string, y: int, p: int)
    ensures ParseKey(key) == Some((y, p)) <==>
      exists i :: MarkAt(key, i) && (forall j :: MarkAt(key, j) ==> j == i)
        && ParseInt(key[..i]) == Some(y) && ParseInt(key[i + 2..]) == Some(p) && 1 <= p <= 12
  {
    SeparatorFirst(key);
    var i := SeparatorAt(key);
    if i < |key| {
      var back := key[i + 2..];
      SeparatorFirst(back);
      forall j ensures MarkAt(back, j) <==> MarkAt(key, i + 2 + j) && j >= 0 { }
      assert SeparatorAt(back) == |back| <==> forall j :: MarkAt(key, j) ==> j == i by {
        if SeparatorAt(back) < |back| {
          assert MarkAt(key, i + 2 + SeparatorAt(back));
        }
        forall j | j > i ensures MarkAt(key, j) ==> MarkAt(back, j - i - 2) { }
      }
    }
  }

  /** How a key looks. */
  lemma KeySample()
    ensures PrintKey(2026, 7) == "2026-P07" && PrintKey(2026, 12) == "2026-P12"
  {
    assert Decimal(2026) == Decimal(202) + [Digit(6)] && Decimal(202) == Decimal(20) + [Digit(2)];
    assert Decimal(20) == Decimal(2) + [Digit(0)] && Decimal(2) == [Digit(2)];
  }

  /** The spelling `PrintKey` gives, as opposed to one that merely parses. */
  predicate Canonical(key: string) {
    var r := ParseKey(key);
    r.Some? && PrintKey(r.value.0, r.value.1) == key
  }

  // ---- Period boundaries

  /** Days from `first` forward to the wanted weekday: their difference modulo 7. */
  function DaysUntil(first: Day, weekday: int): (d: int)
    requires 0 <= weekday < 7
    ensures 0 <= d < 7 && Weekday(first + d) == weekday
  {
    var d := weekday - Weekday(first);
    if d < 0 then d + 7 else d
  }

  /** The first `weekStart` weekday on or after the 1st of the start month. */
  function FyAnchor(config: FiscalConfig, fiscalYear: int): (anchor: Day)
    requires config.Weeks445?
    ensures Weekday(anchor) == config.weekStart
    ensures 0 <= anchor - FirstOf(fiscalYear, config.startMonth) < 7
  {
    var first := FirstOf(fiscalYear, config.startMonth);
    first + DaysUntil(first, config.weekStart)
  }

  /** A 4-4-5 year has exactly 52 or 53 weeks. */
  lemma AnchorsApart(config: FiscalConfig, fiscalYear: int)
    requires config.Weeks445?
    ensures var gap := FyAnchor(config, fiscalYear + 1) - FyAnchor(config, fiscalYear); gap == 364 || gap == 371
  {
    TwelveMonths(fiscalYear, config.startMonth);
    WholeWeeks(FyAnchor(config, fiscalYear), FyAnchor(config, fiscalYear + 1));
  }

  lemma WholeWeeks(a: Day, b: Day)
    requires Weekday(a) == Weekday(b) && 359 <= b - a <= 372
    ensures b - a == 364 || b - a == 371
  {
    assert (b - a) % 7 == 0;
  }

  /** Weeks in period `p`: a 4-4-5 quarter, four times over. */
  function WeeksIn(p: int): int {
    if p == 3 || p == 6 || p == 9 || p == 12 then 5 else 4
  }

  /** Weeks of the year before period `p`. */
  function WeeksBefore(p: int): (w: int)
    requires 1 <= p <= 13
    ensures 4 * (p - 1) <= w
    decreases p
  {
    if p == 1 then 0 else WeeksBefore(p - 1) + WeeksIn(p - 1)
  }

  /** Whole years in a count of months, rounded down. */
  function WholeYears(months: int): int
    decreases if months < 0 then 12 - months else months
  {
    if months < 0 then WholeYears(months + 12) - 1
    else if months < 12 then 0
    else WholeYears(months - 12) + 1
  }

  lemma {:induction false} WholeYearsIsFloor(months: int)
    ensures WholeYears(months) == months / 12
    decreases if months < 0 then 12 - months else months
  {
    if months < 0 {
      WholeYearsIsFloor(months + 12);
    } else if months >= 12 {
      WholeYearsIsFloor(months - 12);
    }
  }

  /** The first of the month `months` after month `m` of year `y`. */
  function AddMonths(y: int, m: int, months: int): Day
    requires 1 <= m <= 12
  {
    var total := m - 1 + months;
    WholeYearsIsFloor(total);
    FirstOf(y + WholeYears(total), total - 12 * WholeYears(total) + 1)
  }

  /** Month `p` of the year starting in month `m` of calendar year `y`. */
  function MonthBounds(y: int, m: int, p: int): (Day, Day)
    requires 1 <= m <= 12
  {
    (AddMonths(y, m, p - 1), AddMonths(y, m, p) - 1)
  }

  /** Block `p` of the week year from `anchor`; the last block runs up to the next anchor. */
  function WeekBlock(anchor: Day, nextAnchor: Day, p: int): (Day, Day)
    requires 1 <= p <= 12
  {
    (anchor + 7 * WeeksBefore(p), if p == 12 then nextAnchor - 1 else anchor + 7 * WeeksBefore(p + 1) - 1)
  }

  /** Inclusive first and last day of period `p` of fiscal year `y`. */
  function PeriodBounds(config: FiscalConfig, y: int, p: int): (Day, Day)
    requires 1 <= p <= 12
  {
    match config
    case CalendarMonth(m) =>
      MonthBounds(y, m, p)
    case Weeks445(_, _) =>
      WeekBlock(FyAnchor(config, y), FyAnchor(config, y + 1), p)
  }

  function ResolvePeriod(config: FiscalConfig, key: string): Option<(Day, Day)> {
    var r := ParseKey(key);
    if r.None? then None else Some(PeriodBounds(config, r.value.0, r.value.1))
  }

  ghost predicate Holds(config: FiscalConfig, key: string, day: Day) {
    var r := ResolvePeriod(config, key);
    r.Some? && r.value.0 <= day <= r.value.1
  }

  // ---- Tiling

  /** The period after period `p` of year `y`. */
  function Next(y: int, p: int): (r: (int, int))
    requires 1 <= p <= 12
    ensures 1 <= r.1 <= 12
  {
    if p == 12 then (y + 1, 1) else (y, p + 1)
  }

  lemma WeekTotals()
    ensures WeeksBefore(13) == 52 && WeeksBefore(12) == 47
  {
    assert WeeksBefore(4) == 13;
    assert WeeksBefore(7) == 26;
    assert WeeksBefore(10) == 39;
    assert WeeksBefore(12) == 47;
  }

  /** Each period is non-empty and ends the day before the next one begins, across year ends too. */
  lemma PeriodsTile(config: FiscalConfig, y: int, p: int)
    requires 1 <= p <= 12
    ensures PeriodBounds(config, y, p).0 <= PeriodBounds(config, y, p).1
    ensures PeriodBounds(config, y, p).1 + 1 == PeriodBounds(config, Next(y, p).0, Next(y, p).1).0
  {
    if config.CalendarMonth? {
      MonthBoundsTile(y, config.startMonth, p);
    } else {
      AnchorsApart(config, y);
      WeekBlocksTile(FyAnchor(config, y), FyAnchor(config, y + 1), FyAnchor(config, y + 2), p);
    }
  }

  lemma YearAfter(y: int, m: int)
    requires 1 <= m <= 12
    ensures AddMonths(y, m, 12) == AddMonths(y + 1, m, 0)
  {
    AddMonthsCases(y, m, 12);
    AddMonthsCases(y + 1, m, 0);
  }

  lemma MonthBoundsTile(y: int, m: int, p: int)
    requires 1 <= m <= 12 && 1 <= p <= 12
    ensures MonthBounds(y, m, p).0 <= MonthBounds(y, m, p).1
    ensures MonthBounds(y, m, p).1 + 1 == MonthBounds(Next(y, p).0, m, Next(y, p).1).0
  {
    MonthStep(y, m, p - 1);
    MonthEnd(y, m, p);
  }

  lemma MonthEnd(y: int, m: int, p: int)
    requires 1 <= m <= 12 && 1 <= p <= 12
    ensures AddMonths(y, m, p) == AddMonths(Next(y, p).0, m, Next(y, p).1 - 1)
  {
    if p == 12 {
      YearAfter(y, m);
    }
  }

  lemma WeekBlocksTile(a: Day, b: Day, c: Day, p: int)
    requires 1 <= p <= 12 && b - a >= 364
    ensures WeekBlock(a, b, p).0 <= WeekBlock(a, b, p).1
    ensures WeekBlock(a, b, p).1 + 1 == if p == 12 then WeekBlock(b, c, 1).0 else WeekBlock(a, b, p + 1).0
  {
    WeekTotals();
  }

  lemma AddMonthsCases(y: int, m: int, months: int)
    requires 1 <= m <= 12 && 0 <= months <= 12
    ensures AddMonths(y, m, months) == if m + months <= 12 then FirstOf(y, m + months) else FirstOf(y + 1, m + months - 12)
  {
    assert WholeYears(m - 1 + months) == if m + months <= 12 then 0 else 1;
  }

  lemma MonthStep(y: int, m: int, months: int)
    requires 1 <= m <= 12 && 0 <= months < 12
    ensures AddMonths(y, m, months) < AddMonths(y, m, months + 1)
  {
    AddMonthsCases(y, m, months);
    AddMonthsCases(y, m, months + 1);
    if m + months <= 12 {
      MonthAfter(y, m + months);
    } else {
      MonthAfter(y + 1, m + months - 12);
    }
  }

  /** A calendar-month period is one whole month: the first starts in the start month of its year, and each runs from the
      first to the last day of its own month. */
  lemma MonthPeriodsExact(config: FiscalConfig, y: int, p: int)
    requires config.CalendarMonth? && 1 <= p <= 12
    ensures var months := config.startMonth + p - 1;
      var year, month := if months <= 12 then y else y + 1, if months <= 12 then months else months - 12;
      PeriodBounds(config, y, p) == (FirstOf(year, month), FirstOf(year, month) + DaysInMonth(year, month) - 1)
  {
    var months := config.startMonth + p - 1;
    WholeMonth(config.startMonth, y, p, if months <= 12 then y else y + 1, if months <= 12 then months else months - 12);
  }

  lemma WholeMonth(m: int, y: int, p: int, year: int, month: int)
    requires 1 <= m <= 12 && 1 <= p <= 12 && 1 <= month <= 12
    requires (year == y && month == m + p - 1) || (year == y + 1 && month == m + p - 13)
    ensures MonthBounds(y, m, p) == (FirstOf(year, month), FirstOf(year, month) + DaysInMonth(year, month) - 1)
  {
    AddMonthsCases(y, m, p - 1);
    AddMonthsCases(y, m, p);
    MonthAfter(year, month);
  }

  /** A 4-4-5 year starts at its anchor in periods of 28, 28 and 35 days, the last running up to the next anchor. */
  lemma WeekPeriodsExact(config: FiscalConfig, y: int, p: int)
    requires config.Weeks445? && 1 <= p <= 12
    ensures var b := PeriodBounds(config, y, p);
      && (p == 1 ==> b.0 == FyAnchor(config, y))
      && (p in {1, 2, 4, 5, 7, 8, 10, 11} ==> b.1 - b.0 + 1 == 28) && (p in {3, 6, 9} ==> b.1 - b.0 + 1 == 35)
      && (p == 12 ==> b.1 + 1 == FyAnchor(config, y + 1))
  {
    WeekBlockLength(FyAnchor(config, y), FyAnchor(config, y + 1), p);
  }

  lemma WeekBlockLength(anchor: Day, nextAnchor: Day, p: int)
    requires 1 <= p <= 12
    ensures var b := WeekBlock(anchor, nextAnchor, p);
      && (p == 1 ==> b.0 == anchor)
      && (p in {1, 2, 4, 5, 7, 8, 10, 11} ==> b.1 - b.0 + 1 == 28) && (p in {3, 6, 9} ==> b.1 - b.0 + 1 == 35)
      && (p == 12 ==> b.1 + 1 == nextAnchor)
  {
  }

  ghost predicate Abuts(b: (int, int) -> (Day, Day), y: int, p: int)
    requires 1 <= p <= 12
  {
    b(y, p).0 <= b(y, p).1 && b(y, p).1 + 1 == b(Next(y, p).0, Next(y, p).1).0
  }

  /** Bounds laid end to end over all years, whatever computes them. */
  ghost predicate Tiles(b: (int, int) -> (Day, Day)) {
    forall y, p :: 1 <= p <= 12 ==> Abuts(b, y, p)
  }

  /** In a tiling, an earlier period ends before a later one begins. */
  lemma {:induction false} TilesOrdered(b: (int, int) -> (Day, Day), y: int, p: int, z: int, q: int)
    requires Tiles(b)
    requires 1 <= p <= 12 && 1 <= q <= 12
    requires y < z || (y == z && p < q)
    ensures b(y, p).1 < b(z, q).0
    decreases z - y, if z == y then q - p else 12 - p
  {
    var n := Next(y, p);
    assert Abuts(b, y, p);
    if n != (z, q) {
      assert Abuts(b, n.0, n.1);
      TilesOrdered(b, n.0, n.1, z, q);
    }
  }

  lemma TilesUnique(b: (int, int) -> (Day, Day), y: int, p: int, z: int, q: int, day: Day)
    requires Tiles(b)
    requires 1 <= p <= 12 && 1 <= q <= 12
    requires b(y, p).0 <= day <= b(y, p).1 && b(z, q).0 <= day <= b(z, q).1
    ensures y == z && p == q
  {
    if y < z || (y == z && p < q) {
      TilesOrdered(b, y, p, z, q);
    } else if z < y || (y == z && q < p) {
      TilesOrdered(b, z, q, y, p);
    }
  }

  lemma {:induction false} TilesFind(b: (int, int) -> (Day, Day), y: int, p: int, day: Day) returns (q: int)
    requires Tiles(b) && 1 <= p <= 12
    requires b(y, 1).0 <= day <= b(y, p).1
    ensures 1 <= q <= p && b(y, q).0 <= day <= b(y, q).1
    decreases p
  {
    if b(y, p).0 <= day {
      q := p;
    } else {
      assert Abuts(b, y, p - 1);
      q := TilesFind(b, y, p - 1, day);
    }
  }

  ghost predicate InPeriod(b: (int, int) -> (Day, Day), y: int, p: int, day: Day) {
    1 <= p <= 12 && b(y, p).0 <= day <= b(y, p).1
  }

  /** A day from the start of year `y` up to the start of the next lies in one of the twelve periods of `y`. */
  lemma TilesCover(b: (int, int) -> (Day, Day), y: int, day: Day) returns (p: int)
    requires Tiles(b) && b(y, 1).0 <= day < b(y + 1, 1).0
    ensures InPeriod(b, y, p, day)
  {
    assert Abuts(b, y, 12);
    p := TilesFind(b, y, 12, day);
  }

  lemma TilesCoverNear(b: (int, int) -> (Day, Day), y: int, day: Day) returns (z: int, p: int)
    requires Tiles(b) && b(y - 1, 1).0 <= day < b(y + 1, 1).0
    ensures (z == y || z == y - 1) && InPeriod(b, z, p, day)
  {
    z := if b(y, 1).0 > day then y - 1 else y;
    p := TilesCover(b, z, day);
  }

  function BoundsOf(config: FiscalConfig): (int, int) -> (Day, Day) {
    (y, p) => if 1 <= p <= 12 then PeriodBounds(config, y, p) else (0, 0)
  }

  /** The periods of either calendar tile all days. */
  lemma PeriodsTileAll(config: FiscalConfig)
    ensures Tiles(BoundsOf(config))
  {
    var b := BoundsOf(config);
    forall y, p | 1 <= p <= 12 ensures Abuts(b, y, p) {
      PeriodsTile(config, y, p);
    }
  }

  /** Everything in an earlier period comes before everything in a later one. */
  lemma PeriodsOrdered(config: FiscalConfig, y: int, p: int, z: int, q: int)
    requires 1 <= p <= 12 && 1 <= q <= 12
    requires y < z || (y == z && p < q)
    ensures PeriodBounds(config, y, p).1 < PeriodBounds(config, z, q).0
  {
    PeriodsTileAll(config);
    TilesOrdered(BoundsOf(config), y, p, z, q);
  }

  /** The fiscal year's first day falls within the calendar year it is named for. */
  lemma YearStartBounds(config: FiscalConfig, y: int)
    ensures FirstOf(y, 1) <= PeriodBounds(config, y, 1).0 < FirstOf(y + 1, 1)
  {
    MonthWithinYear(y, config.startMonth);
    if config.CalendarMonth? {
      AddMonthsCases(y, config.startMonth, 0);
    }
  }

  /** Every day lies in some period, of its own calendar year's fiscal year or the one before. */
  lemma SomePeriodHolds(config: FiscalConfig, day: Day) returns (y: int, p: int)
    ensures 1 <= p <= 12 && (y == YearOf(day) || y == YearOf(day) - 1)
    ensures PeriodBounds(config, y, p).0 <= day <= PeriodBounds(config, y, p).1
  {
    YearStartBounds(config, YearOf(day) - 1);
    YearStartBounds(config, YearOf(day) + 1);
    PeriodsTileAll(config);
    y, p := TilesCoverNear(BoundsOf(config), YearOf(day), day);
  }

  lemma PeriodUnique(config: FiscalConfig, y: int, p: int, z: int, q: int, day: Day)
    requires 1 <= p <= 12 && 1 <= q <= 12
    requires PeriodBounds(config, y, p).0 <= day <= PeriodBounds(config, y, p).1
    requires PeriodBounds(config, z, q).0 <= day <= PeriodBounds(config, z, q).1
    ensures y == z && p == q
  {
    PeriodsTileAll(config);
    TilesUnique(BoundsOf(config), y, p, z, q, day);
  }

  /** Two canonical keys whose ranges share a day are the same key. */
  lemma KeyUnique(config: FiscalConfig, j: string, k: string, day: Day)
    requires Canonical(j) && Canonical(k)
    requires Holds(config, j, day) && Holds(config, k, day)
    ensures j == k
  {
    var (y, p) := ParseKey(j).value;
    var (z, q) := ParseKey(k).value;
    PeriodUnique(config, y, p, z, q, day);
  }

  lemma SomeKeyHolds(config: FiscalConfig, day: Day)
    ensures exists k :: Canonical(k) && Holds(config, k, day)
  {
    var y, p := SomePeriodHolds(config, day);
    ParseOfPrint(y, p);
    assert Canonical(PrintKey(y, p)) && Holds(config, PrintKey(y, p), day);
  }

  /** The canonical key whose range holds `day`. */
  ghost function KeyOf(config: FiscalConfig, day: Day): (k: string)
    ensures Canonical(k) && Holds(config, k, day)
  {
    SomeKeyHolds(config, day);
    var k :| Canonical(k) && Holds(config, k, day);
    k
  }

  /** A canonical key holds a day exactly when it is that day's key. */
  lemma HoldsExactlyItsKey(config: FiscalConfig, k: string, day: Day)
    requires Canonical(k)
    ensures Holds(config, k, day) <==> k == KeyOf(config, day)
  {
    if Holds(config, k, day) {
      KeyUnique(config, k, KeyOf(config, day), day);
    }
  }

  /** The period's key without the leading zero. */
  function ShortKey(y: int, p: int): string
    requires 1 <= p <= 9
  {
    PrintInt(y) + "-P" + [Digit(p)]
  }

  lemma ShortKeyParses(y: int, p: int)
    requires 1 <= p <= 9
    ensures ParseKey(ShortKey(y, p)) == Some((y, p))
  {
    var front, back := PrintInt(y), [Digit(p)];
    var key := ShortKey(y, p);
    SeparatorAfter(front, back);
    assert key[..|front|] == front && key[|front| + 2..] == back;
    ParseIntOfPrintInt(y);
    NothingToStrip(back);
    assert back[..0] == "" && ParseDigits(back) == Some(p);
  }

  /** The spellings without the leading zero resolve like the canonical ones and are not canonical. */
  lemma ShortSpelling(config: FiscalConfig, y: int, p: int)
    requires 1 <= p <= 9
    ensures ResolvePeriod(config, ShortKey(y, p)) == ResolvePeriod(config, PrintKey(y, p)) == Some(PeriodBounds(config, y, p))
    ensures !Canonical(ShortKey(y, p))
  {
    ShortKeyParses(y, p);
    ParseOfPrint(y, p);
    assert |PrintKey(y, p)| == |ShortKey(y, p)| + 1;
  }

  // ---- The procedures

  /** The twelve 4-4-5 blocks, the last one stretched to the next anchor. */
  method Bounds445(anchor: Day, nextAnchor: Day) returns (bounds: seq<(Day, Day)>)
    ensures |bounds| == 12
    ensures forall p :: 1 <= p <= 12 ==> bounds[p - 1] == WeekBlock(anchor, nextAnchor, p)
  {
    bounds := [];
    var cursor := anchor;
    for period := 1 to 13
      invariant |bounds| == period - 1
      invariant cursor == anchor + 7 * WeeksBefore(period)
      invariant forall p :: 1 <= p < period ==> bounds[p - 1] == (anchor + 7 * WeeksBefore(p), anchor + 7 * WeeksBefore(p + 1) - 1)
    {
      var end := cursor + 7 * WeeksIn(period) - 1;
      bounds := bounds + [(cursor, end)];
      cursor := end + 1;
    }
    var lastStart := bounds[|bounds| - 1].0;
    bounds := bounds[|bounds| - 1 := (lastStart, nextAnchor - 1)];
  }

  /** Forward to the period's month, then one more month and a day back. */
  method MonthPeriod(y: int, m: int, period: int) returns (r: (Day, Day))
    requires 1 <= m <= 12 && 1 <= period <= 12
    ensures r == MonthBounds(y, m, period)
  {
    var total := m - 1 + (period - 1);
    var year := y + total / 12;
    var month := total % 12 + 1;
    MonthThenOne(y, m, period, year, month);
    r := (FirstOf(year, month), AddMonths(year, month, 1) - 1);
  }

  lemma MonthThenOne(y: int, m: int, period: int, year: int, month: int)
    requires 1 <= m <= 12 && 1 <= period <= 12 && 1 <= month <= 12
    requires (year == y && month == m + period - 1) || (year == y + 1 && month == m + period - 13)
    ensures AddMonths(y, m, period - 1) == FirstOf(year, month) && AddMonths(y, m, period) == AddMonths(year, month, 1)
  {
    AddMonthsCases(y, m, period - 1);
    AddMonthsCases(y, m, period);
    AddMonthsCases(year, month, 1);
  }

  method BoundsOfPeriod(config: FiscalConfig, fiscalYear: int, period: int) returns (r: (Day, Day))
    requires 1 <= period <= 12
    ensures r == PeriodBounds(config, fiscalYear, period)
  {
    if config.CalendarMonth? {
      r := MonthPeriod(fiscalYear, config.startMonth, period);
    } else {
      var anchor, nextAnchor := FyAnchor(config, fiscalYear), FyAnchor(config, fiscalYear + 1);
      var bounds := Bounds445(anchor, nextAnchor);
      r := bounds[period - 1];
      assert r == WeekBlock(anchor, nextAnchor, period);
    }
  }

  method Resolve(config: FiscalConfig, key: string) returns (r: Option<(Day, Day)>)
    ensures r == ResolvePeriod(config, key)
  {
    var parsed := ParseKey(key);
    if parsed.None? {
      return None;
    }
    var bounds := BoundsOfPeriod(config, parsed.value.0, parsed.value.1);
    r := Some(bounds);
  }

  /** A period's canonical key and its bounds. */
  ghost predicate IsRowOf(config: FiscalConfig, y: int, p: int, row: (string, Day, Day))
    requires 1 <= p <= 12
  {
    row.0 == PrintKey(y, p) && (row.1, row.2) == PeriodBounds(config, y, p)
  }

  /** The year's keys in order, each with the range its key resolves to. */
  method PeriodsInYear(config: FiscalConfig, fiscalYear: int) returns (out: seq<(string, Day, Day)>)
    ensures |out| == 12
    ensures forall i :: 0 <= i < 12 ==> IsRowOf(config, fiscalYear, i + 1, out[i])
  {
    out := [];
    for period := 1 to 13
      invariant |out| == period - 1
      invariant forall i :: 0 <= i < |out| ==> IsRowOf(config, fiscalYear, i + 1, out[i])
    {
      var row := KeyedPeriod(config, fiscalYear, period);
      out := out + [row];
    }
  }

  method KeyedPeriod(config: FiscalConfig, fiscalYear: int, period: int) returns (row: (string, Day, Day))
    requires 1 <= period <= 12
    ensures IsRowOf(config, fiscalYear, period, row)
  {
    var key := PrintKey(fiscalYear, period);
    ParseOfPrint(fiscalYear, period);
    var r := Resolve(config, key);
    row := (key, r.value.0, r.value.1);
  }

  /** The largest fiscal year begun by `day`. The search stops in the day's own year or the one before it. */
  method YearContaining445(config: FiscalConfig, day: Day) returns (fiscalYear: int)
    requires config.Weeks445?
    ensures Begun(AnchorOf(config), day, fiscalYear)
    ensures YearOf(day) - 1 <= fiscalYear <= YearOf(day)
  {
    var year := YearOf(day);
    AnchorsBracket(config, day, year);
    fiscalYear := LastBegun(AnchorOf(config), day, year);
  }

  /** The year from `y`'s anchor up to the next holds the day. */
  predicate Begun(anchor: int -> Day, day: Day, y: int) { anchor(y) <= day < anchor(y + 1) }

  function AnchorOf(config: FiscalConfig): int -> Day
    requires config.Weeks445?
  {
    y => FyAnchor(config, y)
  }

  lemma AnchorsBracket(config: FiscalConfig, day: Day, year: int)
    requires config.Weeks445? && InYear(day, year)
    ensures AnchorOf(config)(year - 1) <= day < AnchorOf(config)(year + 1)
  {
    AnchorBounds(config, year - 1);
    AnchorBounds(config, year + 1);
  }

  /** Walk back from the year after `year` to the first one begun by `day`. */
  method LastBegun(anchor: int -> Day, day: Day, year: int) returns (fiscalYear: int)
    requires anchor(year - 1) <= day < anchor(year + 1)
    ensures Begun(anchor, day, fiscalYear)
    ensures year - 1 <= fiscalYear <= year
  {
    fiscalYear := year + 1;
    while anchor(fiscalYear) > day
      invariant year - 1 <= fiscalYear <= year + 1
      invariant fiscalYear <= year ==> anchor(fiscalYear + 1) > day
      decreases fiscalYear - year + 1
    {
      fiscalYear := fiscalYear - 1;
    }
  }

  lemma AnchorBounds(config: FiscalConfig, y: int)
    requires config.Weeks445?
    ensures FirstOf(y, 1) <= FyAnchor(config, y) < FirstOf(y + 1, 1)
  {
    YearStartBounds(config, y);
  }

  /** The first listed period holding the day, if any. */
  method FirstHolding(periods: seq<(string, Day, Day)>, day: Day) returns (r: Option<string>)
    ensures r.Some? ==> exists i :: 0 <= i < |periods| && periods[i].0 == r.value && periods[i].1 <= day <= periods[i].2
    ensures r.None? ==> forall i :: 0 <= i < |periods| ==> !(periods[i].1 <= day <= periods[i].2)
  {
    for i := 0 to |periods|
      invariant forall k :: 0 <= k < i ==> !(periods[k].1 <= day <= periods[k].2)
    {
      var (key, start, end) := periods[i];
      if start <= day <= end {
        return Some(key);
      }
    }
    r := None;
  }

  /** The key whose range contains `day`. The refusal that follows an unsuccessful scan is never reached: the
      result is always a key, and the only canonical one holding the day. */
  method PeriodContaining(config: FiscalConfig, day: Day) returns (r: Option<string>)
    ensures r == Some(KeyOf(config, day))
  {
    var fiscalYear := FiscalYearOf(config, day);
    ghost var p := PeriodInYear(config, day, fiscalYear);
    var periods := PeriodsInYear(config, fiscalYear);
    assert IsRowOf(config, fiscalYear, p, periods[p - 1]);
    r := FirstHolding(periods, day);
    ghost var i :| 0 <= i < |periods| && periods[i].0 == r.value && periods[i].1 <= day <= periods[i].2;
    assert IsRowOf(config, fiscalYear, i + 1, periods[i]);
    KeyFound(config, day, fiscalYear, i + 1, periods[i]);
  }

  ghost predicate Settles(config: FiscalConfig, day: Day, fiscalYear: int) {
    match config
    case CalendarMonth(m) => fiscalYear == if MonthOf(day) >= m then YearOf(day) else YearOf(day) - 1
    case Weeks445(_, _) => Begun(AnchorOf(config), day, fiscalYear)
  }

  method FiscalYearOf(config: FiscalConfig, day: Day) returns (fiscalYear: int)
    ensures Settles(config, day, fiscalYear)
  {
    if config.CalendarMonth? {
      fiscalYear := if MonthOf(day) >= config.startMonth then YearOf(day) else YearOf(day) - 1;
    } else {
      fiscalYear := YearContaining445(config, day);
    }
  }

  /** The year the search settles on has a period holding the day. */
  lemma PeriodInYear(config: FiscalConfig, day: Day, fiscalYear: int) returns (p: int)
    requires Settles(config, day, fiscalYear)
    ensures 1 <= p <= 12 && PeriodBounds(config, fiscalYear, p).0 <= day <= PeriodBounds(config, fiscalYear, p).1
  {
    if config.CalendarMonth? {
      p := MonthOf(day) - config.startMonth + 1 + if MonthOf(day) >= config.startMonth then 0 else 12;
      MonthHolds(config.startMonth, day, YearOf(day), MonthOf(day), fiscalYear, p);
    } else {
      PeriodsTileAll(config);
      p := TilesCover(BoundsOf(config), fiscalYear, day);
    }
  }

  lemma MonthHolds(m: int, day: Day, year: int, month: int, y: int, p: int)
    requires 1 <= m <= 12 && 1 <= p <= 12 && InMonth(day, year, month)
    requires (y == year && p == month - m + 1) || (y == year - 1 && p == month - m + 13)
    ensures MonthBounds(y, m, p).0 <= day <= MonthBounds(y, m, p).1
  {
    AddMonthsCases(y, m, p - 1);
    AddMonthsCases(y, m, p);
    MonthAfter(year, month);
  }

  lemma KeyFound(config: FiscalConfig, day: Day, y: int, p: int, row: (string, Day, Day))
    requires 1 <= p <= 12 && IsRowOf(config, y, p, row) && row.1 <= day <= row.2
    ensures row.0 == KeyOf(config, day)
  {
    ParseOfPrint(y, p);
    HoldsExactlyItsKey(config, PrintKey(y, p), day);
  }
}
