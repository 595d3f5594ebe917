/** Which property's accounts carry each worked minute. */
module Attribution {
  import opened Prelude
  import opened Sums
  import opened Gregorian
  import opened Apportionment
  import opened Timecards
  import Assignments

  datatype AttributionError = Unattributable | AmbiguousPrimary(employee: int) | Unsplittable(why: ApportionError)

  /** Distribute the extra minutes in proportion to the recorded ones. */
  function Spread(extra: int, recorded: map<Property, int>): Result<map<Property, int>, AttributionError> {
    match Apportioned(extra, recorded, 1)
    case Ok(shares) => Ok(map k | k in recorded :: recorded[k] + At(shares)(k))
    case Err(why) => Err(Unsplittable(why))
  }

  /** One day's split with no unrecorded key left. */
  function MinutesForDay(table: seq<Assignments.Assignment>, e: int, date: Day, m: DayMinutes)
    : Result<map<Property, int>, AttributionError>
  {
    var recorded, unrecorded := Recorded(m), Unrecorded(m);
    if unrecorded <= 0 then Ok(recorded)
    else if recorded != map[] then Spread(unrecorded, recorded)
    else
      match Assignments.PrimaryAssignmentOn(table, e, date)
      case Err(who) => Err(AmbiguousPrimary(who))
      case Ok(None) => Err(Unattributable)
      case Ok(Some(a)) => Ok(map[a.property := unrecorded])
  }

  // ---- Conservation over a day

  /** A successful split of a nonzero total over a positive basis adds up to the total. */
  lemma ApportionedAddsUp(total: int, weights: map<Property, int>, quantum: int)
    requires quantum > 0 && Apportioned(total, weights, quantum).Ok?
    ensures var shares := Apportioned(total, weights, quantum).value;
      && shares.Keys == weights.Keys
      && (Total(weights) > 0 || total == 0 ==> Total(shares) == total)
      && (Total(weights) <= 0 ==> Total(shares) == 0)
  {
    var shares := Apportioned(total, weights, quantum).value;
    EmptyTotal(weights);
    KeysSound(weights);
    if weights != map[] && (Total(weights) <= 0 || total == 0) {
      assert shares == map k | k in weights :: 0;
      KeysSound(shares);
      SumZero(Keys(shares), At(shares));
    }
  }

  lemma SpreadTotal(extra: int, recorded: map<Property, int>)
    requires Spread(extra, recorded).Ok? && extra != 0
    ensures Spread(extra, recorded).value.Keys == recorded.Keys
    ensures Total(Spread(extra, recorded).value) == Total(recorded) + if Total(recorded) > 0 then extra else 0
  {
    var shares := Apportioned(extra, recorded, 1).value;
    ApportionedAddsUp(extra, recorded, 1);
    SameKeysPlus(recorded, shares);
    TotalPlus(recorded, shares);
  }

  lemma SameKeysPlus(a: map<Property, int>, b: map<Property, int>)
    requires a.Keys == b.Keys
    ensures (map k | k in a :: a[k] + At(b)(k)) == Plus(a, b) && Plus(a, b).Keys == a.Keys
  {
  }

  /** What must hold of a day for its minutes to survive resolution: nothing unrecorded, or unrecorded minutes with either
      no recorded property at all or a positive recorded total to follow. */
  predicate Resolvable(m: DayMinutes) {
    Unrecorded(m) == 0 || (Unrecorded(m) > 0 && (Recorded(m) == map[] || Total(Recorded(m)) > 0))
  }

  /** Minutes are conserved over a day exactly when the day is resolvable; a day whose recorded properties all carry zero
      minutes loses its unrecorded ones. */
  lemma DayConservedIff(table: seq<Assignments.Assignment>, e: int, date: Day, m: DayMinutes)
    requires MinutesForDay(table, e, date, m).Ok?
    ensures Total(MinutesForDay(table, e, date, m).value) == MinutesOf(m) <==> Resolvable(m)
  {
    var recorded, unrecorded := Recorded(m), Unrecorded(m);
    if unrecorded > 0 {
      if recorded != map[] {
        SpreadTotal(unrecorded, recorded);
      } else {
        EmptyTotal(recorded);
        SingleTotal(Assignments.PrimaryAssignmentOn(table, e, date).value.value.property, unrecorded);
      }
    }
  }

  /** With recorded minutes that are not negative, resolution never fails for want of a split, names only recorded
      properties, and takes nothing away from any of them. */
  lemma DaySplitGrows(table: seq<Assignments.Assignment>, e: int, date: Day, m: DayMinutes)
    requires Recorded(m) != map[] && NonNegative(Recorded(m)) && Total(Recorded(m)) > 0
    ensures var r := MinutesForDay(table, e, date, m);
      && r.Ok? && r.value.Keys == Recorded(m).Keys
      && forall k :: k in r.value ==> r.value[k] >= Recorded(m)[k]
  {
    if Unrecorded(m) > 0 {
      ApportionFair(Unrecorded(m), Recorded(m), 1);
    }
  }

  // ---- A whole card

  /** The running totals after one more day. */
  function AddDay(before: Result<map<Property, int>, AttributionError>, worked: int,
                  resolved: Result<map<Property, int>, AttributionError>): Result<map<Property, int>, AttributionError>
  {
    if before.Err? || worked <= 0 then before
    else if resolved.Err? then resolved
    else Ok(Plus(before.value, resolved.value))
  }

  /** The totals over the days, each resolved by `f`, stopping at the first refusal. */
  function Accrued(days: seq<DayResult>, f: DayResult -> Result<map<Property, int>, AttributionError>)
    : Result<map<Property, int>, AttributionError>
  {
    if days == [] then Ok(map[])
    else
      var day := days[|days| - 1];
      AddDay(Accrued(days[..|days| - 1], f), day.worked, f(day))
  }

  function Resolver(table: seq<Assignments.Assignment>, e: int): DayResult -> Result<map<Property, int>, AttributionError> {
    (d: DayResult) => MinutesForDay(table, e, d.date, d.minutes)
  }

  function CardMinutes(table: seq<Assignments.Assignment>, e: int, days: seq<DayResult>)
    : Result<map<Property, int>, AttributionError>
  {
    Accrued(days, Resolver(table, e))
  }

  function WorkedMinutes(): DayResult -> int { (d: DayResult) => if d.worked > 0 then MinutesOf(d.minutes) else 0 }

  lemma AddDayTotal(before: Result<map<Property, int>, AttributionError>, worked: int,
                    resolved: Result<map<Property, int>, AttributionError>, minutes: int)
    requires AddDay(before, worked, resolved).Ok?
    requires worked > 0 && resolved.Ok? ==> Total(resolved.value) == minutes
    ensures before.Ok?
    ensures Total(AddDay(before, worked, resolved).value) == Total(before.value) + if worked > 0 then minutes else 0
  {
    if worked > 0 {
      TotalPlus(before.value, resolved.value);
    }
  }

  lemma DayTotal(table: seq<Assignments.Assignment>, e: int, day: DayResult)
    requires Resolvable(day.minutes)
    ensures var r := MinutesForDay(table, e, day.date, day.minutes); r.Ok? ==> Total(r.value) == MinutesOf(day.minutes)
  {
    if MinutesForDay(table, e, day.date, day.minutes).Ok? {
      DayConservedIff(table, e, day.date, day.minutes);
    }
  }

  lemma {:induction false} AccruedTotal(days: seq<DayResult>, f: DayResult -> Result<map<Property, int>, AttributionError>)
    requires Accrued(days, f).Ok?
    requires forall d :: d in days && d.worked > 0 && f(d).Ok? ==> Total(f(d).value) == MinutesOf(d.minutes)
    ensures Total(Accrued(days, f).value) == Sum(days, WorkedMinutes())
  {
    if days == [] {
      EmptyTotal(map[]);
    } else {
      var front, day := days[..|days| - 1], days[|days| - 1];
      assert days == front + [day];
      AddDayTotal(Accrued(front, f), day.worked, f(day), MinutesOf(day.minutes));
      AccruedTotal(front, f);
      SumSnoc(front, day, WorkedMinutes());
    }
  }

  /** The card's minutes add up to those of its worked days. */
  lemma CardConserved(table: seq<Assignments.Assignment>, e: int, days: seq<DayResult>)
    requires CardMinutes(table, e, days).Ok?
    requires forall d :: d in days && d.worked > 0 ==> Resolvable(d.minutes)
    ensures Total(CardMinutes(table, e, days).value) == Sum(days, WorkedMinutes())
  {
    var f := Resolver(table, e);
    forall d | d in days && d.worked > 0 && f(d).Ok? ensures Total(f(d).value) == MinutesOf(d.minutes) {
      DayTotal(table, e, d);
    }
    AccruedTotal(days, f);
  }

  /** Nearest integer to num/den, ties to even. */
  function RoundHalfEven(num: int, den: int): int
    requires den > 0
  {
    var q, r := num / den, num % den;
    if 2 * r < den then q else if 2 * r > den then q + 1 else if q % 2 == 0 then q else q + 1
  }

  /** Minutes as hundredths of an hour. */
  function Hundredths(minutes: int): int { RoundHalfEven(100 * minutes, 60) }

  lemma HundredthsNearest(minutes: int)
    ensures -30 < 60 * Hundredths(minutes) - 100 * minutes < 30
    ensures minutes > 0 ==> Hundredths(minutes) > 0
    ensures minutes < 0 ==> Hundredths(minutes) < 0
  {
    assert (100 * minutes) % 60 == 0 || (100 * minutes) % 60 == 20 || (100 * minutes) % 60 == 40;
  }

  /** Hours per property over the card, in hundredths. */
  function CardHours(table: seq<Assignments.Assignment>, e: int, days: seq<DayResult>)
    : Result<map<Property, int>, AttributionError>
  {
    match CardMinutes(table, e, days)
    case Err(why) => Err(why)
    case Ok(totals) =>
      match Apportioned(Hundredths(Total(totals)), totals, 1)
      case Ok(hours) => Ok(hours)
      case Err(why) => Err(Unsplittable(why))
  }

  /** The card ties out: when every worked day is resolvable, the per-property hours add up exactly to the card's minutes
      over sixty rounded to hundredths, if and only if the card's minutes are not negative in total. */
  lemma HoursTieOut(table: seq<Assignments.Assignment>, e: int, days: seq<DayResult>)
    requires CardHours(table, e, days).Ok?
    requires forall d :: d in days && d.worked > 0 ==> Resolvable(d.minutes)
    ensures Total(CardHours(table, e, days).value) == Hundredths(Sum(days, WorkedMinutes()))
       <==> Sum(days, WorkedMinutes()) >= 0
  {
    CardConserved(table, e, days);
    var totals := CardMinutes(table, e, days).value;
    var minutes := Total(totals);
    HundredthsNearest(minutes);
    ApportionedAddsUp(Hundredths(minutes), totals, 1);
  }

  // ---- Where the conditions fail, and why the days the clock produces meet them

  /** The day that loses minutes: one recorded property with none, and some unrecorded. */
  lemma ZeroDayLoses(table: seq<Assignments.Assignment>, e: int, date: Day, p: Property, u: int)
    requires u > 0
    ensures var m: DayMinutes := map[Some(p) := 0, None := u];
      MinutesForDay(table, e, date, m) == Ok(map[p := 0]) && MinutesOf(m) == u
  {
    var m: DayMinutes := map[Some(p) := 0, None := u];
    var recorded: map<Property, int> := map[p := 0];
    assert Some(p) in m && Recorded(m) == recorded;
    SingleTotal(p, 0);
    assert p in recorded && Apportioned(u, recorded, 1) == Ok(map k | k in recorded :: 0);
    assert Spread(u, recorded).value == recorded;
  }

  ghost predicate PositiveDays(days: seq<DayResult>) {
    forall d :: d in days && d.worked > 0 ==> AllPositive(d.minutes)
  }

  lemma RecordedPositive(m: DayMinutes)
    requires AllPositive(m)
    ensures forall p :: p in Recorded(m) ==> Recorded(m)[p] > 0
    ensures Unrecorded(m) >= 0
  {
    forall p | p in Recorded(m) ensures Recorded(m)[p] > 0 { assert Some(p) in m; }
  }

  /** A day with no zero or negative entry always meets the condition. */
  lemma PositiveIsResolvable(m: DayMinutes)
    requires AllPositive(m)
    ensures Resolvable(m) && (Recorded(m) != map[] ==> Total(Recorded(m)) > 0)
  {
    RecordedPositive(m);
    PositiveTotal(Recorded(m));
  }

  /** The one reason such a day is refused: nothing recorded, and no single primary to give its minutes to. */
  predicate Homeless(table: seq<Assignments.Assignment>, e: int, d: DayResult) {
    && Recorded(d.minutes) == map[] && Unrecorded(d.minutes) > 0
    && var primary := Assignments.PrimaryAssignmentOn(table, e, d.date); primary.Err? || primary.value.None?
  }

  lemma PositiveDay(table: seq<Assignments.Assignment>, e: int, d: DayResult)
    requires AllPositive(d.minutes)
    ensures var r := MinutesForDay(table, e, d.date, d.minutes);
      && (r.Err? <==> Homeless(table, e, d)) && (r.Err? ==> !r.error.Unsplittable?)
      && (r.Ok? ==> NonNegative(r.value))
  {
    RecordedPositive(d.minutes);
    PositiveIsResolvable(d.minutes);
    if Recorded(d.minutes) != map[] {
      DaySplitGrows(table, e, d.date, d.minutes);
    }
  }

  /** Days that resolve to non-negative minutes accrue to non-negative totals, refused exactly when a worked day is. */
  lemma {:induction false} AccruedSigns(days: seq<DayResult>, f: DayResult -> Result<map<Property, int>, AttributionError>)
    requires forall d :: d in days && d.worked > 0 ==>
      if f(d).Err? then !f(d).error.Unsplittable? else NonNegative(f(d).value)
    ensures var r := Accrued(days, f);
      && (r.Err? <==> exists d :: d in days && d.worked > 0 && f(d).Err?)
      && (r.Err? ==> !r.error.Unsplittable?) && (r.Ok? ==> NonNegative(r.value))
  {
    if days != [] {
      var front, day := days[..|days| - 1], days[|days| - 1];
      assert days == front + [day];
      AccruedSigns(front, f);
      AddedDay(Accrued(front, f), day.worked, f(day));
    }
  }

  lemma PositiveCard(table: seq<Assignments.Assignment>, e: int, days: seq<DayResult>)
    requires PositiveDays(days)
    ensures var r := CardMinutes(table, e, days);
      && (r.Err? <==> exists d :: d in days && d.worked > 0 && Homeless(table, e, d))
      && (r.Err? ==> !r.error.Unsplittable?) && (r.Ok? ==> NonNegative(r.value))
  {
    var f := Resolver(table, e);
    forall d | d in days && d.worked > 0
      ensures f(d).Err? <==> Homeless(table, e, d)
      ensures if f(d).Err? then !f(d).error.Unsplittable? else NonNegative(f(d).value)
    {
      PositiveDay(table, e, d);
    }
    AccruedSigns(days, f);
  }

  lemma AddedDay(before: Result<map<Property, int>, AttributionError>, worked: int,
                 resolved: Result<map<Property, int>, AttributionError>)
    ensures AddDay(before, worked, resolved).Err? <==> before.Err? || (worked > 0 && resolved.Err?)
    ensures before.Ok? && NonNegative(before.value) && (worked > 0 ==> resolved.Ok? && NonNegative(resolved.value)) ==>
      NonNegative(AddDay(before, worked, resolved).value)
  {
  }

  lemma PositiveResolvable(days: seq<DayResult>)
    requires PositiveDays(days)
    ensures forall d :: d in days && d.worked > 0 ==> Resolvable(d.minutes)
  {
    forall d | d in days && d.worked > 0 ensures Resolvable(d.minutes) { PositiveIsResolvable(d.minutes); }
  }

  /** The final split of non-negative card totals never fails. */
  lemma FinalSplit(totals: map<Property, int>)
    requires NonNegative(totals)
    ensures Apportioned(Hundredths(Total(totals)), totals, 1).Ok? && Total(totals) >= 0
  {
    PositiveTotal(totals);
    if Total(totals) > 0 {
      ApportionFair(Hundredths(Total(totals)), totals, 1);
    }
  }

  /** A card of days with only positive entries is refused exactly when some worked day has nothing recorded and no
      single primary, never for want of a split; otherwise its hours add up exactly to the rounded card. */
  lemma PositiveCardTiesOut(table: seq<Assignments.Assignment>, e: int, days: seq<DayResult>)
    requires PositiveDays(days)
    ensures var r := CardHours(table, e, days);
      && (r.Err? <==> exists d :: d in days && d.worked > 0 && Homeless(table, e, d))
      && (r.Err? ==> !r.error.Unsplittable?)
      && (r.Ok? ==> Total(r.value) == Hundredths(Sum(days, WorkedMinutes())))
  {
    PositiveCard(table, e, days);
    if CardMinutes(table, e, days).Ok? {
      FinalSplit(CardMinutes(table, e, days).value);
      PositiveResolvable(days);
      CardConserved(table, e, days);
      HoursTieOut(table, e, days);
    }
  }

  // ---- From the clock to the hours

  /** Each day was computed from its list of clock events. */
  ghost predicate Clocked(days: seq<DayResult>, logs: seq<seq<Event>>) {
    |days| == |logs| && forall i :: 0 <= i < |days| ==> Nameable(logs[i]) && DayOf(days[i].date, logs[i]) == Ok(days[i])
  }

  /** The minutes a list of events comes to, read off neighbouring punches in time order: spans less lunches. */
  function Punched(): seq<Event> -> int {
    (events: seq<Event>) =>
      var net := AllSpanMinutes(ByTime(events)) - LunchMinutes(ByTime(events));
      if net > 0 then net else 0
  }

  lemma ClockedDay(date: Day, events: seq<Event>, d: DayResult)
    requires Nameable(events) && DayOf(date, events) == Ok(d)
    ensures AllPositive(d.minutes) && WorkedMinutes()(d) == Punched()(events)
  {
    DaySound(date, events);
    WorkedExact(date, events);
  }

  /** From the clock to the hours: for every card of clocked days and every assignment table, attribution is refused
      exactly when some worked day has nothing recorded and no single primary; otherwise the per-property hours add up
      exactly to the minutes punched, lunches taken off, over sixty and rounded to hundredths. */
  lemma ClockedCardTiesOut(table: seq<Assignments.Assignment>, e: int, days: seq<DayResult>, logs: seq<seq<Event>>)
    requires Clocked(days, logs)
    ensures var r := CardHours(table, e, days);
      && (r.Err? <==> exists d :: d in days && d.worked > 0 && Homeless(table, e, d))
      && (r.Err? ==> !r.error.Unsplittable?)
      && (r.Ok? ==> Total(r.value) == Hundredths(Sum(logs, Punched())))
  {
    forall i | 0 <= i < |days| ensures AllPositive(days[i].minutes) && WorkedMinutes()(days[i]) == Punched()(logs[i]) {
      ClockedDay(days[i].date, logs[i], days[i]);
    }
    SumPaired(days, logs, WorkedMinutes(), Punched());
    PositiveCardTiesOut(table, e, days);
  }

  // ---- Fairness, property by property

  /** Unrecorded minutes go to the recorded properties in proportion: each gets within one minute of its share. */
  lemma DaySpreadFair(table: seq<Assignments.Assignment>, e: int, date: Day, m: DayMinutes, k: Property)
    requires NonNegative(Recorded(m)) && Total(Recorded(m)) > 0 && Unrecorded(m) > 0 && k in Recorded(m)
    ensures var r := MinutesForDay(table, e, date, m);
      && r.Ok? && k in r.value
      && Proportional(r.value[k] - Recorded(m)[k], Unrecorded(m), Recorded(m)[k], Total(Recorded(m)))
  {
    SharesOfPositive(Unrecorded(m), Recorded(m));
    EmptyTotal(Recorded(m));
    var shares := Apportioned(Unrecorded(m), Recorded(m), 1).value;
    assert FairShare(Unrecorded(m), 1, Total(Recorded(m)), Recorded(m)[k], shares[k]);
  }

  /** With nothing recorded, all the day's minutes go to the property of the one primary in force. */
  lemma DayToPrimary(table: seq<Assignments.Assignment>, e: int, date: Day, m: DayMinutes, i: int)
    requires Recorded(m) == map[] && Unrecorded(m) > 0
    requires Assignments.PaysAt(table, i, e, date) && forall j :: Assignments.PaysAt(table, j, e, date) ==> j == i
    ensures MinutesForDay(table, e, date, m) == Ok(map[table[i].property := Unrecorded(m)])
  {
    Assignments.PrimaryExact(table, e, date);
  }

  /** With nothing recorded and no primary in force the day is unattributable; with two it is ambiguous. */
  lemma DayToNobody(table: seq<Assignments.Assignment>, e: int, date: Day, m: DayMinutes)
    requires Recorded(m) == map[] && Unrecorded(m) > 0
    ensures (forall i :: !Assignments.PaysAt(table, i, e, date)) ==> MinutesForDay(table, e, date, m) == Err(Unattributable)
    ensures (exists i, j :: i < j && Assignments.PaysAt(table, i, e, date) && Assignments.PaysAt(table, j, e, date)) ==>
      MinutesForDay(table, e, date, m) == Err(AmbiguousPrimary(e))
  {
    Assignments.PrimaryExact(table, e, date);
  }

  /** With nothing unrecorded every property keeps what was recorded for it. */
  lemma DayAsRecorded(table: seq<Assignments.Assignment>, e: int, date: Day, m: DayMinutes)
    requires None !in m || m[None] <= 0
    ensures var r := MinutesForDay(table, e, date, m);
      && r.Ok? && (forall k :: k in r.value <==> Some(k) in m)
      && forall k :: k in r.value ==> r.value[k] == m[Some(k)]
  {
  }

  /** A refused card carries the refusal of its first refused worked day. */
  lemma {:induction false} AccruedFirst(days: seq<DayResult>, f: DayResult -> Result<map<Property, int>, AttributionError>)
    returns (i: nat)
    requires Accrued(days, f).Err?
    ensures i < |days| && days[i].worked > 0 && f(days[i]) == Err(Accrued(days, f).error)
    ensures forall j :: 0 <= j < i && days[j].worked > 0 ==> f(days[j]).Ok?
  {
    var n, front := |days| - 1, days[..|days| - 1];
    if Accrued(front, f).Err? {
      i := AccruedFirst(front, f);
    } else {
      i := n;
      AccruedAllOk(front, f);
      assert forall j :: 0 <= j < n ==> days[j] == front[j];
    }
  }

  lemma {:induction false} AccruedAllOk(days: seq<DayResult>, f: DayResult -> Result<map<Property, int>, AttributionError>)
    requires Accrued(days, f).Ok?
    ensures forall j :: 0 <= j < |days| && days[j].worked > 0 ==> f(days[j]).Ok?
  {
    if days != [] {
      AccruedAllOk(days[..|days| - 1], f);
    }
  }

  /** What the day's resolution gives one property, on a worked day. */
  function Gives(f: DayResult -> Result<map<Property, int>, AttributionError>, k: Property): DayResult -> int {
    (d: DayResult) => if d.worked > 0 && f(d).Ok? then At(f(d).value)(k) else 0
  }

  lemma {:induction false} AccruedPerProperty(days: seq<DayResult>, f: DayResult -> Result<map<Property, int>, AttributionError>,
                                              k: Property)
    requires Accrued(days, f).Ok?
    ensures At(Accrued(days, f).value)(k) == Sum(days, Gives(f, k))
  {
    if days != [] {
      var front, day := days[..|days| - 1], days[|days| - 1];
      assert days == front + [day];
      AccruedPerProperty(front, f, k);
      SumSnoc(front, day, Gives(f, k));
    }
  }

  /** A property's minutes on the card are the sum of what its worked days give it. */
  lemma CardPerProperty(table: seq<Assignments.Assignment>, e: int, days: seq<DayResult>, k: Property)
    requires CardMinutes(table, e, days).Ok?
    ensures At(CardMinutes(table, e, days).value)(k) == Sum(days, Gives(Resolver(table, e), k))
  {
    AccruedPerProperty(days, Resolver(table, e), k);
  }

  lemma SplitFair(totals: map<Property, int>, k: Property)
    requires NonNegative(totals) && Total(totals) > 0
    ensures var hours := Apportioned(Hundredths(Total(totals)), totals, 1);
      && hours.Ok? && hours.value.Keys == totals.Keys
      && Proportional(At(hours.value)(k), Hundredths(Total(totals)), At(totals)(k), Total(totals))
  {
    HundredthsNearest(Total(totals));
    SharesOfPositive(Hundredths(Total(totals)), totals);
    var hours := Apportioned(Hundredths(Total(totals)), totals, 1).value;
    if k in totals {
      assert FairShare(Hundredths(Total(totals)), 1, Total(totals), totals[k], hours[k]);
    }
  }

  /** Hours follow minutes: on a card of positive days, each property's hours are within a hundredth of its minutes'
      proportion of the rounded card. */
  lemma HoursFair(table: seq<Assignments.Assignment>, e: int, days: seq<DayResult>, k: Property)
    requires PositiveDays(days) && CardHours(table, e, days).Ok? && Sum(days, WorkedMinutes()) > 0
    ensures var minutes := Sum(days, WorkedMinutes());
      Proportional(At(CardHours(table, e, days).value)(k), Hundredths(minutes), Sum(days, Gives(Resolver(table, e), k)), minutes)
  {
    PositiveCard(table, e, days);
    PositiveResolvable(days);
    CardConserved(table, e, days);
    CardPerProperty(table, e, days, k);
    SplitFair(CardMinutes(table, e, days).value, k);
  }

  // ---- The procedures

  method PropertyMinutesForDay(table: seq<Assignments.Assignment>, e: int, date: Day, m: DayMinutes)
    returns (r: Result<map<Property, int>, AttributionError>)
    ensures r == MinutesForDay(table, e, date, m)
  {
    var recorded, unrecorded := Recorded(m), Unrecorded(m);
    if unrecorded <= 0 {
      return Ok(recorded);
    }
    if recorded != map[] {
      var shares := Apportion(unrecorded, recorded, 1);
      if shares.Err? {
        return Err(Unsplittable(shares.error));
      }
      return Ok(map k | k in recorded :: recorded[k] + At(shares.value)(k));
    }
    var primary := Assignments.PrimaryAssignmentOn(table, e, date);
    if primary.Err? {
      return Err(AmbiguousPrimary(primary.error));
    }
    if primary.value.None? {
      return Err(Unattributable);
    }
    r := Ok(map[primary.value.value.property := unrecorded]);
  }

  function Part(m: map<Property, int>, ks: seq<Property>): map<Property, int> { map k | k in m && k in ks :: m[k] }

  lemma PartStep(totals: map<Property, int>, m: map<Property, int>, ks: seq<Property>, k: Property)
    requires k in m && k !in ks
    ensures var next := Plus(totals, Part(m, ks));
      next[k := At(next)(k) + m[k]] == Plus(totals, Part(m, ks + [k]))
  {
    assert Part(m, ks + [k]) == Part(m, ks)[k := m[k]];
    var next := Plus(totals, Part(m, ks));
    assert At(next)(k) == At(totals)(k);
  }

  lemma PartNone(totals: map<Property, int>, m: map<Property, int>)
    ensures Plus(totals, Part(m, [])) == totals
  {
    assert Part(m, []) == map[];
  }

  lemma PartAll(m: map<Property, int>, ks: seq<Property>)
    requires forall k :: k in m ==> k in ks
    ensures Part(m, ks) == m
  {
  }

  /** Add the minutes of the listed properties into the running totals. */
  method AccumulateOver(totals: map<Property, int>, resolved: map<Property, int>, keys: seq<Property>)
    returns (next: map<Property, int>)
    requires NoDup(keys) && forall k :: k in keys ==> k in resolved
    ensures next == Plus(totals, Part(resolved, keys))
  {
    next := totals;
    PartNone(totals, resolved);
    assert keys[..0] == [];
    for i := 0 to |keys|
      invariant next == Plus(totals, Part(resolved, keys[..i]))
    {
      var k := keys[i];
      assert k !in keys[..i];
      assert keys[..i + 1] == keys[..i] + [k];
      PartStep(totals, resolved, keys[..i], k);
      next := next[k := (if k in next then next[k] else 0) + resolved[k]];
    }
    assert keys[..|keys|] == keys;
  }

  /** Add the day's minutes into the running totals, property by property. */
  method Accumulate(totals: map<Property, int>, resolved: map<Property, int>) returns (next: map<Property, int>)
    ensures next == Plus(totals, resolved)
  {
    KeysSound(resolved);
    PartAll(resolved, Keys(resolved));
    next := AccumulateOver(totals, resolved, Keys(resolved));
  }

  method PropertyHoursForTimecard(table: seq<Assignments.Assignment>, e: int, days: seq<DayResult>)
    returns (r: Result<map<Property, int>, AttributionError>)
    ensures r == CardHours(table, e, days)
  {
    var totals: map<Property, int> := map[];
    for i := 0 to |days|
      invariant CardMinutes(table, e, days[..i]) == Ok(totals)
    {
      var day := days[i];
      assert days[..i + 1][..i] == days[..i];
      if day.worked > 0 {
        var resolved := PropertyMinutesForDay(table, e, day.date, day.minutes);
        if resolved.Err? {
          StaysRefused(days, Resolver(table, e), i + 1);
          return Err(resolved.error);
        }
        totals := Accumulate(totals, resolved.value);
      }
    }
    assert days[..|days|] == days;
    var hours := Apportion(Hundredths(Total(totals)), totals, 1);
    if hours.Err? {
      return Err(Unsplittable(hours.error));
    }
    r := Ok(hours.value);
  }

  lemma {:induction false} StaysRefused(days: seq<DayResult>, f: DayResult -> Result<map<Property, int>, AttributionError>,
                                        i: nat)
    requires i <= |days| && Accrued(days[..i], f).Err?
    ensures Accrued(days, f) == Accrued(days[..i], f)
    decreases |days| - i
  {
    if i == |days| {
      assert days[..i] == days;
    } else {
      assert days[..i + 1][..i] == days[..i];
      StaysRefused(days, f, i + 1);
    }
  }
}
