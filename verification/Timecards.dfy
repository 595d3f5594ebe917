/** One day's worked minutes from its clock events, and their split by property. */
module Timecards {
  import opened Prelude
  import opened Sums
  import opened Gregorian
  import opened Apportionment

  type Property = string

  /** Minutes by property, with None holding the minutes whose property was never recorded. */
  type DayMinutes = map<Option<Property>, int>

  datatype DayResult = DayResult(date: Day, worked: int, minutes: DayMinutes)

  function Recorded(m: DayMinutes): map<Property, int> { map o | o in m && o.Some? :: o.value := m[o] }

  function Unrecorded(m: DayMinutes): int { if None in m then m[None] else 0 }

  /** All the day's minutes, recorded or not. */
  function MinutesOf(m: DayMinutes): int { Total(Recorded(m)) + Unrecorded(m) }

  function Plus(a: map<Property, int>, b: map<Property, int>): map<Property, int> {
    map k | k in a.Keys + b.Keys :: At(a)(k) + At(b)(k)
  }

  // ---- Sums of merged maps

  lemma TotalWithin(a: map<Property, int>, u: map<Property, int>)
    requires a.Keys <= u.Keys
    ensures Sum(Keys(u), At(a)) == Total(a)
  {
    KeysSound(a);
    KeysSound(u);
    SumSuperset(Keys(u), Keys(a), At(a));
  }

  lemma TotalPlus(a: map<Property, int>, b: map<Property, int>)
    ensures Total(Plus(a, b)) == Total(a) + Total(b)
  {
    var u := Plus(a, b);
    assert u.Keys == a.Keys + b.Keys;
    TotalWithin(a, u);
    TotalWithin(b, u);
    KeysSound(u);
    SumLinear(Keys(u), At(u), 1, At(a), 1, At(b));
  }

  lemma SingleTotal(p: Property, v: int)
    ensures Total(map[p := v]) == v
  {
    KeysSound(map[p := v]);
    SumIndicator(Keys(map[p := v]), p, v);
    SumEq(Keys(map[p := v]), At(map[p := v]), Indicator(p, v));
  }

  lemma EmptyTotal(m: map<Property, int>)
    ensures m == map[] ==> Total(m) == 0
  {
    KeysSound(m);
  }

  ghost predicate AllPositive(m: DayMinutes) { forall o :: o in m ==> m[o] > 0 }

  lemma PositiveTotal(m: map<Property, int>)
    requires NonNegative(m)
    ensures Total(m) >= 0
    ensures m != map[] && (forall k :: k in m ==> m[k] > 0) ==> Total(m) > 0
  {
    KeysSound(m);
    var ks, least := Keys(m), if forall k :: k in m ==> m[k] > 0 then 1 else 0;
    SumLe(ks, Constant(least), At(m));
    SumConstant(ks, Constant(least), least);
  }

  // ---- Worked minutes split over the spans

  const UNRECORDED := "None"

  /** The text a span's property sorts by. */
  function Name(o: Option<Property>): string { if o.Some? then o.value else UNRECORDED }

  /** Gross span minutes by property, none negative; no property is called as an unrecorded one prints. */
  ghost predicate Spans(gross: DayMinutes) {
    Some(UNRECORDED) !in gross && forall o :: o in gross ==> gross[o] >= 0
  }

  /** The minutes of one name, whichever key carries it. */
  function Named(m: DayMinutes): map<string, int> {
    Plus(Recorded(m), if None in m then map[UNRECORDED := m[None]] else map[])
  }

  lemma NamedAt(m: DayMinutes, o: Option<Property>)
    requires Some(UNRECORDED) !in m && o in m
    ensures Name(o) in Named(m) && Named(m)[Name(o)] == m[o]
  {
  }

  lemma NamedKeys(m: DayMinutes, k: string)
    requires Some(UNRECORDED) !in m && k in Named(m)
    ensures exists o :: o in m && Name(o) == k
  {
    if k in Recorded(m) {
      assert Some(k) in m && Name(Some(k)) == k;
    } else {
      assert None in m && Name(None) == k;
    }
  }

  lemma NamedTotal(m: DayMinutes)
    ensures Total(Named(m)) == MinutesOf(m)
  {
    var extra := if None in m then map[UNRECORDED := m[None]] else map[];
    TotalPlus(Recorded(m), extra);
    SingleTotal(UNRECORDED, Unrecorded(m));
    EmptyTotal(map[]);
  }

  /** The positive shares, under the keys they belong to. */
  function Kept(gross: DayMinutes, shares: map<string, int>): DayMinutes {
    map o | o in gross && At(shares)(Name(o)) > 0 :: At(shares)(Name(o))
  }

  /** One day's worked minutes split over its spans, keeping only the positive shares. */
  function WorkedSplit(worked: int, gross: DayMinutes): Result<DayMinutes, ApportionError> {
    if gross == map[] || MinutesOf(gross) <= 0 || worked <= 0 then Ok(map[])
    else
      match Apportioned(worked, Named(gross), 1)
      case Err(why) => Err(why)
      case Ok(shares) => Ok(Kept(gross, shares))
  }

  lemma NamedNonNegative(gross: DayMinutes)
    requires Spans(gross)
    ensures NonNegative(Named(gross))
  {
    forall k | k in Named(gross) ensures Named(gross)[k] >= 0 {
      NamedKeys(gross, k);
      var o :| o in gross && Name(o) == k;
      NamedAt(gross, o);
    }
  }

  /** Dropping shares that are not positive, and going back from names to keys, loses no minutes. */
  lemma PositivePart(gross: DayMinutes, shares: map<string, int>)
    requires Some(UNRECORDED) !in gross && shares.Keys == Named(gross).Keys && NonNegative(shares)
    ensures AllPositive(Kept(gross, shares)) && Kept(gross, shares).Keys <= gross.Keys
    ensures MinutesOf(Kept(gross, shares)) == Total(shares)
  {
    var split := Kept(gross, shares);
    var named := Named(split);
    forall k ensures At(named)(k) == At(shares)(k) { PositivePartAt(gross, shares, split, k); }
    assert named.Keys <= shares.Keys by {
      forall k | k in named ensures k in shares {
        NamedKeys(split, k);
        var o :| o in split && Name(o) == k;
        NamedAt(gross, o);
      }
    }
    TotalWithin(named, shares);
    SumEq(Keys(shares), At(named), At(shares));
    NamedTotal(split);
  }

  lemma PositivePartAt(gross: DayMinutes, shares: map<string, int>, split: DayMinutes, k: string)
    requires Some(UNRECORDED) !in gross && shares.Keys == Named(gross).Keys && NonNegative(shares)
    requires split == Kept(gross, shares)
    ensures At(Named(split))(k) == At(shares)(k)
  {
    if k in Named(split) {
      NamedKeys(split, k);
      var o :| o in split && Name(o) == k;
      NamedAt(split, o);
    } else if k in shares {
      NamedKeys(gross, k);
      var o :| o in gross && Name(o) == k;
      if o in split {
        NamedAt(split, o);
      }
    }
  }

  /** The day's split is never refused, has only positive entries, names only its own spans, and keeps every worked
      minute. */
  lemma WorkedSplitSound(worked: int, gross: DayMinutes)
    requires Spans(gross)
    ensures var r := WorkedSplit(worked, gross);
      && r.Ok? && AllPositive(r.value) && r.value.Keys <= gross.Keys
      && MinutesOf(r.value) == if worked > 0 && MinutesOf(gross) > 0 then worked else 0
  {
    EmptyTotal(Recorded(map[]));
    if gross == map[] {
      EmptyTotal(Recorded(gross));
    } else if MinutesOf(gross) > 0 && worked > 0 {
      NamedTotal(gross);
      NamedNonNegative(gross);
      SharesOfPositive(worked, Named(gross));
      PositivePart(gross, Apportioned(worked, Named(gross), 1).value);
    }
  }

  /** The minutes a day gives one key, zero when it gives none. */
  function MinutesAt(m: DayMinutes, o: Option<Property>): int { if o in m then m[o] else 0 }

  /** Within one unit of the proportion `part` of `whole` times `total`. */
  predicate Proportional(share: int, total: int, part: int, whole: int) {
    -whole < whole * share - total * part < whole
  }

  /** Each property's minutes are within one of its spans' proportion of the minutes worked. */
  lemma WorkedSplitFair(worked: int, gross: DayMinutes, o: Option<Property>)
    requires Spans(gross) && worked > 0 && MinutesOf(gross) > 0 && o in gross
    ensures WorkedSplit(worked, gross).Ok?
    ensures Proportional(MinutesAt(WorkedSplit(worked, gross).value, o), worked, gross[o], MinutesOf(gross))
  {
    NamedTotal(gross);
    NamedNonNegative(gross);
    SharesOfPositive(worked, Named(gross));
    KeptFair(worked, gross, Apportioned(worked, Named(gross), 1).value, o);
  }

  lemma KeptFair(worked: int, gross: DayMinutes, shares: map<string, int>, o: Option<Property>)
    requires Spans(gross) && o in gross && NonNegative(shares) && shares.Keys == Named(gross).Keys
    requires forall k :: k in Named(gross) ==> FairShare(worked, 1, MinutesOf(gross), Named(gross)[k], shares[k])
    ensures Proportional(MinutesAt(Kept(gross, shares), o), worked, gross[o], MinutesOf(gross))
  {
    NamedAt(gross, o);
    KeptAt(gross, shares, o);
    assert FairShare(worked, 1, MinutesOf(gross), gross[o], shares[Name(o)]);
  }

  lemma KeptAt(gross: DayMinutes, shares: map<string, int>, o: Option<Property>)
    requires o in gross && NonNegative(shares)
    ensures MinutesAt(Kept(gross, shares), o) == At(shares)(Name(o))
  {
  }

  lemma SharesOfPositive(total: int, weights: map<string, int>)
    requires total > 0 && NonNegative(weights) && Total(weights) > 0
    ensures var r := Apportioned(total, weights, 1);
      && r.Ok? && r.value.Keys == weights.Keys && NonNegative(r.value) && Total(r.value) == total
      && forall k :: k in weights ==> FairShare(total, 1, Total(weights), weights[k], r.value[k])
  {
    ApportionFair(total, weights, 1);
  }

  // ---- Clock events

  datatype PunchType = ClockIn | ClockOut | LunchStart | LunchEnd

  /** A punch or an adjustment, with its time in seconds; an old adjustment may have no property. */
  datatype Event = Event(kind: PunchType, at: int, property: Option<Property>)

  ghost predicate InTimeOrder(events: seq<Event>) {
    forall i, j :: 0 <= i < j < |events| ==> events[i].at <= events[j].at
  }

  /** Put an event after every earlier or simultaneous one. */
  function Insert(events: seq<Event>, ev: Event): seq<Event> {
    if events == [] || events[|events| - 1].at <= ev.at then events + [ev]
    else Insert(events[..|events| - 1], ev) + [events[|events| - 1]]
  }

  /** The events by time, ties kept in their given order. */
  function ByTime(events: seq<Event>): seq<Event> {
    if events == [] then [] else Insert(ByTime(events[..|events| - 1]), events[|events| - 1])
  }

  lemma {:induction false} InsertKeeps(events: seq<Event>, ev: Event)
    ensures multiset(Insert(events, ev)) == multiset(events) + multiset{ev}
  {
    if events != [] && events[|events| - 1].at > ev.at {
      var front, last := events[..|events| - 1], events[|events| - 1];
      assert events == front + [last];
      InsertKeeps(front, ev);
    }
  }

  lemma SnocInOrder(events: seq<Event>, last: Event)
    requires InTimeOrder(events) && forall x :: x in events ==> x.at <= last.at
    ensures InTimeOrder(events + [last])
  {
  }

  lemma {:induction false} InsertInOrder(events: seq<Event>, ev: Event)
    requires InTimeOrder(events)
    ensures InTimeOrder(Insert(events, ev))
  {
    if events == [] || events[|events| - 1].at <= ev.at {
      SnocInOrder(events, ev);
    } else {
      var front, last := events[..|events| - 1], events[|events| - 1];
      InsertInOrder(front, ev);
      InsertKeeps(front, ev);
      forall x | x in Insert(front, ev) ensures x.at <= last.at {
        assert x in multiset(Insert(front, ev));
        assert x in front || x == ev;
      }
      SnocInOrder(Insert(front, ev), last);
    }
  }

  function AtTime(t: int): Event -> bool { (ev: Event) => ev.at == t }

  lemma {:induction false} InsertStable(events: seq<Event>, ev: Event, t: int)
    requires InTimeOrder(events)
    ensures Filter(Insert(events, ev), AtTime(t)) == Filter(events + [ev], AtTime(t))
  {
    if events != [] && events[|events| - 1].at > ev.at {
      var front, last := events[..|events| - 1], events[|events| - 1];
      InsertStable(front, ev, t);
      FilterSnoc(Insert(front, ev), last, AtTime(t));
      FilterSnoc(front, ev, AtTime(t));
      FilterSnoc(events, ev, AtTime(t));
      assert events == front + [last];
      FilterSnoc(front, last, AtTime(t));
    }
  }

  /** Simultaneous events keep their given order. */
  lemma {:induction false} ByTimeStable(events: seq<Event>, t: int)
    ensures Filter(ByTime(events), AtTime(t)) == Filter(events, AtTime(t))
  {
    if events != [] {
      var front, last := events[..|events| - 1], events[|events| - 1];
      assert events == front + [last];
      ByTimeStable(front, t);
      ByTimeSound(front);
      InsertStable(ByTime(front), last, t);
      FilterSnoc(ByTime(front), last, AtTime(t));
      FilterSnoc(front, last, AtTime(t));
    }
  }

  /** Sorting gives time order and neither drops nor adds an event. */
  lemma {:induction false} ByTimeSound(events: seq<Event>)
    ensures InTimeOrder(ByTime(events)) && multiset(ByTime(events)) == multiset(events)
  {
    if events != [] {
      var front, last := events[..|events| - 1], events[|events| - 1];
      assert events == front + [last];
      ByTimeSound(front);
      InsertInOrder(ByTime(front), last);
      InsertKeeps(ByTime(front), last);
    }
  }

  // ---- The running clock

  /** Closed spans by the property they started at, closed lunches, and what is still open. */
  datatype Clock = Clock(gross: DayMinutes, shift: int, openIn: Option<Event>, lunch: int, openLunch: Option<int>)

  /** Whole minutes between two times, rounded down. */
  function Between(start: int, end: int): (m: int)
    ensures 60 * m <= end - start < 60 * (m + 1)
  {
    (end - start) / 60
  }

  function Credited(gross: DayMinutes, o: Option<Property>, span: int): DayMinutes {
    gross[o := (if o in gross then gross[o] else 0) + span]
  }

  /** A span belongs to where it started; an end with nothing open counts for nothing. */
  function Tick(c: Clock, ev: Event): Clock {
    match ev.kind
    case ClockIn => c.(openIn := Some(ev))
    case ClockOut =>
      if c.openIn.None? then c
      else
        var span := Between(c.openIn.value.at, ev.at);
        c.(shift := c.shift + span, gross := Credited(c.gross, c.openIn.value.property, span), openIn := None)
    case LunchStart => c.(openLunch := Some(ev.at))
    case LunchEnd =>
      if c.openLunch.None? then c else c.(lunch := c.lunch + Between(c.openLunch.value, ev.at), openLunch := None)
  }

  function Watch(events: seq<Event>): Clock {
    if events == [] then Clock(map[], 0, None, 0, None)
    else Tick(Watch(events[..|events| - 1]), events[|events| - 1])
  }

  // What the clock should count, read off neighbouring punches: a span is a clock-in with a clock-out as the very next
  // clock punch, a lunch a start with an end as the very next lunch punch.

  function ClockPunch(): Event -> bool { (ev: Event) => ev.kind.ClockIn? || ev.kind.ClockOut? }

  function LunchPunch(): Event -> bool { (ev: Event) => ev.kind.LunchStart? || ev.kind.LunchEnd? }

  function LastOf(events: seq<Event>, p: Event -> bool): Option<Event> {
    if events == [] then None
    else if p(events[|events| - 1]) then Some(events[|events| - 1])
    else LastOf(events[..|events| - 1], p)
  }

  /** Minutes of all spans begun at `o`. */
  function SpanMinutes(events: seq<Event>, o: Option<Property>): int {
    if events == [] then 0
    else
      var front, ev := events[..|events| - 1], events[|events| - 1];
      var was := LastOf(front, ClockPunch());
      SpanMinutes(front, o)
      + if ev.kind.ClockOut? && was.Some? && was.value.kind.ClockIn? && was.value.property == o
        then Between(was.value.at, ev.at) else 0
  }

  function LunchMinutes(events: seq<Event>): int {
    if events == [] then 0
    else
      var front, ev := events[..|events| - 1], events[|events| - 1];
      var was := LastOf(front, LunchPunch());
      LunchMinutes(front)
      + if ev.kind.LunchEnd? && was.Some? && was.value.kind.LunchStart? then Between(was.value.at, ev.at) else 0
  }

  ghost predicate Counts(c: Clock, events: seq<Event>) {
    var punch, meal := LastOf(events, ClockPunch()), LastOf(events, LunchPunch());
    && c.openIn == (if punch.Some? && punch.value.kind.ClockIn? then punch else None)
    && c.openLunch == (if meal.Some? && meal.value.kind.LunchStart? then Some(meal.value.at) else None)
    && c.lunch == LunchMinutes(events)
    && forall o :: (if o in c.gross then c.gross[o] else 0) == SpanMinutes(events, o)
  }

  lemma TickCounts(c: Clock, front: seq<Event>, ev: Event, events: seq<Event>)
    requires Counts(c, front) && events == front + [ev]
    ensures Counts(Tick(c, ev), events)
  {
    assert events[..|events| - 1] == front;
  }

  /** The clock counts each span to the property it began at, each lunch once, and nothing that was never closed. */
  lemma {:induction false} WatchCounts(events: seq<Event>)
    ensures Counts(Watch(events), events)
  {
    if events != [] {
      var front, ev := events[..|events| - 1], events[|events| - 1];
      WatchCounts(front);
      TickCounts(Watch(front), front, ev, events);
    }
  }

  /** No property is called as an unrecorded one prints. */
  ghost predicate Nameable(events: seq<Event>) { forall ev :: ev in events ==> ev.property != Some(UNRECORDED) }

  /** At any moment: the shift is the spans' sum, nothing is negative, and what is open was opened by now. */
  ghost predicate Running(c: Clock, now: int) {
    && Spans(c.gross) && c.shift == MinutesOf(c.gross) && c.lunch >= 0
    && (c.openIn.Some? ==> c.openIn.value.at <= now && c.openIn.value.property != Some(UNRECORDED))
    && (c.openLunch.Some? ==> c.openLunch.value <= now)
  }

  lemma CreditedRecorded(gross: DayMinutes, p: Property, span: int)
    ensures Recorded(Credited(gross, Some(p), span)) == Plus(Recorded(gross), map[p := span])
    ensures Unrecorded(Credited(gross, Some(p), span)) == Unrecorded(gross)
  {
    var after := Credited(gross, Some(p), span);
    assert forall q: Property :: Some(q) in after <==> Some(q) in gross || q == p;
  }

  lemma CreditedUnrecorded(gross: DayMinutes, span: int)
    ensures Recorded(Credited(gross, None, span)) == Recorded(gross)
    ensures Unrecorded(Credited(gross, None, span)) == Unrecorded(gross) + span
  {
    assert forall p: Property :: Some(p) in Credited(gross, None, span) <==> Some(p) in gross;
  }

  lemma CreditedTotal(gross: DayMinutes, o: Option<Property>, span: int)
    ensures MinutesOf(Credited(gross, o, span)) == MinutesOf(gross) + span
  {
    if o.None? {
      CreditedUnrecorded(gross, span);
    } else {
      CreditedRecorded(gross, o.value, span);
      TotalPlus(Recorded(gross), map[o.value := span]);
      SingleTotal(o.value, span);
    }
  }

  lemma CreditedSpans(gross: DayMinutes, o: Option<Property>, span: int)
    requires Spans(gross) && o != Some(UNRECORDED) && span >= 0
    ensures Spans(Credited(gross, o, span))
  {
  }

  lemma CreditedRuns(gross: DayMinutes, o: Option<Property>, span: int)
    requires Spans(gross) && o != Some(UNRECORDED) && span >= 0
    ensures Spans(Credited(gross, o, span)) && MinutesOf(Credited(gross, o, span)) == MinutesOf(gross) + span
  {
    CreditedTotal(gross, o, span);
    CreditedSpans(gross, o, span);
  }

  lemma TickRuns(c: Clock, ev: Event, now: int)
    requires Running(c, now) && now <= ev.at && ev.property != Some(UNRECORDED)
    ensures Running(Tick(c, ev), ev.at)
  {
    if ev.kind.ClockOut? && c.openIn.Some? {
      CreditedRuns(c.gross, c.openIn.value.property, Between(c.openIn.value.at, ev.at));
    }
  }

  lemma {:induction false} WatchRuns(events: seq<Event>)
    requires InTimeOrder(events) && Nameable(events)
    ensures Running(Watch(events), if events == [] then 0 else events[|events| - 1].at)
  {
    if events == [] {
      EmptyTotal(Recorded(map[]));
    } else {
      var front, ev := events[..|events| - 1], events[|events| - 1];
      WatchRuns(front);
      TickRuns(Watch(front), ev, if front == [] then ev.at else front[|front| - 1].at);
    }
  }

  /** Shift less lunch, never negative. */
  function Net(shift: int, lunch: int): nat { if shift > lunch then shift - lunch else 0 }

  function DayWith(date: Day, worked: int, split: Result<DayMinutes, ApportionError>): Result<DayResult, ApportionError> {
    match split
    case Ok(minutes) => Ok(DayResult(date, worked, minutes))
    case Err(why) => Err(why)
  }

  function DayFrom(date: Day, gross: DayMinutes, worked: int): Result<DayResult, ApportionError> {
    DayWith(date, worked, WorkedSplit(worked, gross))
  }

  function DayOf(date: Day, events: seq<Event>): Result<DayResult, ApportionError> {
    var c := Watch(ByTime(events));
    DayFrom(date, c.gross, Net(c.shift, c.lunch))
  }

  lemma SpansTotal(gross: DayMinutes)
    requires Spans(gross)
    ensures MinutesOf(gross) >= 0
  {
    NamedNonNegative(gross);
    NamedTotal(gross);
    PositiveTotal(Named(gross));
  }

  lemma DayWithSound(date: Day, worked: nat, split: Result<DayMinutes, ApportionError>)
    requires split.Ok? && AllPositive(split.value) && MinutesOf(split.value) == worked
    ensures var r := DayWith(date, worked, split);
      && r.Ok? && r.value.worked == worked && AllPositive(r.value.minutes) && MinutesOf(r.value.minutes) == worked
  {
  }

  lemma DayFromSound(date: Day, gross: DayMinutes, worked: nat)
    requires Spans(gross) && worked <= MinutesOf(gross)
    ensures var r := DayFrom(date, gross, worked);
      && r.Ok? && r.value.worked == worked && AllPositive(r.value.minutes) && MinutesOf(r.value.minutes) == worked
  {
    WorkedSplitSound(worked, gross);
    DayWithSound(date, worked, WorkedSplit(worked, gross));
  }

  // The same minutes of all properties together.

  function AllSpanMinutes(events: seq<Event>): int {
    if events == [] then 0
    else
      var front, ev := events[..|events| - 1], events[|events| - 1];
      var was := LastOf(front, ClockPunch());
      AllSpanMinutes(front)
      + if ev.kind.ClockOut? && was.Some? && was.value.kind.ClockIn? then Between(was.value.at, ev.at) else 0
  }

  lemma {:induction false} ShiftCounts(events: seq<Event>)
    ensures Watch(events).shift == AllSpanMinutes(events)
  {
    if events != [] {
      ShiftCounts(events[..|events| - 1]);
      WatchCounts(events[..|events| - 1]);
    }
  }

  /** The minutes worked, read off neighbouring punches in time order: all spans less all lunches, never negative. */
  lemma WorkedExact(date: Day, events: seq<Event>)
    requires Nameable(events)
    ensures var ordered := ByTime(events);
      var net := AllSpanMinutes(ordered) - LunchMinutes(ordered);
      DayOf(date, events).Ok? && DayOf(date, events).value.date == date
      && DayOf(date, events).value.worked == if net > 0 then net else 0
  {
    var c := Watch(ByTime(events));
    WatchCounts(ByTime(events));
    ShiftCounts(ByTime(events));
    DaySound(date, events);
    DayFields(date, c.gross, Net(c.shift, c.lunch));
  }

  /** A day's split is fair: each property's minutes are within one of its own spans' proportion of the minutes worked. */
  lemma DayFair(date: Day, events: seq<Event>, o: Option<Property>)
    requires Nameable(events) && DayOf(date, events).Ok? && DayOf(date, events).value.worked > 0
    ensures var day := DayOf(date, events).value;
      Proportional(MinutesAt(day.minutes, o), day.worked, SpanMinutes(ByTime(events), o), AllSpanMinutes(ByTime(events)))
  {
    var ordered := ByTime(events);
    var c := Watch(ordered);
    ClockRuns(events);
    WatchCounts(ordered);
    ShiftCounts(ordered);
    WorkedExact(date, events);
    DayMinutesOf(date, c.gross, Net(c.shift, c.lunch));
    WorkedSplitSound(Net(c.shift, c.lunch), c.gross);
    if o in c.gross {
      WorkedSplitFair(Net(c.shift, c.lunch), c.gross, o);
    }
  }

  lemma DayMinutesOf(date: Day, gross: DayMinutes, worked: int)
    ensures DayFrom(date, gross, worked).Ok? ==> WorkedSplit(worked, gross) == Ok(DayFrom(date, gross, worked).value.minutes)
  {
  }

  lemma ClockRuns(events: seq<Event>)
    requires Nameable(events)
    ensures var c := Watch(ByTime(events)); Spans(c.gross) && c.shift == MinutesOf(c.gross) && c.lunch >= 0
  {
    var ordered := ByTime(events);
    ByTimeSound(events);
    forall ev | ev in ordered ensures ev in events {
      assert ev in multiset(ordered);
    }
    WatchRuns(ordered);
  }

  lemma DayFields(date: Day, gross: DayMinutes, worked: int)
    ensures DayFrom(date, gross, worked).Ok? ==>
      DayFrom(date, gross, worked).value.worked == worked && DayFrom(date, gross, worked).value.date == date
  {
  }

  /** For every list of events, in any order: the day is never refused, every property's minutes are positive, and
      together they are exactly the minutes worked. */
  lemma DaySound(date: Day, events: seq<Event>)
    requires Nameable(events)
    ensures var r := DayOf(date, events);
      && r.Ok? && r.value.worked >= 0 && AllPositive(r.value.minutes) && MinutesOf(r.value.minutes) == r.value.worked
  {
    var c := Watch(ByTime(events));
    ClockRuns(events);
    SpansTotal(c.gross);
    DayFromSound(date, c.gross, Net(c.shift, c.lunch));
  }

  // ---- The procedure

  /** Walk the events in order, closing spans and lunches. */
  method WatchEvents(ordered: seq<Event>) returns (gross: DayMinutes, shift: int, lunch: int)
    ensures gross == Watch(ordered).gross && shift == Watch(ordered).shift && lunch == Watch(ordered).lunch
  {
    gross, shift, lunch := map[], 0, 0;
    var openIn: Option<Event>, openLunch: Option<int> := None, None;
    for i := 0 to |ordered|
      invariant Watch(ordered[..i]) == Clock(gross, shift, openIn, lunch, openLunch)
    {
      var ev := ordered[i];
      assert ordered[..i + 1][..i] == ordered[..i];
      match ev.kind {
        case ClockIn => openIn := Some(ev);
        case ClockOut =>
          if openIn.Some? {
            var span := Between(openIn.value.at, ev.at);
            shift := shift + span;
            gross := Credited(gross, openIn.value.property, span);
            openIn := None;
          }
        case LunchStart => openLunch := Some(ev.at);
        case LunchEnd =>
          if openLunch.Some? {
            lunch := lunch + Between(openLunch.value, ev.at);
            openLunch := None;
          }
      }
    }
    assert ordered[..|ordered|] == ordered;
  }

  /** The day's events in time order, then what was worked split over its spans. */
  method ComputeDay(date: Day, events: seq<Event>) returns (r: Result<DayResult, ApportionError>)
    ensures r == DayOf(date, events)
    ensures Nameable(events) ==> r.Ok?
    ensures r.Ok? && Nameable(events) ==> r.value.worked == Net(AllSpanMinutes(ByTime(events)), LunchMinutes(ByTime(events)))
  {
    if Nameable(events) {
      WorkedExact(date, events);
    }
    var gross, shift, lunch := WatchEvents(ByTime(events));
    r := DayFrom(date, gross, Net(shift, lunch));
  }
}
