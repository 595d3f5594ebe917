/** The demand feed: an append-only log of pulls, read per stay date by the newest covering batch. */
module DemandFeed {
  import opened Prelude
  import opened Sums
  import opened Ordering
  import opened Gregorian

  datatype Demand = Demand(roomsOnBooks: Option<nat>, groupRooms: Option<nat>, eventCovers: Option<nat>, labels: string)

  datatype PullDay = PullDay(stay: Day, demand: Demand)

  /** One pull: it speaks for every date of its horizon, by silence too. */
  datatype Batch = Batch(id: nat, property: string, provider: string, start: Day, end: Day, pulledAt: int)

  datatype Snapshot = Snapshot(batch: nat, stay: Day, demand: Demand)

  datatype Read = Read(stay: Day, demand: Demand, batch: nat, pulledAt: int, provider: string)

  datatype FeedError = DuplicateDate | OutsideHorizon | EmptyHorizon

  predicate Covers(b: Batch, d: Day) { b.start <= d <= b.end }

  // ---- What one batch says

  /** The batch's figure for the date, or silence. */
  function Said(snaps: seq<Snapshot>, id: nat, d: Day): Option<Demand> {
    if snaps == [] then None
    else if snaps[0].batch == id && snaps[0].stay == d then Some(snaps[0].demand)
    else Said(snaps[1..], id, d)
  }

  function Voice(snaps: seq<Snapshot>, b: Batch, d: Day): Option<Read> {
    match Said(snaps, b.id, d)
    case None => None
    case Some(x) => Some(Read(d, x, b.id, b.pulledAt, b.provider))
  }

  lemma {:induction false} SaidSomewhere(snaps: seq<Snapshot>, id: nat, d: Day)
    ensures Said(snaps, id, d).Some? <==> exists s :: s in snaps && s.batch == id && s.stay == d
  {
    if snaps != [] {
      SaidSomewhere(snaps[1..], id, d);
      assert snaps == [snaps[0]] + snaps[1..];
    }
  }

  lemma {:induction false} SaidConcat(xs: seq<Snapshot>, ys: seq<Snapshot>, id: nat, d: Day)
    ensures Said(xs + ys, id, d) == if Said(xs, id, d).Some? then Said(xs, id, d) else Said(ys, id, d)
  {
    if xs == [] {
      assert xs + ys == ys;
    } else {
      assert (xs + ys)[1..] == xs[1..] + ys;
      SaidConcat(xs[1..], ys, id, d);
    }
  }

  // ---- Batches, newest first

  /** Later pull first; the batch id breaks a tie. */
  predicate NewerEq(a: Batch, b: Batch) { a.pulledAt > b.pulledAt || (a.pulledAt == b.pulledAt && a.id >= b.id) }

  /** Ids are positions in the log, so no two batches share one. */
  ghost predicate Numbered(batches: seq<Batch>) { forall i :: 0 <= i < |batches| ==> batches[i].id == i }

  lemma NewerTotal(batches: seq<Batch>, s: set<Batch>)
    requires Numbered(batches) && forall b :: b in s ==> b in batches
    ensures TotalOn(s, NewerEq)
  {
  }

  function OfProperty(batches: seq<Batch>, p: string): set<Batch> { set b | b in batches && b.property == p }

  /** The property's batches whose horizon meets the window. */
  function Meeting(batches: seq<Batch>, p: string, start: Day, end: Day): set<Batch> {
    set b | b in batches && b.property == p && b.start <= end && b.end >= start
  }

  function NewestFirst(batches: seq<Batch>, s: set<Batch>): seq<Batch>
    requires Numbered(batches) && forall b :: b in s ==> b in batches
  {
    NewerTotal(batches, s);
    SortedSet(s, NewerEq)
  }

  lemma NewestFirstSound(batches: seq<Batch>, s: set<Batch>)
    requires Numbered(batches) && forall b :: b in s ==> b in batches
    ensures Ascending(NewestFirst(batches, s), NewerEq) && forall b :: b in NewestFirst(batches, s) <==> b in s
  {
    NewerTotal(batches, s);
    SortedSetSound(s, NewerEq);
  }

  // ---- Reading

  function VoiceOf(snaps: seq<Snapshot>, d: Day): Batch -> seq<Option<Read>> {
    (b: Batch) => if Covers(b, d) then [Voice(snaps, b, d)] else []
  }

  /** One voice per batch covering the date, in the order of the batches. */
  function History(bs: seq<Batch>, snaps: seq<Snapshot>, d: Day): seq<Option<Read>> { FlatMap(bs, VoiceOf(snaps, d)) }

  /** Dates of the window some listed batch stated a figure for. */
  function SpokenDates(bs: seq<Batch>, snaps: seq<Snapshot>, start: Day, end: Day): set<Day> {
    set s, b | s in snaps && b in bs && s.batch == b.id && start <= s.stay <= end :: s.stay
  }

  function Heard(history: seq<Option<Read>>): Option<Read> { if history == [] then None else history[0] }

  function Previous(history: seq<Option<Read>>): Option<Read> { if |history| > 1 then history[1] else None }

  /** Current demand over a window, by date. */
  function Current(batches: seq<Batch>, snaps: seq<Snapshot>, p: string, start: Day, end: Day): map<Day, Read>
    requires Numbered(batches)
  {
    var bs := NewestFirst(batches, Meeting(batches, p, start, end));
    map d | d in SpokenDates(bs, snaps, start, end) && Heard(History(bs, snaps, d)).Some? :: Heard(History(bs, snaps, d)).value
  }

  // ---- The simple model: replay every pull over one map

  /** A pull erases its whole horizon and writes its own days. */
  ghost function Overwrite(m: imap<Day, Read>, b: Batch, snaps: seq<Snapshot>): imap<Day, Read> {
    imap d | (if Covers(b, d) then Voice(snaps, b, d).Some? else d in m)
      :: if Covers(b, d) then Voice(snaps, b, d).value else m[d]
  }

  /** Replaying from the oldest pull, the end of the list, to the newest, its head. */
  ghost function Replay(bs: seq<Batch>, snaps: seq<Snapshot>): imap<Day, Read> {
    if bs == [] then imap[] else Overwrite(Replay(bs[1..], snaps), bs[0], snaps)
  }

  /** All of the property's pulls, replayed in order. */
  ghost function Replayed(batches: seq<Batch>, snaps: seq<Snapshot>, p: string): imap<Day, Read>
    requires Numbered(batches)
  {
    Replay(NewestFirst(batches, OfProperty(batches, p)), snaps)
  }

  /** The newest covering voice is what the replay leaves on the date. */
  lemma {:induction false} HeardIsReplayed(bs: seq<Batch>, snaps: seq<Snapshot>, d: Day)
    ensures d in Replay(bs, snaps) <==> Heard(History(bs, snaps, d)).Some?
    ensures d in Replay(bs, snaps) ==> Replay(bs, snaps)[d] == Heard(History(bs, snaps, d)).value
  {
    if bs != [] {
      HeardIsReplayed(bs[1..], snaps, d);
      if !Covers(bs[0], d) {
        assert History(bs, snaps, d) == [] + History(bs[1..], snaps, d) == History(bs[1..], snaps, d);
      }
    }
  }

  function Meets(start: Day, end: Day): Batch -> bool { (b: Batch) => b.start <= end && b.end >= start }

  /** Batches that miss the window say nothing about its dates. */
  lemma {:induction false} HistoryFiltered(bs: seq<Batch>, snaps: seq<Snapshot>, start: Day, end: Day, d: Day)
    requires start <= d <= end
    ensures History(Filter(bs, Meets(start, end)), snaps, d) == History(bs, snaps, d)
  {
    if bs != [] {
      HistoryFiltered(bs[1..], snaps, start, end, d);
      var rest := Filter(bs[1..], Meets(start, end));
      if Meets(start, end)(bs[0]) {
        assert Filter(bs, Meets(start, end)) == [bs[0]] + rest;
        assert ([bs[0]] + rest)[1..] == rest;
      } else {
        assert Filter(bs, Meets(start, end)) == [] + rest == rest;
        assert History(bs, snaps, d) == [] + History(bs[1..], snaps, d);
      }
    }
  }

  lemma {:induction false} FilterAscending(bs: seq<Batch>, p: Batch -> bool)
    requires Ascending(bs, NewerEq)
    ensures Ascending(Filter(bs, p), NewerEq)
  {
    if bs != [] {
      FilterAscending(bs[1..], p);
      var rest := Filter(bs[1..], p);
      if p(bs[0]) {
        forall b | b in rest ensures b != bs[0] && NewerEq(bs[0], b) {
          FilterMembers(bs[1..], p, b);
          var i :| 1 <= i < |bs| && bs[i] == b;
        }
        ConsAscending(bs[0], rest, NewerEq);
      } else {
        assert Filter(bs, p) == [] + rest == rest;
      }
    }
  }

  /** The window's batches are the property's, with the ones that miss the window left out and the order kept. */
  lemma MeetingIsFiltered(batches: seq<Batch>, p: string, start: Day, end: Day)
    requires Numbered(batches)
    ensures NewestFirst(batches, Meeting(batches, p, start, end))
         == Filter(NewestFirst(batches, OfProperty(batches, p)), Meets(start, end))
  {
    var few, all := Meeting(batches, p, start, end), OfProperty(batches, p);
    NewestFirstSound(batches, few);
    NewestFirstSound(batches, all);
    NewerTotal(batches, few);
    var kept := Filter(NewestFirst(batches, all), Meets(start, end));
    FilterAscending(NewestFirst(batches, all), Meets(start, end));
    forall b ensures b in kept <==> b in few { FilterMembers(NewestFirst(batches, all), Meets(start, end), b); }
    AscendingUnique(NewestFirst(batches, few), kept, few, NewerEq);
  }

  /** A date of the window with a current figure was spoken about. */
  lemma HeardWasSpoken(bs: seq<Batch>, snaps: seq<Snapshot>, start: Day, end: Day, d: Day)
    requires start <= d <= end && Heard(History(bs, snaps, d)).Some?
    ensures d in SpokenDates(bs, snaps, start, end)
  {
    var b := FlatMapOrigin(bs, VoiceOf(snaps, d), History(bs, snaps, d)[0]);
    SaidSomewhere(snaps, b.id, d);
    var s :| s in snaps && s.batch == b.id && s.stay == d;
  }

  /** Current demand refines the simple map: over any window it is the replay of all the property's pulls, in pull order,
      each erasing its horizon and writing its days, restricted to the window. */
  lemma CurrentRefinesReplay(batches: seq<Batch>, snaps: seq<Snapshot>, p: string, start: Day, end: Day, d: Day)
    requires Numbered(batches) && start <= d <= end
    ensures d in Current(batches, snaps, p, start, end) <==> d in Replayed(batches, snaps, p)
    ensures d in Current(batches, snaps, p, start, end) ==>
      Current(batches, snaps, p, start, end)[d] == Replayed(batches, snaps, p)[d]
  {
    var bs, all := NewestFirst(batches, Meeting(batches, p, start, end)), NewestFirst(batches, OfProperty(batches, p));
    MeetingIsFiltered(batches, p, start, end);
    HistoryFiltered(all, snaps, start, end, d);
    HeardIsReplayed(all, snaps, d);
    if Heard(History(bs, snaps, d)).Some? {
      HeardWasSpoken(bs, snaps, start, end, d);
    }
  }

  /** Nothing outside the window is reported. */
  lemma CurrentWithinWindow(batches: seq<Batch>, snaps: seq<Snapshot>, p: string, start: Day, end: Day, d: Day)
    requires Numbered(batches) && d in Current(batches, snaps, p, start, end)
    ensures start <= d <= end && Current(batches, snaps, p, start, end)[d].stay == d
  {
    var bs := NewestFirst(batches, Meeting(batches, p, start, end));
    var b := FlatMapOrigin(bs, VoiceOf(snaps, d), History(bs, snaps, d)[0]);
  }

  /** Reading a sub-window agrees with reading a wider one. */
  lemma SubWindowsAgree(batches: seq<Batch>, snaps: seq<Snapshot>, p: string, start: Day, end: Day, a: Day, b: Day, d: Day)
    requires Numbered(batches) && start <= a <= d <= b <= end
    ensures d in Current(batches, snaps, p, a, b) <==> d in Current(batches, snaps, p, start, end)
    ensures d in Current(batches, snaps, p, a, b) ==>
      Current(batches, snaps, p, a, b)[d] == Current(batches, snaps, p, start, end)[d]
  {
    CurrentRefinesReplay(batches, snaps, p, a, b, d);
    CurrentRefinesReplay(batches, snaps, p, start, end, d);
  }

  // ---- Current demand from the log itself

  /** Batch `b` is the property's newest one covering the date: the latest pull, the larger id between simultaneous ones. */
  ghost predicate NewestOver(batches: seq<Batch>, p: string, d: Day, b: Batch) {
    && b in batches && b.property == p && b.start <= d <= b.end
    && forall o :: o in batches && o.property == p && o.start <= d <= o.end ==>
         o == b || o.pulledAt < b.pulledAt || (o.pulledAt == b.pulledAt && o.id < b.id)
  }

  lemma {:induction false} ReplayOfNewest(bs: seq<Batch>, snaps: seq<Snapshot>, d: Day, b: Batch)
    requires Ascending(bs, NewerEq) && b in bs && Covers(b, d)
    requires forall o :: o in bs && Covers(o, d) ==> NewerEq(b, o)
    requires forall o :: o in bs && NewerEq(o, b) && NewerEq(b, o) ==> o == b
    ensures d in Replay(bs, snaps) <==> Voice(snaps, b, d).Some?
    ensures d in Replay(bs, snaps) ==> Replay(bs, snaps)[d] == Voice(snaps, b, d).value
  {
    if bs[0] != b {
      var i :| 1 <= i < |bs| && bs[i] == b;
      assert NewerEq(bs[0], bs[i]);
      assert b == bs[1..][i - 1];
      ReplayOfNewest(bs[1..], snaps, d, b);
    }
  }

  lemma {:induction false} ReplayOfNone(bs: seq<Batch>, snaps: seq<Snapshot>, d: Day)
    requires forall o :: o in bs ==> !Covers(o, d)
    ensures d !in Replay(bs, snaps)
  {
    if bs != [] {
      ReplayOfNone(bs[1..], snaps, d);
    }
  }

  /** Read off the log: a date has demand exactly when the property's newest batch covering it has a row for it, and the
      figure is that row's; a date no batch covers has none. */
  lemma ReplayedIsNewest(batches: seq<Batch>, snaps: seq<Snapshot>, p: string, d: Day)
    requires Numbered(batches)
    ensures forall b :: NewestOver(batches, p, d, b) ==>
      (d in Replayed(batches, snaps, p) <==> exists s :: s in snaps && s.batch == b.id && s.stay == d)
    ensures forall b :: NewestOver(batches, p, d, b) && d in Replayed(batches, snaps, p) ==>
      exists s :: s in snaps && s.batch == b.id && s.stay == d
        && Replayed(batches, snaps, p)[d] == Read(d, s.demand, b.id, b.pulledAt, b.provider)
    ensures (forall b :: b in batches && b.property == p ==> !(b.start <= d <= b.end)) ==> d !in Replayed(batches, snaps, p)
  {
    var bs := NewestFirst(batches, OfProperty(batches, p));
    NewestFirstSound(batches, OfProperty(batches, p));
    forall b | NewestOver(batches, p, d, b)
      ensures d in Replayed(batches, snaps, p) <==> exists s :: s in snaps && s.batch == b.id && s.stay == d
      ensures d in Replayed(batches, snaps, p) ==>
        exists s :: s in snaps && s.batch == b.id && s.stay == d
          && Replayed(batches, snaps, p)[d] == Read(d, s.demand, b.id, b.pulledAt, b.provider)
    {
      SameNewest(batches, bs, b);
      ReplayOfNewest(bs, snaps, d, b);
      SaidSomewhere(snaps, b.id, d);
      SaidByRow(snaps, b.id, d);
    }
    if forall b :: b in batches && b.property == p ==> !(b.start <= d <= b.end) {
      ReplayOfNone(bs, snaps, d);
    }
  }

  /** A date some batch of the property covers has a newest one. */
  lemma NewestExists(batches: seq<Batch>, p: string, d: Day)
    requires Numbered(batches) && exists b :: b in batches && b.property == p && b.start <= d <= b.end
    ensures exists b :: NewestOver(batches, p, d, b)
  {
    var covering := set b | b in batches && b.property == p && b.start <= d <= b.end;
    NewerTotal(batches, covering);
    var some :| some in batches && some.property == p && some.start <= d <= some.end;
    assert some in covering;
    LeastExists(covering, NewerEq);
    var b :| b in covering && forall o :: o in covering ==> NewerEq(b, o);
    SameNewest(batches, batches, b);
    assert NewestOver(batches, p, d, b);
  }

  lemma SameNewest(batches: seq<Batch>, bs: seq<Batch>, b: Batch)
    requires Numbered(batches) && b in batches && forall o :: o in bs ==> o in batches
    ensures forall o :: o in bs && NewerEq(o, b) && NewerEq(b, o) ==> o == b
  {
  }

  lemma {:induction false} SaidByRow(snaps: seq<Snapshot>, id: nat, d: Day)
    ensures Said(snaps, id, d).Some? ==>
      exists s :: s in snaps && s.batch == id && s.stay == d && s.demand == Said(snaps, id, d).value
  {
    if snaps != [] {
      SaidByRow(snaps[1..], id, d);
      assert snaps == [snaps[0]] + snaps[1..];
    }
  }

  // ---- Pace

  /** The batches with the newest one covering the date taken out. */
  function WithoutNewest(bs: seq<Batch>, d: Day): seq<Batch> {
    if bs == [] then []
    else if Covers(bs[0], d) then bs[1..]
    else [bs[0]] + WithoutNewest(bs[1..], d)
  }

  lemma {:induction false} HistoryWithoutNewest(bs: seq<Batch>, snaps: seq<Snapshot>, d: Day)
    ensures History(WithoutNewest(bs, d), snaps, d)
         == if History(bs, snaps, d) == [] then [] else History(bs, snaps, d)[1..]
  {
    if bs != [] {
      if Covers(bs[0], d) {
        assert History(bs, snaps, d)[1..] == History(bs[1..], snaps, d);
      } else {
        HistoryWithoutNewest(bs[1..], snaps, d);
        var rest := WithoutNewest(bs[1..], d);
        assert ([bs[0]] + rest)[1..] == rest;
        assert History(bs, snaps, d) == [] + History(bs[1..], snaps, d) == History(bs[1..], snaps, d);
        assert History([bs[0]] + rest, snaps, d) == [] + History(rest, snaps, d) == History(rest, snaps, d);
      }
    }
  }

  /** The previous figure a pace compares with is what current demand would be on that date without its newest covering
      pull, or nothing if that says nothing. */
  lemma PreviousIsReplayWithoutNewest(bs: seq<Batch>, snaps: seq<Snapshot>, d: Day)
    ensures var older, prev := Replay(WithoutNewest(bs, d), snaps), Previous(History(bs, snaps, d));
      (d in older <==> prev.Some?) && (d in older ==> older[d] == prev.value)
  {
    HistoryWithoutNewest(bs, snaps, d);
    HeardIsReplayed(WithoutNewest(bs, d), snaps, d);
  }

  // ---- The reports

  type Voices = map<Day, seq<Option<Read>>>

  datatype PaceDay = PaceDay(stay: Day, current: Read, previous: Option<Read>)

  function AllVoices(batches: seq<Batch>, snaps: seq<Snapshot>, p: string, start: Day, end: Day): Voices
    requires Numbered(batches)
  {
    var bs := NewestFirst(batches, Meeting(batches, p, start, end));
    map d | d in SpokenDates(bs, snaps, start, end) :: History(bs, snaps, d)
  }

  function HistoryIn(voices: Voices, d: Day): seq<Option<Read>> { if d in voices then voices[d] else [] }

  function ReadOn(voices: Voices): Day -> seq<Read> {
    (d: Day) => if Heard(HistoryIn(voices, d)).Some? then [Heard(HistoryIn(voices, d)).value] else []
  }

  function PaceOn(voices: Voices): Day -> seq<PaceDay> {
    (d: Day) =>
      if Heard(HistoryIn(voices, d)).Some?
      then [PaceDay(d, Heard(HistoryIn(voices, d)).value, Previous(HistoryIn(voices, d)))]
      else []
  }

  /** The current figures in date order; a date whose newest voice is silence is left out. */
  function LatestOf(voices: Voices): seq<Read> { FlatMap(SortedInts(voices.Keys), ReadOn(voices)) }

  function PaceOf(voices: Voices): seq<PaceDay> { FlatMap(SortedInts(voices.Keys), PaceOn(voices)) }

  function Currents(pace: seq<PaceDay>): seq<Read> {
    if pace == [] then [] else [pace[0].current] + Currents(pace[1..])
  }

  ghost predicate DatesRise(found: seq<Read>) {
    forall i, j :: 0 <= i < j < |found| ==> found[i].stay < found[j].stay
  }

  lemma RiseCons(r: Read, rest: seq<Read>)
    requires DatesRise(rest) && forall x :: x in rest ==> r.stay < x.stay
    ensures DatesRise([r] + rest)
  {
    var found := [r] + rest;
    forall i, j | 0 <= i < j < |found| ensures found[i].stay < found[j].stay {
      assert found[j] == rest[j - 1] && rest[j - 1] in rest;
    }
  }

  /** The report lists exactly the demand the map holds on the window, in date order. */
  ghost predicate ReadsReplay(found: seq<Read>, m: imap<Day, Read>, start: Day, end: Day) {
    && DatesRise(found)
    && (forall r :: r in found ==> start <= r.stay <= end && r.stay in m && m[r.stay] == r)
    && (forall d :: start <= d <= end && d in m ==> m[d] in found)
  }

  /** At most one read per date, dated so: over ascending dates the reads rise. */
  lemma {:induction false} ListedRises(ds: seq<Day>, f: Day -> seq<Read>)
    requires Ascending(ds, IntLe)
    requires forall d :: d in ds ==> |f(d)| <= 1 && forall r :: r in f(d) ==> r.stay == d
    ensures DatesRise(FlatMap(ds, f))
  {
    if ds != [] {
      var rest, d := FlatMap(ds[1..], f), ds[0];
      ListedRises(ds[1..], f);
      assert d in ds;
      if f(d) == [] {
        assert FlatMap(ds, f) == [] + rest == rest;
      } else {
        var r := f(d)[0];
        assert f(d) == [r] && r in f(d);
        forall x | x in rest ensures r.stay < x.stay {
          var e := FlatMapOrigin(ds[1..], f, x);
          var i :| 1 <= i < |ds| && ds[i] == e;
        }
        RiseCons(r, rest);
      }
    }
  }

  lemma VoicesAreCurrent(batches: seq<Batch>, snaps: seq<Snapshot>, p: string, start: Day, end: Day, d: Day)
    requires Numbered(batches)
    ensures var heard := Heard(HistoryIn(AllVoices(batches, snaps, p, start, end), d));
      && (heard.Some? <==> d in Current(batches, snaps, p, start, end))
      && (heard.Some? ==> heard.value == Current(batches, snaps, p, start, end)[d] && heard.value.stay == d)
  {
    if d in Current(batches, snaps, p, start, end) {
      CurrentWithinWindow(batches, snaps, p, start, end, d);
    }
  }

  /** The newest voices are what the map holds on the window. */
  ghost predicate Speaks(voices: Voices, m: imap<Day, Read>, start: Day, end: Day, d: Day) {
    var heard := Heard(HistoryIn(voices, d));
    && (heard.Some? <==> start <= d <= end && d in m)
    && (heard.Some? ==> heard.value == m[d] && m[d].stay == d)
  }

  lemma ReadOnSpeaks(voices: Voices, m: imap<Day, Read>, start: Day, end: Day, d: Day)
    requires Speaks(voices, m, start, end, d)
    ensures ReadOn(voices)(d) == if start <= d <= end && d in m then [m[d]] else []
    ensures start <= d <= end && d in m ==> m[d].stay == d
  {
  }

  lemma {:induction false} PieceIn(ds: seq<Day>, f: Day -> seq<Read>, d: Day, r: Read)
    requires d in ds && r in f(d)
    ensures r in FlatMap(ds, f)
  {
    if r !in f(ds[0]) {
      PieceIn(ds[1..], f, d, r);
    }
  }

  lemma Lists(ds: seq<Day>, f: Day -> seq<Read>, m: imap<Day, Read>, start: Day, end: Day)
    requires Ascending(ds, IntLe) && forall d :: f(d) != [] ==> d in ds
    requires forall d :: f(d) == if start <= d <= end && d in m then [m[d]] else []
    requires forall d :: start <= d <= end && d in m ==> m[d].stay == d
    ensures ReadsReplay(FlatMap(ds, f), m, start, end)
  {
    ListedRises(ds, f);
    forall r | r in FlatMap(ds, f) ensures start <= r.stay <= end && r.stay in m && m[r.stay] == r {
      var d := FlatMapOrigin(ds, f, r);
      assert f(d) == [m[d]];
    }
    forall d | start <= d <= end && d in m ensures m[d] in FlatMap(ds, f) {
      assert f(d) == [m[d]];
      PieceIn(ds, f, d, m[d]);
    }
  }

  lemma LatestLists(voices: Voices, m: imap<Day, Read>, start: Day, end: Day)
    requires forall d :: Speaks(voices, m, start, end, d)
    ensures ReadsReplay(LatestOf(voices), m, start, end)
  {
    var ds, f := SortedInts(voices.Keys), ReadOn(voices);
    SortedIntsSound(voices.Keys);
    forall d
      ensures f(d) == if start <= d <= end && d in m then [m[d]] else []
      ensures start <= d <= end && d in m ==> m[d].stay == d
    {
      assert Speaks(voices, m, start, end, d);
      ReadOnSpeaks(voices, m, start, end, d);
    }
    forall d | f(d) != [] ensures d in ds { assert d in voices; }
    Lists(ds, f, m, start, end);
  }

  /** The demand report is the replay of every pull, restricted to the window and listed by date. */
  lemma LatestReadsReplay(batches: seq<Batch>, snaps: seq<Snapshot>, p: string, start: Day, end: Day)
    requires Numbered(batches)
    ensures ReadsReplay(LatestOf(AllVoices(batches, snaps, p, start, end)), Replayed(batches, snaps, p), start, end)
  {
    var voices, m := AllVoices(batches, snaps, p, start, end), Replayed(batches, snaps, p);
    forall d ensures Speaks(voices, m, start, end, d) {
      VoicesAreCurrent(batches, snaps, p, start, end, d);
      if d in Current(batches, snaps, p, start, end) {
        CurrentWithinWindow(batches, snaps, p, start, end, d);
      }
      if start <= d <= end {
        CurrentRefinesReplay(batches, snaps, p, start, end, d);
      }
    }
    LatestLists(voices, m, start, end);
  }

  /** The pace report's current column is the demand report. */
  lemma {:induction false} PaceFollowsLatest(ds: seq<Day>, voices: Voices)
    ensures Currents(FlatMap(ds, PaceOn(voices))) == FlatMap(ds, ReadOn(voices))
  {
    if ds != [] {
      PaceFollowsLatest(ds[1..], voices);
      var rest := FlatMap(ds[1..], PaceOn(voices));
      if Heard(HistoryIn(voices, ds[0])).Some? {
        assert FlatMap(ds, PaceOn(voices))[1..] == rest;
      } else {
        assert FlatMap(ds, PaceOn(voices)) == [] + rest == rest;
      }
    }
  }

  /** The previous figure on a date: what replaying all the property's pulls but the newest covering one leaves there. */
  ghost predicate Replaces(batches: seq<Batch>, snaps: seq<Snapshot>, p: string, d: Day, previous: Option<Read>)
    requires Numbered(batches)
  {
    var older := Replay(WithoutNewest(NewestFirst(batches, OfProperty(batches, p)), d), snaps);
    previous == if d in older then Some(older[d]) else None
  }

  lemma PaceRow(batches: seq<Batch>, snaps: seq<Snapshot>, p: string, start: Day, end: Day, x: PaceDay)
    requires Numbered(batches) && x in PaceOf(AllVoices(batches, snaps, p, start, end))
    ensures x.stay == x.current.stay && Replaces(batches, snaps, p, x.stay, x.previous)
  {
    var voices := AllVoices(batches, snaps, p, start, end);
    var d := FlatMapOrigin(SortedInts(voices.Keys), PaceOn(voices), x);
    VoicesAreCurrent(batches, snaps, p, start, end, d);
    CurrentWithinWindow(batches, snaps, p, start, end, d);
    PreviousReplayed(batches, snaps, p, start, end, d);
  }

  lemma PreviousReplayed(batches: seq<Batch>, snaps: seq<Snapshot>, p: string, start: Day, end: Day, d: Day)
    requires Numbered(batches) && start <= d <= end
    ensures var bs := NewestFirst(batches, Meeting(batches, p, start, end));
      Replaces(batches, snaps, p, d, Previous(History(bs, snaps, d)))
  {
    var all := NewestFirst(batches, OfProperty(batches, p));
    MeetingIsFiltered(batches, p, start, end);
    HistoryFiltered(all, snaps, start, end, d);
    PreviousIsReplayWithoutNewest(all, snaps, d);
  }

  // ---- A new pull

  function RowOf(id: nat): PullDay -> seq<Snapshot> { (x: PullDay) => [Snapshot(id, x.stay, x.demand)] }

  function Rows(id: nat, days: seq<PullDay>): seq<Snapshot> { FlatMap(days, RowOf(id)) }

  /** Every stored figure lies inside its own batch's horizon. */
  ghost predicate Confined(batches: seq<Batch>, snaps: seq<Snapshot>) {
    && Numbered(batches)
    && forall s :: s in snaps ==> s.batch < |batches| && Covers(batches[s.batch], s.stay)
  }

  /** A batch says one thing about a date: no two rows share batch and date. */
  ghost predicate OneVoice(snaps: seq<Snapshot>) {
    forall i, j :: 0 <= i < j < |snaps| ==> snaps[i].batch != snaps[j].batch || snaps[i].stay != snaps[j].stay
  }

  ghost predicate Acceptable(days: seq<PullDay>, start: Day, end: Day) {
    && (forall i, j :: 0 <= i < j < |days| ==> days[i].stay != days[j].stay)
    && (forall i :: 0 <= i < |days| ==> start <= days[i].stay <= end)
  }

  /** What is wrong with day `i` of a pull, a repeated date before a date outside the horizon. */
  ghost function FaultAt(days: seq<PullDay>, i: int, start: Day, end: Day): Option<FeedError>
    requires 0 <= i < |days|
  {
    if exists j :: 0 <= j < i && days[j].stay == days[i].stay then Some(DuplicateDate)
    else if !(start <= days[i].stay <= end) then Some(OutsideHorizon)
    else None
  }

  ghost predicate FirstFaultIs(days: seq<PullDay>, start: Day, end: Day, e: FeedError) {
    exists i :: 0 <= i < |days| && Acceptable(days[..i], start, end) && FaultAt(days, i, start, end) == Some(e)
  }

  /** What the pull itself says about a date. */
  function Stated(days: seq<PullDay>, d: Day): Option<Demand> {
    if days == [] then None else if days[0].stay == d then Some(days[0].demand) else Stated(days[1..], d)
  }

  lemma {:induction false} RowsSay(id: nat, days: seq<PullDay>, other: nat, d: Day)
    ensures Said(Rows(id, days), other, d) == if other == id then Stated(days, d) else None
  {
    if days != [] {
      RowsSay(id, days[1..], other, d);
      assert Rows(id, days) == [Snapshot(id, days[0].stay, days[0].demand)] + Rows(id, days[1..]);
      assert Rows(id, days)[1..] == Rows(id, days[1..]);
    }
  }

  lemma OldVoices(snaps: seq<Snapshot>, id: nat, days: seq<PullDay>, b: Batch, d: Day)
    requires b.id != id
    ensures Voice(snaps + Rows(id, days), b, d) == Voice(snaps, b, d)
  {
    SaidConcat(snaps, Rows(id, days), b.id, d);
    RowsSay(id, days, b.id, d);
  }

  lemma NewVoice(batches: seq<Batch>, snaps: seq<Snapshot>, days: seq<PullDay>, b: Batch, d: Day)
    requires Confined(batches, snaps) && b.id == |batches|
    ensures Voice(snaps + Rows(b.id, days), b, d).Some? <==> Stated(days, d).Some?
    ensures Stated(days, d).Some? ==>
      Voice(snaps + Rows(b.id, days), b, d).value == Read(d, Stated(days, d).value, b.id, b.pulledAt, b.provider)
  {
    SaidSomewhere(snaps, b.id, d);
    SaidConcat(snaps, Rows(b.id, days), b.id, d);
    RowsSay(b.id, days, b.id, d);
  }

  lemma {:induction false} OldReplay(bs: seq<Batch>, snaps: seq<Snapshot>, id: nat, days: seq<PullDay>)
    requires forall b :: b in bs ==> b.id != id
    ensures Replay(bs, snaps + Rows(id, days)) == Replay(bs, snaps)
  {
    if bs != [] {
      OldReplay(bs[1..], snaps, id, days);
      forall d ensures Voice(snaps + Rows(id, days), bs[0], d) == Voice(snaps, bs[0], d) {
        OldVoices(snaps, id, days, bs[0], d);
      }
    }
  }

  lemma NewestLeads(batches: seq<Batch>, b: Batch)
    requires Numbered(batches) && b.id == |batches|
    requires forall o :: o in batches && o.property == b.property ==> o.pulledAt <= b.pulledAt
    ensures Numbered(batches + [b])
    ensures NewestFirst(batches + [b], OfProperty(batches + [b], b.property))
         == [b] + NewestFirst(batches, OfProperty(batches, b.property))
  {
    var s, t := OfProperty(batches, b.property), OfProperty(batches + [b], b.property);
    NewestFirstSound(batches, s);
    NewestFirstSound(batches + [b], t);
    NewerTotal(batches + [b], t);
    var earlier := NewestFirst(batches, s);
    forall o | o in earlier ensures o != b && NewerEq(b, o) {
      var i :| 0 <= i < |batches| && batches[i] == o;
    }
    ConsAscending(b, earlier, NewerEq);
    assert forall x :: x in [b] + earlier <==> x in t;
    AscendingUnique(NewestFirst(batches + [b], t), [b] + earlier, t, NewerEq);
  }

  /** A newest pull rewrites current demand on its own horizon, to exactly what it states, and nowhere else. */
  lemma NewestPullRewritesItsHorizon(batches: seq<Batch>, snaps: seq<Snapshot>, days: seq<PullDay>, b: Batch, d: Day)
    requires Confined(batches, snaps) && b.id == |batches|
    requires forall o :: o in batches && o.property == b.property ==> o.pulledAt <= b.pulledAt
    ensures Numbered(batches + [b])
    ensures var now, was := Replayed(batches + [b], snaps + Rows(b.id, days), b.property), Replayed(batches, snaps, b.property);
      && (Covers(b, d) ==>
            && (d in now <==> Stated(days, d).Some?)
            && (d in now ==> now[d] == Read(d, Stated(days, d).value, b.id, b.pulledAt, b.provider)))
      && (!Covers(b, d) ==> (d in now <==> d in was) && (d in now ==> now[d] == was[d]))
  {
    var all := NewestFirst(batches, OfProperty(batches, b.property));
    NewestLeads(batches, b);
    NewestFirstSound(batches, OfProperty(batches, b.property));
    forall o | o in all ensures o.id != b.id {
      var i :| 0 <= i < |batches| && batches[i] == o;
    }
    OldReplay(all, snaps, b.id, days);
    assert ([b] + all)[1..] == all;
    NewVoice(batches, snaps, days, b, d);
  }

  /** A pull for one property leaves every other property's demand alone. */
  lemma OtherPropertiesKept(batches: seq<Batch>, snaps: seq<Snapshot>, days: seq<PullDay>, b: Batch, q: string)
    requires Numbered(batches) && b.id == |batches| && q != b.property
    ensures Numbered(batches + [b])
    ensures Replayed(batches + [b], snaps + Rows(b.id, days), q) == Replayed(batches, snaps, q)
  {
    var s, t := OfProperty(batches, q), OfProperty(batches + [b], q);
    assert s == t;
    NewestFirstSound(batches, s);
    NewestFirstSound(batches + [b], t);
    NewerTotal(batches, s);
    var earlier := NewestFirst(batches, s);
    AscendingUnique(NewestFirst(batches + [b], t), earlier, s, NewerEq);
    forall o | o in earlier ensures o.id != b.id {
      var i :| 0 <= i < |batches| && batches[i] == o;
    }
    OldReplay(earlier, snaps, b.id, days);
  }

  // ---- The log and its procedures

  class DemandLog {
    var batches: seq<Batch>
    var snaps: seq<Snapshot>

    ghost predicate Valid()
      reads this
    {
      Confined(batches, snaps) && OneVoice(snaps)
    }

    constructor ()
      ensures Valid() && batches == [] && snaps == []
    {
      batches, snaps := [], [];
    }

    /** Store one pull as one batch and its rows; a pull with a duplicate date or a date outside the horizon is refused
        before anything is written. */
    method StorePull(property: string, provider: string, start: Day, end: Day, pulledAt: int, days: seq<PullDay>)
      returns (r: Result<Batch, FeedError>)
      requires Valid()
      modifies this
      ensures Valid()
      ensures r.Ok? <==> Acceptable(days, start, end) && start <= end
      ensures r.Ok? ==> r.value == Batch(|old(batches)|, property, provider, start, end, pulledAt)
      ensures r.Ok? ==> batches == old(batches) + [r.value] && snaps == old(snaps) + Rows(r.value.id, days)
      ensures r.Err? ==> batches == old(batches) && snaps == old(snaps)
      ensures r.Err? ==> if Acceptable(days, start, end) then r.error == EmptyHorizon else FirstFaultIs(days, start, end, r.error)
    {
      var fault := FirstFault(days, start, end);
      if fault.Some? {
        return Err(fault.value);
      }
      if end < start {
        return Err(EmptyHorizon);
      }
      var batch := Batch(|batches|, property, provider, start, end, pulledAt);
      batches := batches + [batch];
      ghost var kept := snaps;
      for i := 0 to |days|
        invariant batches == old(batches) + [batch]
        invariant snaps == kept + Rows(batch.id, days[..i])
      {
        assert days[..i + 1] == days[..i] + [days[i]];
        FlatMapSnoc(days[..i], days[i], RowOf(batch.id));
        snaps := snaps + [Snapshot(batch.id, days[i].stay, days[i].demand)];
      }
      assert days[..|days|] == days;
      RowsConfined(old(batches), kept, batch, days);
      RowsOneVoice(old(batches), kept, batch, days);
      r := Ok(batch);
    }

    /** Per spoken date, the voices of the covering batches, newest first. */
    method VoicesByDate(p: string, start: Day, end: Day) returns (voices: Voices)
      requires Valid()
      ensures voices == AllVoices(batches, snaps, p, start, end)
    {
      var bs := NewestFirst(batches, Meeting(batches, p, start, end));
      var rows := SnapshotRows(bs, start, end);
      var dates := set k | k in rows :: k.1;
      KeyDates(rows, bs, snaps, start, end);
      SortedMembers(dates);
      voices := VoicesOver(bs, SortedInts(dates), rows);
      AllSpoken(batches, snaps, p, start, end, bs, voices);
    }

    /** The stored figures of the listed batches on the window's dates, by batch and date; a later row would replace an
        earlier one, and there is none. */
    method SnapshotRows(bs: seq<Batch>, start: Day, end: Day) returns (rows: map<(nat, Day), Demand>)
      requires OneVoice(snaps)
      ensures IndexOf(rows, bs, snaps, start, end)
    {
      rows := map[];
      for i := 0 to |snaps|
        invariant IndexOf(rows, bs, snaps[..i], start, end)
      {
        var s := snaps[i];
        assert snaps[..i + 1] == snaps[..i] + [s];
        IndexStep(rows, bs, snaps[..i], s, start, end);
        if (exists b :: b in bs && b.id == s.batch) && start <= s.stay <= end {
          rows := rows[(s.batch, s.stay) := s.demand];
        }
      }
      assert snaps[..|snaps|] == snaps;
    }

    method VoicesOver(bs: seq<Batch>, dates: seq<Day>, rows: map<(nat, Day), Demand>) returns (voices: Voices)
      requires Answers(rows, bs, snaps, set d | d in dates)
      ensures voices.Keys == set d | d in dates
      ensures forall d :: d in voices ==> voices[d] == History(bs, snaps, d)
    {
      voices := map[];
      for i := 0 to |dates|
        invariant voices.Keys == set d | d in dates[..i]
        invariant forall d :: d in voices ==> voices[d] == History(bs, snaps, d)
      {
        var d := dates[i];
        assert {d} <= set x | x in dates;
        var perBatch := VoicesOn(bs, d, rows);
        assert dates[..i + 1] == dates[..i] + [d];
        voices := voices[d := perBatch];
      }
      assert dates[..|dates|] == dates;
    }

    method VoicesOn(bs: seq<Batch>, d: Day, rows: map<(nat, Day), Demand>) returns (perBatch: seq<Option<Read>>)
      requires Answers(rows, bs, snaps, {d})
      ensures perBatch == History(bs, snaps, d)
    {
      perBatch := [];
      for j := 0 to |bs|
        invariant perBatch == History(bs[..j], snaps, d)
      {
        assert bs[..j + 1] == bs[..j] + [bs[j]];
        FlatMapSnoc(bs[..j], bs[j], VoiceOf(snaps, d));
        if !(bs[j].start <= d <= bs[j].end) {
          continue;
        }
        var b := bs[j];
        assert Lookup(rows, b.id, d) == Said(snaps, b.id, d);
        perBatch := perBatch +
          [if (b.id, d) in rows then Some(Read(d, rows[(b.id, d)], b.id, b.pulledAt, b.provider)) else None];
      }
      assert bs[..|bs|] == bs;
    }

    /** Current demand in date order: one read per date of the window that the replay of all pulls leaves demand on. */
    method LatestDemand(p: string, start: Day, end: Day) returns (found: seq<Read>)
      requires Valid()
      ensures ReadsReplay(found, Replayed(batches, snaps, p), start, end)
    {
      var voices := VoicesByDate(p, start, end);
      found := LatestOf(voices);
      LatestReadsReplay(batches, snaps, p, start, end);
    }

    /** Each date's current figure beside the one it replaced. */
    method DemandPace(p: string, start: Day, end: Day) returns (pace: seq<PaceDay>)
      requires Valid()
      ensures ReadsReplay(Currents(pace), Replayed(batches, snaps, p), start, end)
      ensures forall x :: x in pace ==> x.stay == x.current.stay && Replaces(batches, snaps, p, x.stay, x.previous)
    {
      var voices := VoicesByDate(p, start, end);
      pace := PaceOf(voices);
      PaceFollowsLatest(SortedInts(voices.Keys), voices);
      LatestReadsReplay(batches, snaps, p, start, end);
      forall x | x in pace ensures x.stay == x.current.stay && Replaces(batches, snaps, p, x.stay, x.previous) {
        PaceRow(batches, snaps, p, start, end, x);
      }
    }
  }

  // ---- The read's index

  function Lookup(rows: map<(nat, Day), Demand>, id: nat, d: Day): Option<Demand> {
    if (id, d) in rows then Some(rows[(id, d)]) else None
  }

  /** The index answers as the rows do, for the listed batches on the given dates. */
  ghost predicate Answers(rows: map<(nat, Day), Demand>, bs: seq<Batch>, snaps: seq<Snapshot>, dates: set<Day>) {
    forall b, d :: b in bs && d in dates ==> Lookup(rows, b.id, d) == Said(snaps, b.id, d)
  }

  ghost predicate Listed(bs: seq<Batch>, id: nat) { exists b :: b in bs && b.id == id }

  /** The index holds exactly what the listed batches said on the window. */
  ghost predicate IndexOf(rows: map<(nat, Day), Demand>, bs: seq<Batch>, snaps: seq<Snapshot>, start: Day, end: Day) {
    forall id, d :: Lookup(rows, id, d) == if Listed(bs, id) && start <= d <= end then Said(snaps, id, d) else None
  }

  /** Keeping the last row is keeping the first: there is only one. */
  lemma IndexStep(rows: map<(nat, Day), Demand>, bs: seq<Batch>, snaps: seq<Snapshot>, s: Snapshot, start: Day, end: Day)
    requires IndexOf(rows, bs, snaps, start, end) && OneVoice(snaps + [s])
    ensures IndexOf(if Listed(bs, s.batch) && start <= s.stay <= end then rows[(s.batch, s.stay) := s.demand] else rows,
                    bs, snaps + [s], start, end)
  {
    var next := if Listed(bs, s.batch) && start <= s.stay <= end then rows[(s.batch, s.stay) := s.demand] else rows;
    var all := snaps + [s];
    forall id, d ensures Lookup(next, id, d) == if Listed(bs, id) && start <= d <= end then Said(all, id, d) else None {
      assert Lookup(rows, id, d) == if Listed(bs, id) && start <= d <= end then Said(snaps, id, d) else None;
      SaidConcat(snaps, [s], id, d);
      assert Said([s], id, d) == if s.batch == id && s.stay == d then Some(s.demand) else None;
      NotSaidBefore(snaps, s);
    }
  }

  lemma NotSaidBefore(snaps: seq<Snapshot>, s: Snapshot)
    requires OneVoice(snaps + [s])
    ensures Said(snaps, s.batch, s.stay).None?
  {
    SaidSomewhere(snaps, s.batch, s.stay);
    var all := snaps + [s];
    forall t | t in snaps ensures t.batch != s.batch || t.stay != s.stay {
      var i :| 0 <= i < |snaps| && snaps[i] == t;
      assert all[i] == t && all[|snaps|] == s;
    }
  }

  lemma KeyDates(rows: map<(nat, Day), Demand>, bs: seq<Batch>, snaps: seq<Snapshot>, start: Day, end: Day)
    requires IndexOf(rows, bs, snaps, start, end)
    ensures (set k | k in rows :: k.1) == SpokenDates(bs, snaps, start, end)
    ensures Answers(rows, bs, snaps, SpokenDates(bs, snaps, start, end))
  {
    forall d ensures d in (set k | k in rows :: k.1) <==> d in SpokenDates(bs, snaps, start, end) {
      if k :| k in rows && k.1 == d {
        assert Lookup(rows, k.0, d).Some?;
        SaidSomewhere(snaps, k.0, d);
      }
      if d in SpokenDates(bs, snaps, start, end) {
        var s, b :| s in snaps && b in bs && s.batch == b.id && start <= s.stay <= end && s.stay == d;
        SaidSomewhere(snaps, b.id, d);
        assert Lookup(rows, b.id, d).Some? && (b.id, d) in rows && (b.id, d).1 == d;
      }
    }
    forall b, d | b in bs && d in SpokenDates(bs, snaps, start, end)
      ensures Lookup(rows, b.id, d) == Said(snaps, b.id, d)
    {
      assert Listed(bs, b.id);
    }
  }

  lemma SortedMembers(dates: set<Day>)
    ensures (set d | d in SortedInts(dates)) == dates
  {
    SortedIntsSound(dates);
  }

  lemma AllSpoken(batches: seq<Batch>, snaps: seq<Snapshot>, p: string, start: Day, end: Day, bs: seq<Batch>, voices: Voices)
    requires Numbered(batches) && bs == NewestFirst(batches, Meeting(batches, p, start, end))
    requires voices.Keys == SpokenDates(bs, snaps, start, end) && forall d :: d in voices ==> voices[d] == History(bs, snaps, d)
    ensures voices == AllVoices(batches, snaps, p, start, end)
  {
  }

  lemma RowAt(id: nat, days: seq<PullDay>, i: nat)
    requires i < |days|
    ensures |Rows(id, days)| == |days| && Rows(id, days)[i] == Snapshot(id, days[i].stay, days[i].demand)
  {
    var rest := Rows(id, days[1..]);
    assert Rows(id, days) == [Snapshot(id, days[0].stay, days[0].demand)] + rest;
    if i > 0 {
      RowAt(id, days[1..], i - 1);
    } else if |days| > 1 {
      RowAt(id, days[1..], 0);
    }
  }

  lemma RowsOneVoice(batches: seq<Batch>, snaps: seq<Snapshot>, b: Batch, days: seq<PullDay>)
    requires Confined(batches, snaps) && OneVoice(snaps) && b.id == |batches| && Acceptable(days, b.start, b.end)
    ensures OneVoice(snaps + Rows(b.id, days))
  {
    var rows := Rows(b.id, days);
    var all := snaps + rows;
    if days != [] {
      RowAt(b.id, days, 0);
    }
    forall i, j | 0 <= i < j < |all| ensures all[i].batch != all[j].batch || all[i].stay != all[j].stay {
      if j >= |snaps| {
        RowAt(b.id, days, j - |snaps|);
        if i < |snaps| {
          assert snaps[i] in snaps;
        } else {
          RowAt(b.id, days, i - |snaps|);
        }
      }
    }
  }

  lemma RowsConfined(batches: seq<Batch>, snaps: seq<Snapshot>, b: Batch, days: seq<PullDay>)
    requires Confined(batches, snaps) && b.id == |batches| && Acceptable(days, b.start, b.end)
    ensures Confined(batches + [b], snaps + Rows(b.id, days))
  {
    forall s | s in snaps + Rows(b.id, days)
      ensures s.batch < |batches + [b]| && Covers((batches + [b])[s.batch], s.stay)
    {
      if s in snaps {
        assert s.batch < |batches|;
      } else {
        var x := FlatMapOrigin(days, RowOf(b.id), s);
      }
    }
  }

  /** The first date that repeats an earlier one or falls outside the horizon, if any. */
  method FirstFault(days: seq<PullDay>, start: Day, end: Day) returns (fault: Option<FeedError>)
    ensures fault.None? <==> Acceptable(days, start, end)
    ensures fault.Some? ==> FirstFaultIs(days, start, end, fault.value)
  {
    var seen: set<Day> := {};
    for i := 0 to |days|
      invariant seen == set j | 0 <= j < i :: days[j].stay
      invariant Acceptable(days[..i], start, end)
    {
      var stay := days[i].stay;
      if stay in seen {
        var j :| 0 <= j < i && days[j].stay == stay;
        assert FaultAt(days, i, start, end) == Some(DuplicateDate);
        return Some(DuplicateDate);
      }
      seen := seen + {stay};
      if !(start <= stay <= end) {
        assert FaultAt(days, i, start, end) == Some(OutsideHorizon);
        return Some(OutsideHorizon);
      }
      assert forall j :: 0 <= j < i ==> days[j].stay in seen;
    }
    assert days[..|days|] == days;
    fault := None;
  }
}
