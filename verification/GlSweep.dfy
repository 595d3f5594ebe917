/** Posting every source for each date of a range, and what it leaves of a period's gaps. */
module GlSweep {
  import opened Sums
  import opened Gregorian
  import opened GlPlan
  import opened GlEngine
  import opened GlInvariant
  import opened GlTheorems
  import Fiscal

  datatype SweepRow = SweepRow(date: Day, source: Source, outcome: Outcome)

  /** Dates in order, and for each date both sources in registry order. */
  ghost function Sweep(st: State, p: Property, day: Day, last: Day): (State, seq<SweepRow>)
    decreases last - day + 1
  {
    if day > last then (st, [])
    else
      var today := SweepDay(st, p, day);
      var rest := Sweep(today.0, p, day + 1, last);
      (rest.0, today.1 + rest.1)
  }

  ghost function SweepDay(st: State, p: Property, day: Day): (State, seq<SweepRow>) {
    var pms := Post(st, Grain(p, day, PmsDaily));
    var payroll := Post(pms.0, Grain(p, day, PayrollAccrual));
    (payroll.0, [SweepRow(day, PmsDaily, pms.1), SweepRow(day, PayrollAccrual, payroll.1)])
  }

  lemma DayKeeps(st: State, p: Property, day: Day)
    requires Inv(st.journal, st.ledger)
    ensures var after := SweepDay(st, p, day).0;
      && Inv(after.journal, after.ledger)
      && after.(journal := st.journal, ledger := st.ledger) == st
  {
    var g, h := Grain(p, day, PmsDaily), Grain(p, day, PayrollAccrual);
    var mid := Post(st, g).0;
    PostKeepsInv(st, g);
    PostEffect(st, g);
    PostKeepsInv(mid, h);
    PostEffect(mid, h);
  }

  lemma DayKeepsSynced(st: State, p: Property, day: Day, g: Grain)
    requires Synced(st, g)
    ensures Synced(SweepDay(st, p, day).0, g)
  {
    PostStaysSynced(st, Grain(p, day, PmsDaily), g);
    PostStaysSynced(Post(st, Grain(p, day, PmsDaily)).0, Grain(p, day, PayrollAccrual), g);
  }

  lemma DaySyncsOrFails(st: State, p: Property, day: Day, s: Source)
    requires Inv(st.journal, st.ledger) && HasActiveChart(st.chart)
    ensures Synced(SweepDay(st, p, day).0, Grain(p, day, s)) || Failed(SweepDay(st, p, day).1, day, s)
  {
    var a, b := Grain(p, day, PmsDaily), Grain(p, day, PayrollAccrual);
    var pms := Post(st, a);
    PostKeepsInv(st, a);
    PostEffect(st, a);
    PostSyncsOrFails(st, a);
    PostSyncsOrFails(pms.0, b);
    var rows := SweepDay(st, p, day).1;
    assert rows[0] == SweepRow(day, PmsDaily, pms.1) && rows[1] == SweepRow(day, PayrollAccrual, Post(pms.0, b).1);
    if s.PmsDaily? && Synced(pms.0, a) {
      PostStaysSynced(pms.0, b, a);
    }
  }

  /** The sweep changes only the journal and the ledger, keeps the invariant, and keeps grains in step. */
  lemma {:induction false} SweepKeeps(st: State, p: Property, day: Day, last: Day)
    requires Inv(st.journal, st.ledger)
    ensures var after := Sweep(st, p, day, last).0;
      && Inv(after.journal, after.ledger)
      && after.(journal := st.journal, ledger := st.ledger) == st
    decreases last - day + 1
  {
    if day <= last {
      DayKeeps(st, p, day);
      SweepKeeps(SweepDay(st, p, day).0, p, day + 1, last);
    }
  }

  lemma {:induction false} SweepKeepsSynced(st: State, p: Property, day: Day, last: Day, g: Grain)
    requires Synced(st, g)
    ensures Synced(Sweep(st, p, day, last).0, g)
    decreases last - day + 1
  {
    if day <= last {
      DayKeepsSynced(st, p, day, g);
      SweepKeepsSynced(SweepDay(st, p, day).0, p, day + 1, last, g);
    }
  }

  lemma PostStaysSynced(st: State, h: Grain, g: Grain)
    requires Synced(st, g)
    ensures Synced(Post(st, h).0, g)
  {
    PostKeepsBuild(st, h, g);
    PostKeepsSynced(st, h, g, BuildFor(st, g));
  }

  ghost predicate Failed(rows: seq<SweepRow>, d: Day, s: Source) {
    exists i :: 0 <= i < |rows| && rows[i].date == d && rows[i].source == s && rows[i].outcome.status.FailedNow?
  }

  lemma FailedEither(xs: seq<SweepRow>, ys: seq<SweepRow>, d: Day, s: Source)
    requires Failed(xs, d, s) || Failed(ys, d, s)
    ensures Failed(xs + ys, d, s)
  {
    if Failed(xs, d, s) {
      var i :| 0 <= i < |xs| && xs[i].date == d && xs[i].source == s && xs[i].outcome.status.FailedNow?;
      assert (xs + ys)[i] == xs[i];
    } else {
      var i :| 0 <= i < |ys| && ys[i].date == d && ys[i].source == s && ys[i].outcome.status.FailedNow?;
      assert (xs + ys)[i + |xs|] == ys[i];
    }
  }

  lemma PostSyncsOrFails(st: State, g: Grain)
    requires Inv(st.journal, st.ledger) && HasActiveChart(st.chart)
    ensures Post(st, g).1.status.FailedNow? || Synced(Post(st, g).0, g)
  {
    PostKeepsInv(st, g);
    if !Post(st, g).1.status.FailedNow? {
      PostSyncs(st, g);
    }
  }

  /** After a sweep with the chart on, every grain it visited is in step with its facts or was reported failed. */
  lemma {:induction false} SweepSyncsOrFails(st: State, p: Property, day: Day, last: Day, d: Day, s: Source)
    requires Inv(st.journal, st.ledger) && HasActiveChart(st.chart) && day <= d <= last
    ensures Synced(Sweep(st, p, day, last).0, Grain(p, d, s)) || Failed(Sweep(st, p, day, last).1, d, s)
    decreases last - day + 1
  {
    var next, today := SweepDay(st, p, day).0, SweepDay(st, p, day).1;
    var rest := Sweep(next, p, day + 1, last).1;
    DayKeeps(st, p, day);
    if d == day {
      DaySyncsOrFails(st, p, day, s);
      if Synced(next, Grain(p, d, s)) {
        SweepKeepsSynced(next, p, day + 1, last, Grain(p, d, s));
      }
    } else {
      SweepSyncsOrFails(next, p, day + 1, last, d, s);
    }
    if Failed(today, d, s) || Failed(rest, d, s) {
      FailedEither(today, rest, d, s);
    }
  }

  lemma FactDateHasFacts(facts: seq<Fact>, p: Property, start: Day, end: Day, d: Day)
    requires start <= d <= end
    ensures d in FactDates(facts, p, start, end) <==> FactsOf(facts, p, d) != []
  {
    if FactsOf(facts, p, d) != [] {
      FilterMembers(facts, OfGrain(p, d), FactsOf(facts, p, d)[0]);
    }
    if d in FactDates(facts, p, start, end) {
      var f :| f in facts && f.property == p && f.date == d;
      FilterMembers(facts, OfGrain(p, d), f);
    }
  }

  lemma LaborDateHasLabor(labor: seq<LaborFact>, p: Property, start: Day, end: Day, d: Day)
    requires start <= d <= end && TotalCost(LaborOf(labor, p, d)) != 0
    ensures d in LaborDates(labor, p, start, end)
  {
    FilterMembers(labor, LaborOfGrain(p, d), LaborOf(labor, p, d)[0]);
  }

  lemma LaborDateHasRows(labor: seq<LaborFact>, p: Property, start: Day, end: Day, d: Day)
    requires start <= d <= end
    ensures d in LaborDates(labor, p, start, end) <==> LaborOf(labor, p, d) != []
  {
    if LaborOf(labor, p, d) != [] {
      FilterMembers(labor, LaborOfGrain(p, d), LaborOf(labor, p, d)[0]);
    }
    if d in LaborDates(labor, p, start, end) {
      var f :| f in labor && f.property == p && f.date == d;
      FilterMembers(labor, LaborOfGrain(p, d), f);
    }
  }

  ghost predicate Stands(st: State, p: Property, d: Day, s: Source) { LiveEntry(st.ledger, Grain(p, d, s)).Some? }

  /** An entry of either source stands over no facts of its own. */
  ghost predicate Orphaned(st: State, p: Property, d: Day) {
    || (Stands(st, p, d, PmsDaily) && FactsOf(st.facts, p, d) == [])
    || (Stands(st, p, d, PayrollAccrual) && LaborOf(st.labor, p, d) == [])
  }

  lemma UnpostedExact(st: State, p: Property, start: Day, end: Day, d: Day)
    requires Inv(st.journal, st.ledger) && start <= d <= end
    ensures d in FactDates(st.facts, p, start, end) - PostedDates(st.ledger, p, start, end) <==>
      FactsOf(st.facts, p, d) != [] && !Stands(st, p, d, PmsDaily)
  {
    var g := Grain(p, d, PmsDaily);
    FactDateHasFacts(st.facts, p, start, end, d);
    if g in st.ledger {
      assert RowSound(st.journal, g, st.ledger[g]);
      assert st.ledger[g].status.Posted? ==> g.date in PostedDates(st.ledger, p, start, end);
    }
  }

  lemma OrphanedExact(st: State, p: Property, start: Day, end: Day, d: Day)
    requires start <= d <= end
    ensures d in OrphanedDates(st, p, start, end) <==> Orphaned(st, p, d)
  {
    var a, b := Grain(p, d, PmsDaily), Grain(p, d, PayrollAccrual);
    FactDateHasFacts(st.facts, p, start, end, d);
    LaborDateHasRows(st.labor, p, start, end, d);
    if Stands(st, p, d, PmsDaily) && FactsOf(st.facts, p, d) == [] {
      assert a.date in OrphanedDates(st, p, start, end);
    }
    if Stands(st, p, d, PayrollAccrual) && LaborOf(st.labor, p, d) == [] {
      assert b.date in OrphanedDates(st, p, start, end);
    }
  }

  /** The gaps a close reports are exact: unposted are the period's days with facts and no standing daily entry, orphaned
      are those where either source's entry stands over no facts of its own. */
  lemma GapsExact(st: State, p: Property, key: string, d: Day)
    requires Inv(st.journal, st.ledger) && PeriodGaps(st, p, key).Found?
    ensures var gaps := PeriodGaps(st, p, key).gaps;
      var inside := Fiscal.Holds(st.calendars[p], key, d);
      && (d in gaps.unposted <==> inside && FactsOf(st.facts, p, d) != [] && !Stands(st, p, d, PmsDaily))
      && (d in gaps.orphaned <==> inside && Orphaned(st, p, d))
  {
    var (start, end) := Fiscal.ResolvePeriod(st.calendars[p], key).value;
    if start <= d <= end {
      UnpostedExact(st, p, start, end, d);
      OrphanedExact(st, p, start, end, d);
    }
  }

  /** Gaps are answered exactly when the property has a calendar and the key parses. */
  lemma GapsAnswered(st: State, p: Property, key: string)
    ensures PeriodGaps(st, p, key).NoCalendar? <==> p !in st.calendars
    ensures PeriodGaps(st, p, key).MalformedKey? <==> p in st.calendars && Fiscal.ParseKey(key).None?
  {
  }

  /** The report has two rows per date, dates in order and the daily source first. */
  lemma {:induction false} SweepReports(st: State, p: Property, day: Day, last: Day, k: nat)
    requires day + k <= last
    ensures var rows := Sweep(st, p, day, last).1;
      && |rows| == 2 * (last - day + 1)
      && rows[2 * k].date == rows[2 * k + 1].date == day + k
      && rows[2 * k].source == PmsDaily && rows[2 * k + 1].source == PayrollAccrual
    decreases last - day + 1
  {
    var today := SweepDay(st, p, day);
    if day < last {
      SweepReports(today.0, p, day + 1, last, if k > 0 then k - 1 else 0);
    }
    var rest := Sweep(today.0, p, day + 1, last).1;
    assert Sweep(st, p, day, last).1 == today.1 + rest;
  }

  lemma SyncedNotUnposted(st: State, p: Property, start: Day, end: Day, d: Day)
    requires Inv(st.journal, st.ledger) && Synced(st, Grain(p, d, PmsDaily))
    ensures d !in FactDates(st.facts, p, start, end) - PostedDates(st.ledger, p, start, end)
  {
    var g := Grain(p, d, PmsDaily);
    if d in FactDates(st.facts, p, start, end) {
      FactDateHasFacts(st.facts, p, start, end, d);
      PmsPlanSound(st.chart, FactsOf(st.facts, p, d), p, d);
      assert RowSound(st.journal, g, st.ledger[g]);
      assert g.date in PostedDates(st.ledger, p, start, end);
    }
  }

  lemma SyncedNotOrphaned(st: State, p: Property, start: Day, end: Day, g: Grain)
    requires Synced(st, g) && g.property == p && start <= g.date <= end
    requires g in st.ledger && st.ledger[g].entry.Some?
    ensures g.source.PmsDaily? ==> g.date in FactDates(st.facts, p, start, end)
    ensures g.source.PayrollAccrual? ==> g.date in LaborDates(st.labor, p, start, end)
  {
    if g.source.PmsDaily? {
      PmsPlanSound(st.chart, FactsOf(st.facts, p, g.date), p, g.date);
      FactDateHasFacts(st.facts, p, start, end, g.date);
    } else {
      PayrollPlanSound(st.chart, LaborOf(st.labor, p, g.date), p, g.date);
      LaborDateHasLabor(st.labor, p, start, end, g.date);
    }
  }

  /** A full sweep closes the gaps: after sweeping a range that covers the period, a date is still unposted or
      orphaned only where the sweep itself reported a failure; with no failure both lists are empty. */
  lemma SweepClosesGaps(st: State, p: Property, from: Day, last: Day, key: string)
    requires Inv(st.journal, st.ledger) && HasActiveChart(st.chart) && p in st.calendars
    requires var r := Fiscal.ResolvePeriod(st.calendars[p], key); r.Some? && from <= r.value.0 && r.value.1 <= last
    ensures var (after, rows) := Sweep(st, p, from, last);
      var answer := PeriodGaps(after, p, key);
      && answer.Found?
      && (forall d :: d in answer.gaps.unposted ==> Failed(rows, d, PmsDaily))
      && (forall d :: d in answer.gaps.orphaned ==> Failed(rows, d, PmsDaily) || Failed(rows, d, PayrollAccrual))
  {
    var after, rows := Sweep(st, p, from, last).0, Sweep(st, p, from, last).1;
    SweepKeeps(st, p, from, last);
    var (start, end) := Fiscal.ResolvePeriod(st.calendars[p], key).value;
    forall d | d in FactDates(after.facts, p, start, end) - PostedDates(after.ledger, p, start, end)
      ensures Failed(rows, d, PmsDaily)
    {
      SweepSyncsOrFails(st, p, from, last, d, PmsDaily);
      if Synced(after, Grain(p, d, PmsDaily)) {
        SyncedNotUnposted(after, p, start, end, d);
      }
    }
    forall d | d in OrphanedDates(after, p, start, end)
      ensures Failed(rows, d, PmsDaily) || Failed(rows, d, PayrollAccrual)
    {
      var g :| g in after.ledger && g.property == p && g.date == d && start <= d <= end && after.ledger[g].entry.Some?
        && d !in (if g.source.PmsDaily? then FactDates(after.facts, p, start, end)
                  else LaborDates(after.labor, p, start, end));
      SweepSyncsOrFails(st, p, from, last, d, g.source);
      if Synced(after, g) {
        SyncedNotOrphaned(after, p, start, end, g);
      }
    }
  }

  /** The same, in the form a clean sweep report allows: no failed row, no gap either way. */
  lemma CleanSweepNoGaps(st: State, p: Property, from: Day, last: Day, key: string)
    requires Inv(st.journal, st.ledger) && HasActiveChart(st.chart) && p in st.calendars
    requires var r := Fiscal.ResolvePeriod(st.calendars[p], key); r.Some? && from <= r.value.0 && r.value.1 <= last
    requires forall i :: 0 <= i < |Sweep(st, p, from, last).1| ==> !Sweep(st, p, from, last).1[i].outcome.status.FailedNow?
    ensures PeriodGaps(Sweep(st, p, from, last).0, p, key) == Found(Gaps({}, {}))
  {
    SweepClosesGaps(st, p, from, last, key);
    var answer := PeriodGaps(Sweep(st, p, from, last).0, p, key);
    assert answer.gaps.unposted == {} && answer.gaps.orphaned == {};
  }
}
