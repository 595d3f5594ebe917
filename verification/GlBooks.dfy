/** The books as a mutable object: posting, closing, reopening, chart edits and range posting in place. */
module GlBooks {
  import opened Prelude
  import opened Gregorian
  import opened GlPlan
  import opened GlEngine
  import opened GlInvariant
  import opened GlTheorems
  import opened GlSweep
  import opened GlBuilders
  import Fiscal
  import PyText

  datatype RangeRefusal = Backwards | TooLong | RangeCalendarMissing

  class Books {
    var facts: seq<Fact>
    var labor: seq<LaborFact>
    var chart: Chart
    var calendars: map<Property, Fiscal.FiscalConfig>
    var journal: seq<Entry>
    var ledger: map<Grain, LedgerRow>
    var events: seq<PeriodEvent>

    ghost function Value(): State
      reads this
    {
      State(facts, labor, chart, calendars, journal, ledger, events)
    }

    ghost predicate Valid()
      reads this
    {
      Inv(journal, ledger)
    }

    constructor (facts: seq<Fact>, labor: seq<LaborFact>, chart: Chart, calendars: map<Property, Fiscal.FiscalConfig>)
      ensures Valid() && Initial(Value())
      ensures Value() == State(facts, labor, chart, calendars, [], map[], [])
    {
      this.facts, this.labor, this.chart, this.calendars := facts, labor, chart, calendars;
      journal, ledger, events := [], map[], [];
      new;
      InitialInv(Value());
    }

    /** Append one entry for the plan, its lines flipped when it is a reversal. */
    method WriteEntry(plan: Plan, source: Source, reversalOf: Option<nat>, flip: bool) returns (id: nat)
      modifies this`journal
      ensures id == old(|journal|)
      ensures journal == old(journal) +
        [Entry(Grain(plan.property, plan.date, source), plan.hash, reversalOf, if flip then FlipLines(plan.lines) else plan.lines)]
    {
      var lines := [];
      for i := 0 to |plan.lines|
        invariant |lines| == i
        invariant forall k :: 0 <= k < i ==> lines[k] == if flip then FlipLine(plan.lines[k]) else plan.lines[k]
      {
        var line := plan.lines[i];
        var posting := line.posting;
        if flip {
          posting := if posting == Credit then Debit else Credit;
        }
        lines := lines + [Line(line.account, posting, line.amount, line.memo, line.factId)];
      }
      assert lines == if flip then FlipLines(plan.lines) else plan.lines;
      id := |journal|;
      journal := journal + [Entry(Grain(plan.property, plan.date, source), plan.hash, reversalOf, lines)];
    }

    /** Record a refusal on the grain's row, leaving a standing entry in place. */
    method RecordFailure(g: Grain, why: Refusal) returns (out: Outcome)
      modifies this`ledger
      ensures Value() == Fail(old(Value()), g, why).0 && out == Fail(old(Value()), g, why).1
    {
      var row := if g in ledger then ledger[g] else LedgerRow(None, None, Failed, None);
      if row.entry.None? {
        row := row.(status := Failed);
      }
      row := row.(message := Some(why));
      ledger := ledger[g := row];
      out := Outcome(FailedNow, row.entry, Some(why));
    }

    /** Reverse the grain's standing entry, rebuilt from the journal. */
    method ReverseStanding(g: Grain, prior: nat) returns (id: nat)
      requires Valid() && LiveEntry(ledger, g) == Some(prior)
      modifies this`journal
      ensures id == old(|journal|)
      ensures UndoPlan(old(journal), prior).Some?
      ensures journal == old(journal) + [ReversalEntry(g, UndoPlan(old(journal), prior).value, prior)]
    {
      StandingRebuilds(journal, ledger, g);
      assert RowSound(journal, g, ledger[g]);
      var rebuilt := PlanOfEntry(journal[prior]);
      id := WriteEntry(rebuilt.plan, g.source, Some(prior), true);
    }

    method PostWithoutPlan(g: Grain, key: string) returns (out: Outcome)
      requires Valid()
      modifies this`journal, this`ledger
      ensures Value() == DecideNone(old(Value()), g, key).0 && out == DecideNone(old(Value()), g, key).1
    {
      if g !in ledger || ledger[g].entry.None? {
        return Outcome(Skipped, None, None);
      }
      if IsClosed(events, g.property, key) {
        out := RecordFailure(g, FactsGone(key));
        return;
      }
      var id := ReverseStanding(g, ledger[g].entry.value);
      ledger := ledger - {g};
      out := Outcome(Reversed, Some(id), None);
    }

    method ReverseAndRepost(g: Grain, plan: Plan) returns (out: Outcome)
      requires Valid() && LiveEntry(ledger, g).Some? && SoundPlan(plan, g.property, g.date)
      modifies this`journal, this`ledger
      ensures UndoPlan(old(journal), LiveEntry(old(ledger), g).value).Some?
      ensures var prior := LiveEntry(old(ledger), g).value;
        && Value() == Repost(old(Value()), g, prior, UndoPlan(old(journal), prior).value, plan).0
        && out == Repost(old(Value()), g, prior, UndoPlan(old(journal), prior).value, plan).1
    {
      var undone := ReverseStanding(g, ledger[g].entry.value);
      var again := WriteEntry(plan, g.source, None, false);
      ledger := ledger[g := LedgerRow(Some(again), Some(plan.hash), Posted, None)];
      out := Outcome(Reposted, Some(again), None);
    }

    method PostPlan(g: Grain, key: string, plan: Plan) returns (out: Outcome)
      requires Valid() && SoundPlan(plan, g.property, g.date)
      modifies this`journal, this`ledger
      ensures Value() == DecidePlan(old(Value()), g, key, plan).0 && out == DecidePlan(old(Value()), g, key, plan).1
    {
      if g in ledger && ledger[g].entry.Some? && ledger[g].hash == Some(plan.hash) {
        if ledger[g].message.Some? {
          ledger := ledger[g := ledger[g].(message := None)];
        }
        assert ledger == old(ledger)[g := old(ledger)[g].(message := None)];
        return Outcome(Noop, ledger[g].entry, None);
      }
      if IsClosed(events, g.property, key) {
        out := RecordFailure(g, PeriodClosed(key));
        return;
      }
      if g in ledger && ledger[g].entry.Some? {
        out := ReverseAndRepost(g, plan);
        return;
      }
      var id := WriteEntry(plan, g.source, None, false);
      ledger := ledger[g := LedgerRow(Some(id), Some(plan.hash), Posted, None)];
      out := Outcome(PostedNow, Some(id), None);
    }

    method BuildPlan(g: Grain) returns (build: Build)
      ensures build == BuildFor(Value(), g)
    {
      match g.source
      case PmsDaily =>
        build := BuildPmsDailyPlan(chart, FactsOf(facts, g.property, g.date), g.property, g.date);
      case PayrollAccrual =>
        build := BuildPayrollAccrualPlan(chart, LaborOf(labor, g.property, g.date), g.property, g.date);
    }

    /** The one entry point: post, re-post, reverse, skip or record a refusal for one grain. No error escapes. */
    method PostAndRecord(g: Grain) returns (out: Outcome)
      requires Valid()
      modifies this`journal, this`ledger
      ensures Valid() && !out.status.Escaped?
      ensures Value() == Post(old(Value()), g).0 && out == Post(old(Value()), g).1
    {
      PostKeepsInv(Value(), g);
      if !HasActiveChart(chart) {
        return Outcome(Skipped, None, None);
      }
      if g.property !in calendars {
        out := RecordFailure(g, CalendarNotConfigured);
        return;
      }
      BuildSound(Value(), g);
      var period := Fiscal.PeriodContaining(calendars[g.property], g.date);
      var key := period.value;
      var build := BuildPlan(g);
      match build
      case NoPlan => out := PostWithoutPlan(g, key);
      case Planned(plan) => out := PostPlan(g, key, plan);
      case Refused(why) => out := RecordFailure(g, why);
    }

    /** Append a close event unless the period is closed already, and answer with the gaps as they stand. */
    method ClosePeriod(p: Property, key: string) returns (answer: GapsAnswer)
      modifies this`events
      ensures Value() == GlEngine.ClosePeriod(old(Value()), p, key).0
      ensures answer == GlEngine.ClosePeriod(old(Value()), p, key).1
    {
      answer := GapsOf(p, key);
      if answer.Found? && !IsClosed(events, p, key) {
        events := events + [PeriodEvent(p, key, Close)];
      }
    }

    method GapsOf(p: Property, key: string) returns (answer: GapsAnswer)
      ensures answer == PeriodGaps(Value(), p, key)
    {
      if p !in calendars {
        return NoCalendar;
      }
      var range := Fiscal.Resolve(calendars[p], key);
      if range.None? {
        return MalformedKey;
      }
      var (start, end) := range.value;
      var factDates := FactDates(facts, p, start, end);
      var laborDates := LaborDates(labor, p, start, end);
      var posted := PostedDates(ledger, p, start, end);
      var orphaned := set g | g in ledger && g.property == p && start <= g.date <= end && ledger[g].entry.Some?
        && g.date !in (if g.source.PmsDaily? then factDates else laborDates) :: g.date;
      answer := Found(Gaps(factDates - posted, orphaned));
    }

    /** Append a reopen event when the reason is not blank and the period is closed. */
    method ReopenPeriod(p: Property, key: string, reason: string) returns (accepted: bool)
      modifies this`events
      ensures Value() == GlEngine.ReopenPeriod(old(Value()), p, key, reason).0
      ensures accepted == GlEngine.ReopenPeriod(old(Value()), p, key, reason).1
    {
      if PyText.Strip(reason) == "" {
        return false;
      }
      if IsClosed(events, p, key) {
        events := events + [PeriodEvent(p, key, Reopen)];
      }
      accepted := true;
    }

    /** Upsert one chart row; deactivating an account that carries a role is refused. */
    method PutAccount(code: Code, active: bool) returns (accepted: bool)
      modifies this`chart
      ensures (chart, accepted) == GlTheorems.PutAccount(old(chart), code, active)
      ensures forall r :: RoleAccount(old(chart), r).Some? ==> RoleAccount(chart, r) == RoleAccount(old(chart), r)
    {
      forall r | RoleAccount(chart, r).Some?
        ensures RoleAccount(GlTheorems.PutAccount(chart, code, active).0, r) == RoleAccount(chart, r)
      {
        PutAccountKeepsRoles(chart, code, active, r);
      }
      if code in chart && chart[code].role.Some? && !active {
        return false;
      }
      if code !in chart {
        chart := chart[code := Account(active, None)];
      } else {
        chart := chart[code := chart[code].(active := active)];
      }
      accepted := true;
    }

    /** Post each source for one date, in registry order. */
    method PostDay(p: Property, day: Day) returns (outcomes: seq<SweepRow>)
      requires Valid()
      modifies this`journal, this`ledger
      ensures Valid()
      ensures Value() == SweepDay(old(Value()), p, day).0 && outcomes == SweepDay(old(Value()), p, day).1
    {
      outcomes := [];
      var pms := PostAndRecord(Grain(p, day, PmsDaily));
      outcomes := outcomes + [SweepRow(day, PmsDaily, pms)];
      var payroll := PostAndRecord(Grain(p, day, PayrollAccrual));
      outcomes := outcomes + [SweepRow(day, PayrollAccrual, payroll)];
    }

    /** Post both sources for every date of the range, after the range and calendar gates. */
    method PostRange(p: Property, first: Day, last: Day) returns (r: Result<seq<SweepRow>, RangeRefusal>)
      requires Valid()
      modifies this`journal, this`ledger
      ensures Valid()
      ensures r.Ok? <==> 0 <= last - first <= 400 && p in calendars
      ensures r.Ok? ==> (Value(), r.value) == Sweep(old(Value()), p, first, last)
      ensures r.Err? ==> Value() == old(Value())
    {
      if first > last {
        return Err(Backwards);
      }
      if last - first > 400 {
        return Err(TooLong);
      }
      if p !in calendars {
        return Err(RangeCalendarMissing);
      }
      var outcomes := [];
      var day := first;
      ghost var all := Sweep(Value(), p, first, last);
      assert [] + all.1 == all.1;
      while day <= last
        invariant Valid() && first <= day <= last + 1
        invariant all == (Sweep(Value(), p, day, last).0, outcomes + Sweep(Value(), p, day, last).1)
        decreases last - day
      {
        ghost var rest := Sweep(SweepDay(Value(), p, day).0, p, day + 1, last);
        ghost var today := SweepDay(Value(), p, day).1;
        assert outcomes + (today + rest.1) == outcomes + today + rest.1;
        var posted := PostDay(p, day);
        outcomes := outcomes + posted;
        day := day + 1;
      }
      assert outcomes + [] == outcomes;
      r := Ok(outcomes);
    }
  }
}
