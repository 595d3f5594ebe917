/** The promises of the posting engine, over one post and over whole runs. */
module GlTheorems {
  import opened Prelude
  import opened Sums
  import opened Gregorian
  import opened GlPlan
  import opened GlEngine
  import opened GlInvariant
  import opened GlRefusals
  import Fiscal
  import PyText

  // ---- What one post does

  /** What an outcome's status says about the journal and the grain's row. */
  ghost predicate StatusMeans(st: State, g: Grain, build: Build, after: State, out: Outcome) {
    var n, live := |st.journal|, LiveEntry(st.ledger, g);
    match out.status
    case PostedNow =>
      && live.None? && |after.journal| == n + 1 && Stores(after, g, build, n)
      && out == Outcome(PostedNow, Some(n), None)
    case Reposted =>
      && live.Some? && |after.journal| == n + 2
      && after.journal[n].reversalOf == live && Stores(after, g, build, n + 1)
      && out == Outcome(Reposted, Some(n + 1), None)
    case Reversed =>
      && live.Some? && build.NoPlan? && |after.journal| == n + 1 && after.journal[n].reversalOf == live
      && g !in after.ledger && out == Outcome(Reversed, Some(n), None)
    case Noop =>
      && live.Some? && build.Planned? && after.journal == st.journal && out == Outcome(Noop, live, None)
      && g in after.ledger && after.ledger[g] == st.ledger[g].(message := None)
    case Skipped =>
      after == st && out == Outcome(Skipped, None, None)
    case FailedNow =>
      && after.journal == st.journal && out.entry == live && out.message.Some?
      && g in after.ledger && after.ledger[g].entry == live && after.ledger[g].message == out.message
      && (live.None? ==> after.ledger[g].status.Failed?)
    case Escaped => after == st
  }

  /** Entry `n` is the plan as built, and the grain's row points at it, posted, with its fingerprint and no message. */
  ghost predicate Stores(after: State, g: Grain, build: Build, n: nat) {
    && build.Planned? && n < |after.journal|
    && after.journal[n] == Entry(g, build.plan.hash, None, build.plan.lines)
    && g in after.ledger && after.ledger[g] == LedgerRow(Some(n), Some(build.plan.hash), Posted, None)
  }

  /** The step's footprint: the journal's end and the grain's own row. */
  ghost predicate OnlyTouches(st: State, g: Grain, after: State) {
    && st.journal <= after.journal
    && (forall i :: |st.journal| <= i < |after.journal| ==> after.journal[i].grain == g)
    && (forall h :: h != g ==> (h in after.ledger <==> h in st.ledger))
    && (forall h :: h != g && h in st.ledger ==> after.ledger[h] == st.ledger[h])
    && after.(journal := st.journal, ledger := st.ledger) == st
  }

  lemma DecideEffect(st: State, g: Grain, key: string, build: Build)
    ensures var (after, out) := Decide(st, g, key, build); StatusMeans(st, g, build, after, out) && OnlyTouches(st, g, after)
  {
    match build
    case Refused(why) => FailEffect(st, g, why, build);
    case OutOfBalance =>
    case NoPlan => DecideNoneEffect(st, g, key);
    case Planned(plan) => DecidePlanEffect(st, g, key, plan);
  }

  lemma FailEffect(st: State, g: Grain, why: Refusal, build: Build)
    ensures var (after, out) := Fail(st, g, why); StatusMeans(st, g, build, after, out) && OnlyTouches(st, g, after)
  {
  }

  lemma DecideNoneEffect(st: State, g: Grain, key: string)
    ensures var (after, out) := DecideNone(st, g, key); StatusMeans(st, g, NoPlan, after, out) && OnlyTouches(st, g, after)
  {
    FailEffect(st, g, FactsGone(key), NoPlan);
  }

  lemma DecidePlanEffect(st: State, g: Grain, key: string, plan: Plan)
    ensures var (after, out) := DecidePlan(st, g, key, plan);
      StatusMeans(st, g, Planned(plan), after, out) && OnlyTouches(st, g, after)
  {
    FailEffect(st, g, PeriodClosed(key), Planned(plan));
  }

  /** A post touches nothing but the journal's end and its own grain's row, and reports what it did. */
  lemma PostEffect(st: State, g: Grain)
    ensures var (after, out) := Post(st, g); StatusMeans(st, g, BuildFor(st, g), after, out) && OnlyTouches(st, g, after)
  {
    if HasActiveChart(st.chart) && g.property in st.calendars {
      DecideEffect(st, g, Fiscal.KeyOf(st.calendars[g.property], g.date), BuildFor(st, g));
    }
  }

  /** The journal is append-only over every run. */
  lemma {:induction false} JournalOnlyGrows(st: State, steps: seq<Step>)
    ensures st.journal <= Run(st, steps).journal
    decreases |steps|
  {
    if steps != [] {
      if steps[0].DoPost? {
        PostEffect(st, steps[0].grain);
      }
      JournalOnlyGrows(Apply(st, steps[0]), steps[1..]);
    }
  }

  // ---- Reversal structure of reachable states

  function Standing(journal: seq<Entry>): set<nat> {
    set i: nat | i < |journal| && journal[i].reversalOf.None?
      && (forall k :: 0 <= k < |journal| ==> journal[k].reversalOf != Some(i))
  }

  function RowEntries(ledger: map<Grain, LedgerRow>): set<nat> {
    set g | g in ledger && ledger[g].entry.Some? :: ledger[g].entry.value
  }

  /** No two rows hold the same entry. */
  ghost predicate RowsDistinct(ledger: map<Grain, LedgerRow>) {
    forall g, h :: g in ledger && h in ledger && ledger[g].entry.Some? && ledger[g].entry == ledger[h].entry ==> g == h
  }

  /** In every reachable state: a reversal reverses an earlier non-reversal of its own grain, mirrored line by line;
      nothing is reversed twice; and the standing entries correspond one to one to the ledger rows that hold one. */
  lemma ReversalStructure(start: State, steps: seq<Step>)
    requires Initial(start)
    ensures var st := Run(start, steps);
      && ReversalsMirror(st.journal) && ReversedOnce(st.journal)
      && Standing(st.journal) == RowEntries(st.ledger)
      && RowsDistinct(st.ledger)
  {
    ReachableInv(start, steps);
    var st := Run(start, steps);
    forall i: nat ensures i in Standing(st.journal) <==> i in RowEntries(st.ledger) {
      if i in Standing(st.journal) {
        assert !IsReversed(st.journal, i);
      }
      if i in RowEntries(st.ledger) {
        var g :| g in st.ledger && st.ledger[g].entry == Some(i);
        assert RowSound(st.journal, g, st.ledger[g]);
        assert LiveEntry(st.ledger, g) == Some(i);
        assert !IsReversed(st.journal, i);
      }
    }
    forall g, h | g in st.ledger && h in st.ledger && st.ledger[g].entry.Some? && st.ledger[g].entry == st.ledger[h].entry
      ensures g == h
    {
      assert RowSound(st.journal, g, st.ledger[g]) && RowSound(st.journal, h, st.ledger[h]);
    }
  }

  /** In every reachable state the journal's net on a grain and account is that of the entry its row points at. */
  lemma ReversalsCancel(start: State, steps: seq<Step>, g: Grain, a: Code)
    requires Initial(start)
    ensures var st := Run(start, steps);
      var live := LiveEntry(st.ledger, g);
      && (live.Some? ==> live.value < |st.journal| && GrainNet(st.journal, g, a) == Net(st.journal[live.value].lines, a))
      && (live.None? ==> GrainNet(st.journal, g, a) == 0)
  {
    ReachableInv(start, steps);
    var st := Run(start, steps);
    assert GrainNet(st.journal, g, a) == LiveNet(st.journal, st.ledger, g, a);
    if LiveEntry(st.ledger, g).Some? {
      assert RowSound(st.journal, g, st.ledger[g]);
    }
  }

  /** The walls the database puts up are never reached: every stored entry balances with positive amounts, every row
      is posted exactly when it holds an entry, and no post from a reachable state escapes with an error. */
  lemma WallsNeverHit(start: State, steps: seq<Step>, g: Grain)
    requires Initial(start)
    ensures var st := Run(start, steps);
      && EntriesSound(st.journal)
      && (forall h :: h in st.ledger ==> (st.ledger[h].status.Posted? <==> st.ledger[h].entry.Some?))
      && !Post(st, g).1.status.Escaped?
  {
    ReachableInv(start, steps);
    var st := Run(start, steps);
    forall h | h in st.ledger ensures st.ledger[h].status.Posted? <==> st.ledger[h].entry.Some? {
      assert RowSound(st.journal, h, st.ledger[h]);
    }
    PostKeepsInv(st, g);
  }

  // ---- Books agree with facts

  /** The grain's row says what its facts say now: the plan's fingerprint, or nothing at all. */
  ghost predicate Synced(st: State, g: Grain) { InStep(st.ledger, g, BuildFor(st, g)) }

  predicate Succeeded(s: Status) { s.PostedNow? || s.Noop? || s.Reposted? || s.Reversed? || s.Skipped? }

  ghost predicate InStep(ledger: map<Grain, LedgerRow>, g: Grain, build: Build) {
    match build
    case Planned(plan) => LiveEntry(ledger, g).Some? && ledger[g].hash == Some(plan.hash)
    case NoPlan => LiveEntry(ledger, g).None?
    case _ => false
  }

  lemma DecideSyncs(st: State, g: Grain, key: string, build: Build)
    requires Succeeded(Decide(st, g, key, build).1.status)
    ensures InStep(Decide(st, g, key, build).0.ledger, g, build)
  {
  }

  lemma PostKeepsBuild(st: State, g: Grain, h: Grain)
    ensures BuildFor(Post(st, g).0, h) == BuildFor(st, h)
  {
    PostEffect(st, g);
    SameTablesSameBuild(st, Post(st, g).0, h);
  }

  /** With the chart on, every post that does not fail leaves its grain in step with the facts. */
  lemma PostSyncs(st: State, g: Grain)
    requires HasActiveChart(st.chart) && Succeeded(Post(st, g).1.status)
    ensures Synced(Post(st, g).0, g)
  {
    PostKeepsBuild(st, g, g);
    DecideSyncs(st, g, Fiscal.KeyOf(st.calendars[g.property], g.date), BuildFor(st, g));
  }

  lemma DecideExactly(st: State, g: Grain, key: string, build: Build)
    requires !Decide(st, g, key, build).1.status.Escaped?
    ensures var (after, out) := Decide(st, g, key, build);
      var closed, inStep := IsClosed(st.events, g.property, key), InStep(st.ledger, g, build);
      && (out.status.FailedNow? <==> build.Refused? || (closed && !inStep))
      && (after.journal != st.journal <==> !build.Refused? && !closed && !inStep)
      && (out.status.FailedNow? ==>
            out.message == Some(if build.Refused? then build.why else if build.NoPlan? then FactsGone(key) else PeriodClosed(key)))
  {
  }

  /** With no active account the ledger is off: a post is skipped and changes nothing. */
  lemma ChartOffSkips(st: State, g: Grain)
    requires forall c :: c in st.chart ==> !st.chart[c].active
    ensures Post(st, g) == (st, Outcome(Skipped, None, None))
  {
  }

  /** With the chart on, a post fails exactly when the calendar is missing, the facts cannot be built into a plan, or the
      date's period is closed over a grain out of step; it writes to the journal exactly when none of these holds and
      the grain is out of step. A closed period does not disturb a grain whose books already agree. */
  lemma PostFailsExactly(st: State, g: Grain)
    requires Inv(st.journal, st.ledger) && exists c :: c in st.chart && st.chart[c].active
    ensures var (after, out) := Post(st, g);
      var build := BuildFor(st, g);
      if g.property !in st.calendars then
        out.status.FailedNow? && out.message == Some(CalendarNotConfigured) && after.journal == st.journal
      else
        var key := Fiscal.KeyOf(st.calendars[g.property], g.date);
        var closed := IsClosed(st.events, g.property, key);
        && (out.status.FailedNow? <==> build.Refused? || (closed && !Synced(st, g)))
        && (after.journal != st.journal <==> !build.Refused? && !closed && !Synced(st, g))
        && (out.status.FailedNow? ==>
              out.message == Some(if build.Refused? then build.why else if build.NoPlan? then FactsGone(key) else PeriodClosed(key)))
  {
    assert HasActiveChart(st.chart);
    PostKeepsInv(st, g);
    if g.property in st.calendars {
      DecideExactly(st, g, Fiscal.KeyOf(st.calendars[g.property], g.date), BuildFor(st, g));
    }
  }

  /** What the books should show on account `a` for the grain, read off the facts alone. */
  ghost function FactNet(st: State, g: Grain, a: Code): Amount {
    match g.source
    case PmsDaily => PmsNet(FactsOf(st.facts, g.property, g.date), RoleAccount(st.chart, ClearingRole), a)
    case PayrollAccrual =>
      var expense, liability := RoleAccount(st.chart, WagesExpenseRole), RoleAccount(st.chart, AccruedPayrollRole);
      if expense.None? || liability.None? then 0
      else PayrollNet(LaborOf(st.labor, g.property, g.date), expense.value, liability.value, a)
  }

  lemma BuildNets(st: State, g: Grain, a: Code)
    ensures BuildFor(st, g).Planned? ==> Net(BuildFor(st, g).plan.lines, a) == FactNet(st, g, a)
    ensures BuildFor(st, g).NoPlan? ==> FactNet(st, g, a) == 0
  {
    match g.source
    case PmsDaily => PmsPlanSound(st.chart, FactsOf(st.facts, g.property, g.date), g.property, g.date);
    case PayrollAccrual => PayrollPlanSound(st.chart, LaborOf(st.labor, g.property, g.date), g.property, g.date);
  }

  /** A grain in step with its facts has, on every account, exactly the net its facts call for. */
  lemma SyncedBooksAgree(st: State, g: Grain, a: Code)
    requires Inv(st.journal, st.ledger) && Synced(st, g)
    ensures GrainNet(st.journal, g, a) == FactNet(st, g, a)
  {
    BuildNets(st, g, a);
    assert GrainNet(st.journal, g, a) == LiveNet(st.journal, st.ledger, g, a);
    if BuildFor(st, g).Planned? {
      BuildSound(st, g);
      var plan, row := BuildFor(st, g).plan, st.ledger[g];
      assert RowSound(st.journal, g, row);
      var e := st.journal[row.entry.value];
      assert EntrySound(e);
      EqualFingerprintsEqualNets(g.property, g.date, e.lines, plan.lines, a);
    }
  }

  // ---- What the books should show, read off the tables row by row

  /** Each row of the fact table counts once, if it is the grain's and carries the code. */
  function AmountOn(p: Property, d: Day, a: Code): Fact -> Amount {
    (f: Fact) => if f.property == p && f.date == d && f.code == Some(a) then f.amount else 0
  }

  function AmountOf(p: Property, d: Day): Fact -> Amount {
    (f: Fact) => if f.property == p && f.date == d then f.amount else 0
  }

  function LaborCost(p: Property, d: Day): LaborFact -> Amount {
    (r: LaborFact) => if r.property == p && r.date == d then r.cost else 0
  }

  /** Account `a` is the active one carrying the role. */
  predicate Plays(chart: Chart, a: Code, role: Role) { a in chart && chart[a].active && chart[a].role == Some(role) }

  /** The net the tables call for on account `a`: the sum of the rows with its code, the clearing account also bearing
      minus the sum of all the grain's rows; for payroll, the day's cost on the liability and against the expense. */
  function TableNet(st: State, g: Grain, a: Code): Amount {
    match g.source
    case PmsDaily =>
      Sum(st.facts, AmountOn(g.property, g.date, a))
      - if Plays(st.chart, a, ClearingRole) then Sum(st.facts, AmountOf(g.property, g.date)) else 0
    case PayrollAccrual =>
      (if Plays(st.chart, a, AccruedPayrollRole) then Sum(st.labor, LaborCost(g.property, g.date)) else 0)
      - (if Plays(st.chart, a, WagesExpenseRole) then Sum(st.labor, LaborCost(g.property, g.date)) else 0)
  }

  /** Filtering the table for a grain and then summing reads each of its rows exactly once. */
  lemma FactsReadOnce(facts: seq<Fact>, p: Property, d: Day, a: Code)
    requires forall f :: f in FactsOf(facts, p, d) ==> f.code.Some?
    ensures NetOn(FactsOf(facts, p, d), a) == Sum(facts, AmountOn(p, d, a))
    ensures Total(FactsOf(facts, p, d)) == Sum(facts, AmountOf(p, d))
  {
    var only := Only(FactCode(), FactAmount(), a);
    forall f | f in facts ensures AmountOn(p, d, a)(f) == if OfGrain(p, d)(f) then only(f) else 0 {
      FilterMembers(facts, OfGrain(p, d), f);
    }
    SumFilter(facts, OfGrain(p, d), only, AmountOn(p, d, a));
    SumFilter(facts, OfGrain(p, d), FactAmount(), AmountOf(p, d));
  }

  lemma LaborReadOnce(labor: seq<LaborFact>, p: Property, d: Day)
    ensures TotalCost(LaborOf(labor, p, d)) == Sum(labor, LaborCost(p, d))
  {
    SumFilter(labor, LaborOfGrain(p, d), Cost(), LaborCost(p, d));
  }

  lemma DailyTable(st: State, g: Grain, a: Code)
    requires g.source.PmsDaily? && (BuildFor(st, g).Planned? || BuildFor(st, g).NoPlan?)
    ensures FactNet(st, g, a) == TableNet(st, g, a)
  {
    var facts := FactsOf(st.facts, g.property, g.date);
    PmsPlanExact(st.chart, facts, g.property, g.date);
    FactsReadOnce(st.facts, g.property, g.date, a);
    RoleResolves(st.chart, ClearingRole);
  }

  lemma PayrollTable(st: State, g: Grain, a: Code)
    requires g.source.PayrollAccrual? && (BuildFor(st, g).Planned? || BuildFor(st, g).NoPlan?)
    ensures FactNet(st, g, a) == TableNet(st, g, a)
  {
    PayrollPlanSound(st.chart, LaborOf(st.labor, g.property, g.date), g.property, g.date);
    LaborReadOnce(st.labor, g.property, g.date);
    RoleResolves(st.chart, WagesExpenseRole);
    RoleResolves(st.chart, AccruedPayrollRole);
  }

  /** A grain in step with its facts has, on every account, exactly the net the tables call for. */
  lemma SyncedBooksMatchTables(st: State, g: Grain, a: Code)
    requires Inv(st.journal, st.ledger) && Synced(st, g)
    ensures GrainNet(st.journal, g, a) == TableNet(st, g, a)
  {
    SyncedBooksAgree(st, g, a);
    match g.source
    case PmsDaily => DailyTable(st, g, a);
    case PayrollAccrual => PayrollTable(st, g, a);
  }

  predicate IsEdit(step: Step) { step.EditFacts? || step.EditLabor? || step.EditChart? }

  lemma DecideKeepsInStep(st: State, h: Grain, key: string, build: Build, g: Grain, standing: Build)
    requires InStep(st.ledger, g, standing) && (h == g ==> build == standing)
    ensures InStep(Decide(st, h, key, build).0.ledger, g, standing)
  {
  }

  lemma PostKeepsSynced(st: State, h: Grain, g: Grain, standing: Build)
    requires InStep(st.ledger, g, standing) && standing == BuildFor(st, g)
    ensures InStep(Post(st, h).0.ledger, g, standing)
  {
    if HasActiveChart(st.chart) && h.property in st.calendars {
      DecideKeepsInStep(st, h, Fiscal.KeyOf(st.calendars[h.property], h.date), BuildFor(st, h), g, standing);
    }
  }

  lemma ApplyKeepsSynced(st: State, step: Step, g: Grain)
    requires Synced(st, g) && !IsEdit(step)
    ensures Synced(Apply(st, step), g)
  {
    ApplyKeepsTables(st, step);
    SameTablesSameBuild(st, Apply(st, step), g);
    if step.DoPost? {
      PostKeepsSynced(st, step.grain, g, BuildFor(st, g));
    }
  }

  lemma SameTablesSameBuild(a: State, b: State, g: Grain)
    requires a.facts == b.facts && a.labor == b.labor && a.chart == b.chart
    ensures BuildFor(a, g) == BuildFor(b, g)
  {
  }

  lemma ApplyKeepsTables(st: State, step: Step)
    requires !IsEdit(step)
    ensures var after := Apply(st, step);
      && after.facts == st.facts && after.labor == st.labor && after.chart == st.chart
      && after.ledger == if step.DoPost? then Post(st, step.grain).0.ledger else st.ledger
  {
    if step.DoPost? {
      PostEffect(st, step.grain);
    }
  }

  lemma {:induction false} RunKeepsSynced(st: State, steps: seq<Step>, g: Grain)
    requires Synced(st, g) && forall i :: 0 <= i < |steps| ==> !IsEdit(steps[i])
    ensures Synced(Run(st, steps), g)
    decreases |steps|
  {
    if steps != [] {
      ApplyKeepsSynced(st, steps[0], g);
      RunKeepsSynced(Apply(st, steps[0]), steps[1..], g);
    }
  }

  lemma RunConcat(st: State, xs: seq<Step>, ys: seq<Step>)
    ensures Run(st, xs + ys) == Run(Run(st, xs), ys)
    decreases |xs|
  {
    if xs == [] {
      assert xs + ys == ys;
    } else {
      assert (xs + ys)[1..] == xs[1..] + ys;
      RunConcat(Apply(st, xs[0]), xs[1..], ys);
    }
  }

  /** Books agree with facts: after any history, a successful post of a grain leaves its journal net on every account
      equal to what the rows of the tables call for, each counted once, and it stays so through any later posts, closes, reopens and calendar edits,
      until facts or chart change. */
  lemma BooksAgreeWithFacts(start: State, before: seq<Step>, g: Grain, later: seq<Step>, a: Code)
    requires Initial(start)
    requires var st := Run(start, before); HasActiveChart(st.chart) && Succeeded(Post(st, g).1.status)
    requires forall i :: 0 <= i < |later| ==> !IsEdit(later[i])
    ensures var st := Run(start, before + [DoPost(g)] + later);
      GrainNet(st.journal, g, a) == TableNet(st, g, a)
  {
    var st := Run(start, before);
    PostSyncs(st, g);
    RunConcat(start, before, [DoPost(g)]);
    assert Run(start, before + [DoPost(g)]) == Run(Apply(st, DoPost(g)), [DoPost(g)][1..]) == Post(st, g).0;
    RunKeepsSynced(Post(st, g).0, later, g);
    RunConcat(start, before + [DoPost(g)], later);
    ReachableInv(start, before + [DoPost(g)] + later);
    SyncedBooksMatchTables(Run(start, before + [DoPost(g)] + later), g, a);
  }

  // ---- Idempotence and order

  lemma FailIdempotent(st: State, g: Grain, why: Refusal)
    ensures Fail(Fail(st, g, why).0, g, why).0 == Fail(st, g, why).0
  {
    assert Fail(Fail(st, g, why).0, g, why).0.ledger == Fail(st, g, why).0.ledger;
  }

  lemma DecidePlanIdempotent(st: State, g: Grain, key: string, plan: Plan)
    ensures DecidePlan(DecidePlan(st, g, key, plan).0, g, key, plan).0 == DecidePlan(st, g, key, plan).0
  {
    var live, after := LiveEntry(st.ledger, g), DecidePlan(st, g, key, plan).0;
    if live.Some? && st.ledger[g].hash == Some(plan.hash) {
      assert KeepStanding(after, g, live.value).0.ledger == after.ledger;
    } else if IsClosed(st.events, g.property, key) {
      FailIdempotent(st, g, PeriodClosed(key));
    } else if after != st {
      assert after.ledger[g] == PostedRow(|after.journal| - 1, plan.hash);
      assert KeepStanding(after, g, |after.journal| - 1).0.ledger == after.ledger;
    }
  }

  lemma DecideNoneIdempotent(st: State, g: Grain, key: string)
    ensures DecideNone(DecideNone(st, g, key).0, g, key).0 == DecideNone(st, g, key).0
  {
    if LiveEntry(st.ledger, g).Some? && IsClosed(st.events, g.property, key) {
      FailIdempotent(st, g, FactsGone(key));
    }
  }

  lemma DecideIdempotent(st: State, g: Grain, key: string, build: Build)
    ensures Decide(Decide(st, g, key, build).0, g, key, build).0 == Decide(st, g, key, build).0
  {
    match build
    case Refused(why) => FailIdempotent(st, g, why);
    case OutOfBalance =>
    case NoPlan => DecideNoneIdempotent(st, g, key);
    case Planned(plan) => DecidePlanIdempotent(st, g, key, plan);
  }

  /** Posting a grain again, nothing else changed, changes nothing at all, whatever the first outcome was. */
  lemma PostIdempotent(st: State, g: Grain)
    ensures Post(Post(st, g).0, g).0 == Post(st, g).0
  {
    var after := Post(st, g).0;
    PostEffect(st, g);
    PostKeepsBuild(st, g, g);
    if HasActiveChart(st.chart) {
      if g.property in st.calendars {
        DecideIdempotent(st, g, Fiscal.KeyOf(st.calendars[g.property], g.date), BuildFor(st, g));
      } else {
        FailIdempotent(st, g, CalendarNotConfigured);
      }
    }
  }

  /** Posting does not see the order of the fact rows: permuted tables give the same journal, ledger and outcome. */
  lemma PostOrderBlind(st: State, facts: seq<Fact>, labor: seq<LaborFact>, g: Grain)
    requires multiset(facts) == multiset(st.facts) && multiset(labor) == multiset(st.labor)
    ensures var other := st.(facts := facts, labor := labor);
      && Post(other, g).0 == Post(st, g).0.(facts := facts, labor := labor)
      && Post(other, g).1 == Post(st, g).1
  {
    var other := st.(facts := facts, labor := labor);
    FilterPermuted(facts, st.facts, OfGrain(g.property, g.date));
    FilterPermuted(labor, st.labor, LaborOfGrain(g.property, g.date));
    PmsPlanOrderBlind(st.chart, FactsOf(facts, g.property, g.date), FactsOf(st.facts, g.property, g.date),
                      g.property, g.date);
    PayrollPlanOrderBlind(st.chart, LaborOf(labor, g.property, g.date), LaborOf(st.labor, g.property, g.date),
                          g.property, g.date);
    assert BuildFor(other, g) == BuildFor(st, g);
    if HasActiveChart(st.chart) && g.property in st.calendars {
      DecideIgnoresFacts(st, facts, labor, g, Fiscal.KeyOf(st.calendars[g.property], g.date), BuildFor(st, g));
    }
  }

  lemma DecideIgnoresFacts(st: State, facts: seq<Fact>, labor: seq<LaborFact>, g: Grain, key: string, build: Build)
    ensures var other := st.(facts := facts, labor := labor);
      && Decide(other, g, key, build).0 == Decide(st, g, key, build).0.(facts := facts, labor := labor)
      && Decide(other, g, key, build).1 == Decide(st, g, key, build).1
  {
    match build
    case Refused(why) => FailIgnoresFacts(st, facts, labor, g, why);
    case OutOfBalance =>
    case NoPlan => DecideNoneIgnoresFacts(st, facts, labor, g, key);
    case Planned(plan) => DecidePlanIgnoresFacts(st, facts, labor, g, key, plan);
  }

  lemma FailIgnoresFacts(st: State, facts: seq<Fact>, labor: seq<LaborFact>, g: Grain, why: Refusal)
    ensures var other := st.(facts := facts, labor := labor);
      && Fail(other, g, why).0 == Fail(st, g, why).0.(facts := facts, labor := labor)
      && Fail(other, g, why).1 == Fail(st, g, why).1
  {
  }

  lemma DecideNoneIgnoresFacts(st: State, facts: seq<Fact>, labor: seq<LaborFact>, g: Grain, key: string)
    ensures var other := st.(facts := facts, labor := labor);
      && DecideNone(other, g, key).0 == DecideNone(st, g, key).0.(facts := facts, labor := labor)
      && DecideNone(other, g, key).1 == DecideNone(st, g, key).1
  {
    FailIgnoresFacts(st, facts, labor, g, FactsGone(key));
  }

  lemma DecidePlanIgnoresFacts(st: State, facts: seq<Fact>, labor: seq<LaborFact>, g: Grain, key: string, plan: Plan)
    ensures var other := st.(facts := facts, labor := labor);
      && DecidePlan(other, g, key, plan).0 == DecidePlan(st, g, key, plan).0.(facts := facts, labor := labor)
      && DecidePlan(other, g, key, plan).1 == DecidePlan(st, g, key, plan).1
  {
    var live, other := LiveEntry(st.ledger, g), st.(facts := facts, labor := labor);
    if live.Some? && st.ledger[g].hash == Some(plan.hash) {
      assert DecidePlan(other, g, key, plan) == KeepStanding(other, g, live.value);
    } else if IsClosed(st.events, g.property, key) {
      FailIgnoresFacts(st, facts, labor, g, PeriodClosed(key));
    } else if live.None? {
      assert DecidePlan(other, g, key, plan) == PostFresh(other, g, plan);
    } else if UndoPlan(st.journal, live.value).Some? {
      RepostIgnoresFacts(st, facts, labor, g, live.value, UndoPlan(st.journal, live.value).value, plan);
    }
  }

  lemma RepostIgnoresFacts(st: State, facts: seq<Fact>, labor: seq<LaborFact>, g: Grain, prior: nat, undo: Plan, plan: Plan)
    ensures var other := st.(facts := facts, labor := labor);
      && Repost(other, g, prior, undo, plan).0 == Repost(st, g, prior, undo, plan).0.(facts := facts, labor := labor)
      && Repost(other, g, prior, undo, plan).1 == Repost(st, g, prior, undo, plan).1
  {
  }

  // ---- Closed periods freeze

  /** A step that could lift the freeze on (p, key) under `config`: its reopening, or another calendar for p. */
  ghost predicate Thaws(step: Step, p: Property, key: string, config: Fiscal.FiscalConfig) {
    match step
    case DoReopen(q, k, _) => q == p && k == key
    case EditCalendars(c) => !(p in c && c[p] == config)
    case _ => false
  }

  ghost predicate Frozen(st: State, p: Property, key: string, config: Fiscal.FiscalConfig) {
    p in st.calendars && st.calendars[p] == config && IsClosed(st.events, p, key)
  }

  lemma ClosedAfterEvent(events: seq<PeriodEvent>, e: PeriodEvent, p: Property, key: string)
    ensures IsClosed(events + [e], p, key) ==
      if e.property == p && e.key == key then e.kind.Close? else IsClosed(events, p, key)
  {
    assert (events + [e])[..|events|] == events;
  }

  /** Event `i` closes exactly this property and key text, and no later event is of them. */
  ghost predicate LastClose(events: seq<PeriodEvent>, p: Property, key: string, i: int) {
    && 0 <= i < |events| && events[i] == PeriodEvent(p, key, Close)
    && forall j :: i < j < |events| ==> events[j].property != p || events[j].key != key
  }

  lemma LastCloseBefore(events: seq<PeriodEvent>, e: PeriodEvent, p: Property, key: string, i: int)
    requires i < |events|
    ensures LastClose(events + [e], p, key, i) <==> LastClose(events, p, key, i) && (e.property != p || e.key != key)
  {
    var all := events + [e];
    assert all[|events|] == e;
    if LastClose(all, p, key, i) {
      forall j | i < j < |events| ensures events[j].property != p || events[j].key != key { assert all[j] == events[j]; }
    }
  }

  /** Closed means closed and not reopened since. */
  lemma {:induction false} IsClosedExact(events: seq<PeriodEvent>, p: Property, key: string)
    ensures IsClosed(events, p, key) <==> exists i :: LastClose(events, p, key, i)
  {
    if events != [] {
      var n, front, e := |events| - 1, events[..|events| - 1], events[|events| - 1];
      assert events == front + [e];
      IsClosedExact(front, p, key);
      forall i | i < n
        ensures LastClose(events, p, key, i) <==> LastClose(front, p, key, i) && (e.property != p || e.key != key)
      {
        LastCloseBefore(front, e, p, key, i);
      }
      assert LastClose(events, p, key, n) <==> e == PeriodEvent(p, key, Close);
      if IsClosed(front, p, key) && (e.property != p || e.key != key) {
        var i :| LastClose(front, p, key, i);
        assert LastClose(events, p, key, i);
      }
    }
  }

  /** A period no event was ever written for is open. */
  lemma UntouchedIsOpen(events: seq<PeriodEvent>, p: Property, key: string)
    requires forall e :: e in events ==> e.property != p || e.key != key
    ensures !IsClosed(events, p, key)
  {
    IsClosedExact(events, p, key);
  }

  lemma ApplyKeepsFrozen(st: State, step: Step, p: Property, key: string, config: Fiscal.FiscalConfig)
    requires Frozen(st, p, key, config) && !Thaws(step, p, key, config)
    ensures Frozen(Apply(st, step), p, key, config)
  {
    match step
    case DoPost(g) => PostEffect(st, g);
    case DoClose(q, k) => ClosedAfterEvent(st.events, PeriodEvent(q, k, Close), p, key);
    case DoReopen(q, k, r) => ClosedAfterEvent(st.events, PeriodEvent(q, k, Reopen), p, key);
    case _ =>
  }

  /** A close shuts exactly its own key for its own property, and only when the key resolves; closing again adds nothing. */
  lemma CloseExact(st: State, p: Property, key: string, q: Property, k: string)
    ensures IsClosed(ClosePeriod(st, p, key).0.events, q, k) <==>
      IsClosed(st.events, q, k) || (q == p && k == key && PeriodGaps(st, p, key).Found?)
    ensures ClosePeriod(ClosePeriod(st, p, key).0, p, key) == ClosePeriod(st, p, key)
    ensures var (after, answer) := ClosePeriod(st, p, key);
      && answer == PeriodGaps(st, p, key) && after.(events := st.events) == st
      && (after.events == st.events || after.events == st.events + [PeriodEvent(p, key, Close)])
  {
    ClosedAfterEvent(st.events, PeriodEvent(p, key, Close), q, k);
    ClosedAfterEvent(st.events, PeriodEvent(p, key, Close), p, key);
  }

  /** A reopening with a reason opens exactly its own key for its own property; a blank reason opens nothing. */
  lemma ReopenExact(st: State, p: Property, key: string, reason: string, q: Property, k: string)
    ensures var (after, accepted) := ReopenPeriod(st, p, key, reason);
      && (accepted <==> PyText.Strip(reason) != "")
      && (IsClosed(after.events, q, k) <==> IsClosed(st.events, q, k) && !(accepted && q == p && k == key))
      && after.(events := st.events) == st
      && (after.events == st.events || after.events == st.events + [PeriodEvent(p, key, Reopen)])
  {
    ClosedAfterEvent(st.events, PeriodEvent(p, key, Reopen), q, k);
  }

  /** A post dated in a frozen period writes no entry. */
  lemma FrozenPost(st: State, g: Grain, key: string, config: Fiscal.FiscalConfig)
    requires Fiscal.Canonical(key) && Frozen(st, g.property, key, config) && Fiscal.Holds(config, key, g.date)
    ensures Post(st, g).0.journal == st.journal
  {
    Fiscal.HoldsExactlyItsKey(config, key, g.date);
    if HasActiveChart(st.chart) {
      DecideFrozen(st, g, key, BuildFor(st, g));
    }
  }

  lemma DecideFrozen(st: State, g: Grain, key: string, build: Build)
    requires IsClosed(st.events, g.property, key)
    ensures Decide(st, g, key, build).0.journal == st.journal
  {
  }

  /** Closed periods freeze: from a close until its reopening, no run of posts, closes, edits and other reopens
      appends an entry of that property dated inside the period. */
  lemma {:induction false} ClosedPeriodFreezes(st: State, steps: seq<Step>, p: Property, key: string,
                                               config: Fiscal.FiscalConfig, i: nat)
    requires Fiscal.Canonical(key) && Frozen(st, p, key, config)
    requires forall j :: 0 <= j < |steps| ==> !Thaws(steps[j], p, key, config)
    requires |st.journal| <= i < |Run(st, steps).journal|
    ensures var g := Run(st, steps).journal[i].grain; g.property == p ==> !Fiscal.Holds(config, key, g.date)
    decreases |steps|
  {
    if steps != [] {
      var step, next := steps[0], Apply(st, steps[0]);
      ApplyKeepsFrozen(st, step, p, key, config);
      if |next.journal| <= i {
        ClosedPeriodFreezes(next, steps[1..], p, key, config, i);
      } else {
        JournalOnlyGrows(next, steps[1..]);
        assert step.DoPost?;
        PostEffect(st, step.grain);
        if step.grain.property == p && Fiscal.Holds(config, key, step.grain.date) {
          FrozenPost(st, step.grain, key, config);
        }
      }
    }
  }

  predicate NamesPeriod(message: Option<Refusal>, key: string) {
    message == Some(PeriodClosed(key)) || message == Some(FactsGone(key))
  }

  lemma DecideRefusal(st: State, g: Grain, key: string, build: Build, named: string)
    requires NamesPeriod(Decide(st, g, key, build).1.message, named)
    requires build.Refused? ==> !NamesPeriod(Some(build.why), named)
    ensures named == key && IsClosed(st.events, g.property, key)
  {
  }

  lemma PmsNamesNoPeriod(facts: seq<Fact>, chart: Chart, lines: seq<Line>, missing: set<Code>, p: Property, d: Day,
                         named: string)
    ensures var build := PmsPlanFrom(facts, chart, lines, missing, p, d); build.Refused? ==> !NamesPeriod(Some(build.why), named)
  {
  }

  lemma PayrollNamesNoPeriod(chart: Chart, rows: seq<LaborFact>, p: Property, d: Day, named: string)
    ensures var build := PayrollPlan(chart, rows, p, d); build.Refused? ==> !NamesPeriod(Some(build.why), named)
  {
  }

  lemma BuildNamesNoPeriod(st: State, g: Grain, named: string)
    ensures BuildFor(st, g).Refused? ==> !NamesPeriod(Some(BuildFor(st, g).why), named)
  {
    match g.source
    case PmsDaily =>
      var facts, names := FactsOf(st.facts, g.property, g.date), ActiveCodes(st.chart);
      PmsNamesNoPeriod(facts, st.chart, EmitBuckets(BUCKETS, facts, names), MissingCodes(BUCKETS, facts, names),
                       g.property, g.date, named);
    case PayrollAccrual =>
      PayrollNamesNoPeriod(st.chart, LaborOf(st.labor, g.property, g.date), g.property, g.date, named);
  }

  /** A post is refused on account of a key only when that key is closed for the property and holds the date. */
  lemma RefusedOnlyInside(st: State, g: Grain, key: string)
    requires NamesPeriod(Post(st, g).1.message, key)
    ensures g.property in st.calendars && IsClosed(st.events, g.property, key)
    ensures Fiscal.Canonical(key) && Fiscal.Holds(st.calendars[g.property], key, g.date)
  {
    BuildNamesNoPeriod(st, g, key);
    DecideRefusal(st, g, Fiscal.KeyOf(st.calendars[g.property], g.date), BuildFor(st, g), key);
  }

  /** New books refuse nothing on account of a period. */
  lemma InitialRefusesNoPeriod(st: State, g: Grain, key: string)
    requires Initial(st)
    ensures !NamesPeriod(Post(st, g).1.message, key)
  {
    UntouchedIsOpen(st.events, g.property, key);
    if NamesPeriod(Post(st, g).1.message, key) {
      RefusedOnlyInside(st, g, key);
    }
  }

  /** Closing under a key freezes the days of its range exactly when the key is spelt canonically: the event log
      compares key text, and posting looks its date up under the canonical spelling. */
  lemma CloseFreezesIffCanonical(st: State, p: Property, key: string, day: Day)
    requires p in st.calendars && Fiscal.Holds(st.calendars[p], key, day)
    requires !IsClosed(st.events, p, Fiscal.KeyOf(st.calendars[p], day))
    ensures IsClosed(ClosePeriod(st, p, key).0.events, p, Fiscal.KeyOf(st.calendars[p], day)) <==> Fiscal.Canonical(key)
  {
    var k := Fiscal.KeyOf(st.calendars[p], day);
    ClosedAfterEvent(st.events, PeriodEvent(p, key, Close), p, k);
    if Fiscal.Canonical(key) {
      Fiscal.HoldsExactlyItsKey(st.calendars[p], key, day);
    }
  }

  // ---- The chart edit

  /** One upsert of the chart: refused when it would deactivate an account carrying a role; a new row has no role. */
  function PutAccount(chart: Chart, code: Code, active: bool): (Chart, bool) {
    if code in chart then
      if chart[code].role.Some? && !active then (chart, false)
      else (chart[code := chart[code].(active := active)], true)
    else (chart[code := Account(active, None)], true)
  }

  /** The upsert is refused exactly when it would deactivate an account carrying a role, and then changes nothing;
      accepted, it leaves the code active as asked, with the role it had or none, and every other row alone. */
  lemma PutAccountExact(chart: Chart, code: Code, active: bool)
    ensures var (next, accepted) := PutAccount(chart, code, active);
      && (accepted <==> active || !(code in chart && chart[code].role.Some?))
      && (!accepted ==> next == chart)
      && (accepted ==> code in next && next[code] == Account(active, if code in chart then chart[code].role else None))
      && (forall c :: c != code ==> (c in next <==> c in chart) && (c in chart ==> next[c] == chart[c]))
  {
  }

  /** No chart edit through the upsert unseats a role's account, so a post it could resolve stays resolvable. */
  lemma PutAccountKeepsRoles(chart: Chart, code: Code, active: bool, role: Role)
    requires RoleAccount(chart, role).Some?
    ensures RoleAccount(PutAccount(chart, code, active).0, role) == RoleAccount(chart, role)
  {
    var next := PutAccount(chart, code, active).0;
    var c := RoleAccount(chart, role).value;
    assert Carries(next, c, role);
    assert forall d :: Carries(next, d, role) ==> d == c;
  }
}
