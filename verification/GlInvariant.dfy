/** What every step of the posting engine keeps, and what therefore holds in every reachable state. */
module GlInvariant {
  import opened Prelude
  import opened Sums
  import opened GlPlan
  import opened GlEngine
  import Fiscal

  // ---- Measures

  function NetOnGrain(g: Grain, a: Code): Entry -> Amount {
    (e: Entry) => if e.grain == g then Net(e.lines, a) else 0
  }

  /** The signed sum on account `a` of every journal line of grain `g`, reversals included. */
  function GrainNet(journal: seq<Entry>, g: Grain, a: Code): Amount { Sum(journal, NetOnGrain(g, a)) }

  /** The net of the one entry the ledger row points at, zero when it points at none. */
  function LiveNet(journal: seq<Entry>, ledger: map<Grain, LedgerRow>, g: Grain, a: Code): Amount {
    var live := LiveEntry(ledger, g);
    if live.Some? && live.value < |journal| then Net(journal[live.value].lines, a) else 0
  }

  ghost predicate IsReversed(journal: seq<Entry>, i: nat) {
    exists k :: 0 <= k < |journal| && journal[k].reversalOf == Some(i)
  }

  // ---- The invariant, clause by clause

  /** The checks on journal lines and the balance trigger: positive amounts, balanced entries, true fingerprints. */
  ghost predicate EntrySound(e: Entry) {
    && AllPositive(e.lines) && Balance(e.lines) == 0
    && (e.reversalOf.None? ==> e.hash == FingerprintOf(e.grain.property, e.grain.date, e.lines))
  }

  ghost predicate EntriesSound(journal: seq<Entry>) {
    forall i :: 0 <= i < |journal| ==> EntrySound(journal[i])
  }

  /** A reversal points back at an earlier entry that is not itself a reversal and mirrors it line by line. */
  ghost predicate Mirrors(journal: seq<Entry>, i: nat)
    requires i < |journal| && journal[i].reversalOf.Some?
  {
    var r := journal[i].reversalOf.value;
    && r < i && journal[r].reversalOf.None? && journal[r].grain == journal[i].grain
    && |journal[i].lines| == |journal[r].lines| && journal[i].hash == journal[r].hash
    && forall k :: 0 <= k < |journal[i].lines| ==> Opposite(journal[i].lines[k], journal[r].lines[k])
  }

  /** The same line on the other side: account, amount, memo and link are kept. */
  predicate Opposite(x: Line, y: Line) {
    && x.account == y.account && x.amount == y.amount && x.memo == y.memo && x.factId == y.factId
    && x.posting != y.posting
  }

  ghost predicate ReversalsMirror(journal: seq<Entry>) {
    forall i :: 0 <= i < |journal| && journal[i].reversalOf.Some? ==> Mirrors(journal, i)
  }

  ghost predicate ReversedOnce(journal: seq<Entry>) {
    forall i, k :: 0 <= i < k < |journal| && journal[i].reversalOf.Some? ==>
      journal[i].reversalOf != journal[k].reversalOf
  }

  /** Status is posted exactly when an entry is present, and the entry is the grain's own, with the row's hash. */
  ghost predicate RowSound(journal: seq<Entry>, g: Grain, row: LedgerRow) {
    && (row.status.Posted? <==> row.entry.Some?)
    && (row.entry.Some? ==>
          var e := row.entry.value;
          e < |journal| && journal[e].grain == g && journal[e].reversalOf.None? && row.hash == Some(journal[e].hash))
  }

  ghost predicate RowsSound(journal: seq<Entry>, ledger: map<Grain, LedgerRow>) {
    forall g :: g in ledger ==> RowSound(journal, g, ledger[g])
  }

  /** A non-reversal entry stands unreversed exactly when its grain's row points at it. */
  ghost predicate LiveIsUnreversed(journal: seq<Entry>, ledger: map<Grain, LedgerRow>) {
    forall i :: 0 <= i < |journal| && journal[i].reversalOf.None? ==>
      (IsReversed(journal, i) <==> LiveEntry(ledger, journal[i].grain) != Some(i))
  }

  ghost predicate NetsAreLive(journal: seq<Entry>, ledger: map<Grain, LedgerRow>) {
    forall g, a :: GrainNet(journal, g, a) == LiveNet(journal, ledger, g, a)
  }

  ghost predicate Inv(journal: seq<Entry>, ledger: map<Grain, LedgerRow>) {
    && EntriesSound(journal) && ReversalsMirror(journal) && ReversedOnce(journal)
    && RowsSound(journal, ledger) && LiveIsUnreversed(journal, ledger) && NetsAreLive(journal, ledger)
  }

  // ---- Flipping

  lemma {:induction false} FlipNegates(lines: seq<Line>, a: Code)
    ensures Net(FlipLines(lines), a) == -Net(lines, a)
    ensures Balance(FlipLines(lines)) == -Balance(lines)
  {
    if lines != [] {
      FlipNegates(lines[1..], a);
      assert FlipLines(lines)[1..] == FlipLines(lines[1..]);
    }
  }

  lemma FlipSound(lines: seq<Line>)
    requires AllPositive(lines) && Balance(lines) == 0
    ensures AllPositive(FlipLines(lines)) && Balance(FlipLines(lines)) == 0
  {
    FlipNegates(lines, "");
    forall l | l in FlipLines(lines) ensures l.amount > 0 {
      var i :| 0 <= i < |lines| && FlipLines(lines)[i] == l;
      assert lines[i] in lines;
    }
  }

  // ---- A fresh entry on a grain with none standing

  lemma FreshKeepsNets(journal: seq<Entry>, ledger: map<Grain, LedgerRow>, g: Grain, plan: Plan)
    requires Inv(journal, ledger) && LiveEntry(ledger, g).None?
    ensures NetsAreLive(journal + [FreshEntry(g, plan)], ledger[g := PostedRow(|journal|, plan.hash)])
  {
    var e, next := FreshEntry(g, plan), ledger[g := PostedRow(|journal|, plan.hash)];
    forall h, a ensures GrainNet(journal + [e], h, a) == LiveNet(journal + [e], next, h, a) {
      SumSnoc(journal, e, NetOnGrain(h, a));
      assert GrainNet(journal, h, a) == LiveNet(journal, ledger, h, a);
      if h != g {
        assert LiveEntry(next, h) == LiveEntry(ledger, h);
        assert h in ledger ==> RowSound(journal, h, ledger[h]);
      }
    }
  }

  lemma FreshKeepsLive(journal: seq<Entry>, ledger: map<Grain, LedgerRow>, g: Grain, plan: Plan)
    requires Inv(journal, ledger) && LiveEntry(ledger, g).None?
    ensures LiveIsUnreversed(journal + [FreshEntry(g, plan)], ledger[g := PostedRow(|journal|, plan.hash)])
  {
    var e, next := FreshEntry(g, plan), ledger[g := PostedRow(|journal|, plan.hash)];
    var grown := journal + [e];
    forall i | 0 <= i < |grown| && grown[i].reversalOf.None?
      ensures IsReversed(grown, i) <==> LiveEntry(next, grown[i].grain) != Some(i)
    {
      assert IsReversed(grown, i) <==> IsReversed(journal, i) by {
        if IsReversed(journal, i) {
          var k :| 0 <= k < |journal| && journal[k].reversalOf == Some(i);
          assert grown[k].reversalOf == Some(i);
        }
      }
    }
  }

  lemma GrowKeepsMirrors(journal: seq<Entry>, e: Entry)
    requires ReversalsMirror(journal)
    requires e.reversalOf.Some? ==> Mirrors(journal + [e], |journal|)
    ensures ReversalsMirror(journal + [e])
  {
    var grown := journal + [e];
    forall i | 0 <= i < |grown| && grown[i].reversalOf.Some? ensures Mirrors(grown, i) {
      if i < |journal| {
        assert Mirrors(journal, i);
      }
    }
  }

  lemma GrowKeepsRows(journal: seq<Entry>, ledger: map<Grain, LedgerRow>, e: Entry)
    requires RowsSound(journal, ledger)
    ensures RowsSound(journal + [e], ledger)
  {
    forall g | g in ledger ensures RowSound(journal + [e], g, ledger[g]) {
      assert RowSound(journal, g, ledger[g]);
    }
  }

  lemma FreshKeepsInv(journal: seq<Entry>, ledger: map<Grain, LedgerRow>, g: Grain, plan: Plan)
    requires Inv(journal, ledger) && LiveEntry(ledger, g).None?
    requires SoundPlan(plan, g.property, g.date)
    ensures Inv(journal + [FreshEntry(g, plan)], ledger[g := PostedRow(|journal|, plan.hash)])
  {
    var e := FreshEntry(g, plan);
    FreshKeepsNets(journal, ledger, g, plan);
    FreshKeepsLive(journal, ledger, g, plan);
    GrowKeepsMirrors(journal, e);
    GrowKeepsRows(journal, ledger, e);
    assert EntrySound(e);
  }

  // ---- A reversal of the standing entry, after which the grain has none

  lemma ReversalKeepsNets(journal: seq<Entry>, ledger: map<Grain, LedgerRow>, g: Grain, prior: nat, undo: Plan)
    requires Inv(journal, ledger) && LiveEntry(ledger, g) == Some(prior)
    requires prior < |journal| && undo.lines == journal[prior].lines
    ensures NetsAreLive(journal + [ReversalEntry(g, undo, prior)], ledger - {g})
  {
    var e, next := ReversalEntry(g, undo, prior), ledger - {g};
    forall h, a ensures GrainNet(journal + [e], h, a) == LiveNet(journal + [e], next, h, a) {
      SumSnoc(journal, e, NetOnGrain(h, a));
      FlipNegates(undo.lines, a);
      assert GrainNet(journal, h, a) == LiveNet(journal, ledger, h, a);
      if h != g {
        assert LiveEntry(next, h) == LiveEntry(ledger, h);
        assert h in ledger ==> RowSound(journal, h, ledger[h]);
      }
    }
  }

  lemma ReversalKeepsLive(journal: seq<Entry>, ledger: map<Grain, LedgerRow>, g: Grain, prior: nat, undo: Plan)
    requires Inv(journal, ledger) && LiveEntry(ledger, g) == Some(prior) && prior < |journal|
    ensures LiveIsUnreversed(journal + [ReversalEntry(g, undo, prior)], ledger - {g})
  {
    var e, next := ReversalEntry(g, undo, prior), ledger - {g};
    var grown := journal + [e];
    assert RowSound(journal, g, ledger[g]);
    forall i | 0 <= i < |grown| && grown[i].reversalOf.None?
      ensures IsReversed(grown, i) <==> LiveEntry(next, grown[i].grain) != Some(i)
    {
      assert i < |journal|;
      assert IsReversed(grown, i) <==> IsReversed(journal, i) || i == prior by {
        if IsReversed(journal, i) {
          var k :| 0 <= k < |journal| && journal[k].reversalOf == Some(i);
          assert grown[k].reversalOf == Some(i);
        }
        assert grown[|journal|].reversalOf == Some(prior);
      }
    }
  }

  lemma ReversalKeepsOnce(journal: seq<Entry>, ledger: map<Grain, LedgerRow>, g: Grain, prior: nat, undo: Plan)
    requires Inv(journal, ledger) && LiveEntry(ledger, g) == Some(prior) && prior < |journal|
    ensures ReversedOnce(journal + [ReversalEntry(g, undo, prior)])
  {
    assert RowSound(journal, g, ledger[g]);
    assert !IsReversed(journal, prior);
  }

  lemma ReversalKeepsInv(journal: seq<Entry>, ledger: map<Grain, LedgerRow>, g: Grain, prior: nat, undo: Plan)
    requires Inv(journal, ledger) && LiveEntry(ledger, g) == Some(prior)
    requires UndoPlan(journal, prior) == Some(undo)
    ensures Inv(journal + [ReversalEntry(g, undo, prior)], ledger - {g})
  {
    var e := ReversalEntry(g, undo, prior);
    assert RowSound(journal, g, ledger[g]);
    assert EntrySound(journal[prior]);
    ReversalKeepsNets(journal, ledger, g, prior, undo);
    ReversalKeepsLive(journal, ledger, g, prior, undo);
    ReversalKeepsOnce(journal, ledger, g, prior, undo);
    assert Mirrors(journal + [e], |journal|);
    GrowKeepsMirrors(journal, e);
    GrowKeepsRows(journal, ledger, e);
    FlipSound(undo.lines);
    assert EntrySound(e);
  }

  // ---- A row rewritten without moving its entry

  lemma RowRewriteKeepsInv(journal: seq<Entry>, ledger: map<Grain, LedgerRow>, g: Grain, row: LedgerRow)
    requires Inv(journal, ledger) && RowSound(journal, g, row)
    requires row.entry == LiveEntry(ledger, g)
    ensures Inv(journal, ledger[g := row])
  {
    var next := ledger[g := row];
    forall h ensures LiveEntry(next, h) == LiveEntry(ledger, h) { }
    forall h, a ensures GrainNet(journal, h, a) == LiveNet(journal, next, h, a) {
      assert GrainNet(journal, h, a) == LiveNet(journal, ledger, h, a);
    }
  }

  // ---- Every step

  lemma BuildSound(st: State, g: Grain)
    ensures !BuildFor(st, g).OutOfBalance?
    ensures BuildFor(st, g).Planned? ==> SoundPlan(BuildFor(st, g).plan, g.property, g.date)
  {
    match g.source
    case PmsDaily => PmsPlanSound(st.chart, FactsOf(st.facts, g.property, g.date), g.property, g.date);
    case PayrollAccrual => PayrollPlanSound(st.chart, LaborOf(st.labor, g.property, g.date), g.property, g.date);
  }

  /** A standing entry can always be rebuilt into the plan its reversal needs, with the entry's own fingerprint. */
  lemma StandingRebuilds(journal: seq<Entry>, ledger: map<Grain, LedgerRow>, g: Grain)
    requires Inv(journal, ledger) && LiveEntry(ledger, g).Some?
    ensures var prior := LiveEntry(ledger, g).value;
      && prior < |journal|
      && UndoPlan(journal, prior).Some?
      && UndoPlan(journal, prior).value.lines == journal[prior].lines
      && UndoPlan(journal, prior).value.hash == journal[prior].hash
  {
    assert RowSound(journal, g, ledger[g]);
    var e := journal[LiveEntry(ledger, g).value];
    assert EntrySound(e);
    FinishBalanced(e.grain.property, e.grain.date, e.lines);
  }

  lemma FailKeepsInv(st: State, g: Grain, why: Refusal)
    requires Inv(st.journal, st.ledger)
    ensures Inv(Fail(st, g, why).0.journal, Fail(st, g, why).0.ledger)
  {
    if g in st.ledger {
      assert RowSound(st.journal, g, st.ledger[g]);
    }
    RowRewriteKeepsInv(st.journal, st.ledger, g, Fail(st, g, why).0.ledger[g]);
  }

  lemma KeepStandingKeepsInv(st: State, g: Grain, live: nat)
    requires Inv(st.journal, st.ledger) && g in st.ledger
    ensures Inv(KeepStanding(st, g, live).0.journal, KeepStanding(st, g, live).0.ledger)
  {
    assert RowSound(st.journal, g, st.ledger[g]);
    RowRewriteKeepsInv(st.journal, st.ledger, g, st.ledger[g].(message := None));
  }

  lemma RepostKeepsInv(st: State, g: Grain, prior: nat, undo: Plan, plan: Plan)
    requires Inv(st.journal, st.ledger) && LiveEntry(st.ledger, g) == Some(prior)
    requires UndoPlan(st.journal, prior) == Some(undo) && SoundPlan(plan, g.property, g.date)
    ensures Inv(Repost(st, g, prior, undo, plan).0.journal, Repost(st, g, prior, undo, plan).0.ledger)
  {
    var after := Repost(st, g, prior, undo, plan).0;
    ReversalKeepsInv(st.journal, st.ledger, g, prior, undo);
    var journal, ledger := st.journal + [ReversalEntry(g, undo, prior)], st.ledger - {g};
    FreshKeepsInv(journal, ledger, g, plan);
    assert after.journal == journal + [FreshEntry(g, plan)];
    assert after.ledger == ledger[g := PostedRow(|journal|, plan.hash)];
  }

  lemma DecideKeepsInv(st: State, g: Grain, key: string, build: Build)
    requires Inv(st.journal, st.ledger)
    requires build.Planned? ==> SoundPlan(build.plan, g.property, g.date)
    ensures Inv(Decide(st, g, key, build).0.journal, Decide(st, g, key, build).0.ledger)
    ensures Decide(st, g, key, build).1.status.Escaped? ==> build.OutOfBalance?
  {
    var live, closed := LiveEntry(st.ledger, g), IsClosed(st.events, g.property, key);
    if live.Some? {
      StandingRebuilds(st.journal, st.ledger, g);
    }
    match build
    case OutOfBalance =>
    case Refused(why) => FailKeepsInv(st, g, why);
    case NoPlan =>
      if live.Some? {
        if closed {
          FailKeepsInv(st, g, FactsGone(key));
        } else {
          ReversalKeepsInv(st.journal, st.ledger, g, live.value, UndoPlan(st.journal, live.value).value);
        }
      }
    case Planned(plan) =>
      if live.Some? && st.ledger[g].hash == Some(plan.hash) {
        KeepStandingKeepsInv(st, g, live.value);
      } else if closed {
        FailKeepsInv(st, g, PeriodClosed(key));
      } else if live.None? {
        FreshKeepsInv(st.journal, st.ledger, g, plan);
      } else {
        RepostKeepsInv(st, g, live.value, UndoPlan(st.journal, live.value).value, plan);
      }
  }

  /** A post keeps the invariant and never raises the out-of-balance or missing-entry error. */
  lemma PostKeepsInv(st: State, g: Grain)
    requires Inv(st.journal, st.ledger)
    ensures Inv(Post(st, g).0.journal, Post(st, g).0.ledger)
    ensures !Post(st, g).1.status.Escaped?
  {
    if HasActiveChart(st.chart) {
      if g.property !in st.calendars {
        FailKeepsInv(st, g, CalendarNotConfigured);
      } else {
        BuildSound(st, g);
        DecideKeepsInv(st, g, Fiscal.KeyOf(st.calendars[g.property], g.date), BuildFor(st, g));
      }
    }
  }

  lemma ApplyKeepsInv(st: State, step: Step)
    requires Inv(st.journal, st.ledger)
    ensures Inv(Apply(st, step).journal, Apply(st, step).ledger)
  {
    if step.DoPost? {
      PostKeepsInv(st, step.grain);
      assert Apply(st, step) == Post(st, step.grain).0;
    } else {
      assert Apply(st, step).journal == st.journal && Apply(st, step).ledger == st.ledger;
    }
  }

  lemma InitialInv(st: State)
    requires Initial(st)
    ensures Inv(st.journal, st.ledger)
  {
    forall g, a ensures GrainNet([], g, a) == LiveNet([], map[], g, a) { }
  }

  lemma {:induction false} RunKeepsInv(st: State, steps: seq<Step>)
    requires Inv(st.journal, st.ledger)
    ensures Inv(Run(st, steps).journal, Run(st, steps).ledger)
    decreases |steps|
  {
    if steps != [] {
      ApplyKeepsInv(st, steps[0]);
      RunKeepsInv(Apply(st, steps[0]), steps[1..]);
    }
  }

  /** Every state reachable by posts, closes, reopens and arbitrary edits satisfies the invariant. */
  lemma ReachableInv(start: State, steps: seq<Step>)
    requires Initial(start)
    ensures Inv(Run(start, steps).journal, Run(start, steps).ledger)
  {
    InitialInv(start);
    RunKeepsInv(start, steps);
  }
}
