/** The posting engine as a state machine: one post, close or reopen is one step on the tables. */
module GlEngine {
  import opened Prelude
  import opened Sums
  import opened Gregorian
  import opened GlPlan
  import PyText
  import Fiscal

  datatype Source = PmsDaily | PayrollAccrual

  /** One (property, business date, source): the unit the ledger keeps a row for. */
  datatype Grain = Grain(property: Property, date: Day, source: Source)

  /** An entry's id is its position in the journal. */
  datatype Entry = Entry(grain: Grain, hash: Fingerprint, reversalOf: Option<nat>, lines: seq<Line>)

  datatype RowStatus = Posted | Failed

  datatype LedgerRow = LedgerRow(entry: Option<nat>, hash: Option<Fingerprint>, status: RowStatus, message: Option<Refusal>)

  datatype EventKind = Close | Reopen

  datatype PeriodEvent = PeriodEvent(property: Property, key: string, kind: EventKind)

  datatype State = State(
    facts: seq<Fact>, labor: seq<LaborFact>, chart: Chart, calendars: map<Property, Fiscal.FiscalConfig>,
    journal: seq<Entry>, ledger: map<Grain, LedgerRow>, events: seq<PeriodEvent>)

  datatype Status = PostedNow | Noop | Reposted | Reversed | Skipped | FailedNow
                  | Escaped  // an invariant violation leaves the call as an exception and nothing is written

  datatype Outcome = Outcome(status: Status, entry: Option<nat>, message: Option<Refusal>)

  // ---- Reads

  function OfGrain(p: Property, d: Day): Fact -> bool { (f: Fact) => f.property == p && f.date == d }

  function LaborOfGrain(p: Property, d: Day): LaborFact -> bool { (f: LaborFact) => f.property == p && f.date == d }

  function FactsOf(facts: seq<Fact>, p: Property, d: Day): seq<Fact> { Filter(facts, OfGrain(p, d)) }

  function LaborOf(labor: seq<LaborFact>, p: Property, d: Day): seq<LaborFact> { Filter(labor, LaborOfGrain(p, d)) }

  function BuildFor(st: State, g: Grain): Build {
    match g.source
    case PmsDaily => PmsPlan(st.chart, FactsOf(st.facts, g.property, g.date), g.property, g.date)
    case PayrollAccrual => PayrollPlan(st.chart, LaborOf(st.labor, g.property, g.date), g.property, g.date)
  }

  /** Closed when the last event for exactly this property and key text is a close. */
  predicate IsClosed(events: seq<PeriodEvent>, p: Property, key: string) {
    events != [] &&
    var last := events[|events| - 1];
    if last.property == p && last.key == key then last.kind.Close? else IsClosed(events[..|events| - 1], p, key)
  }

  /** The entry the grain's ledger row points at. */
  function LiveEntry(ledger: map<Grain, LedgerRow>, g: Grain): Option<nat> {
    if g in ledger then ledger[g].entry else None
  }

  // ---- Writing entries

  function FlipLine(l: Line): Line { l.(posting := Flipped(l.posting)) }

  function FlipLines(lines: seq<Line>): (r: seq<Line>)
    ensures |r| == |lines| && forall i :: 0 <= i < |lines| ==> r[i] == FlipLine(lines[i])
  {
    seq(|lines|, i requires 0 <= i < |lines| => FlipLine(lines[i]))
  }

  /** The plan rebuilt from a stored entry. */
  function PlanOfEntry(e: Entry): Build { FinishPlan(e.grain.property, e.grain.date, e.lines) }

  function FreshEntry(g: Grain, plan: Plan): Entry { Entry(g, plan.hash, None, plan.lines) }

  function ReversalEntry(g: Grain, plan: Plan, prior: nat): Entry {
    Entry(g, plan.hash, Some(prior), FlipLines(plan.lines))
  }

  // ---- Posting

  function Fail(st: State, g: Grain, why: Refusal): (State, Outcome) {
    var row :=
      if g !in st.ledger then LedgerRow(None, None, Failed, Some(why))
      else
        var was := st.ledger[g];
        was.(status := if was.entry.None? then Failed else was.status, message := Some(why));
    (st.(ledger := st.ledger[g := row]), Outcome(FailedNow, row.entry, Some(why)))
  }

  function PostedRow(id: nat, hash: Fingerprint): LedgerRow { LedgerRow(Some(id), Some(hash), Posted, None) }

  function PostFresh(st: State, g: Grain, plan: Plan): (State, Outcome) {
    var id := |st.journal|;
    (st.(journal := st.journal + [FreshEntry(g, plan)], ledger := st.ledger[g := PostedRow(id, plan.hash)]),
     Outcome(PostedNow, Some(id), None))
  }

  function Repost(st: State, g: Grain, prior: nat, undo: Plan, plan: Plan): (State, Outcome) {
    var id := |st.journal| + 1;
    (st.(journal := st.journal + [ReversalEntry(g, undo, prior), FreshEntry(g, plan)],
         ledger := st.ledger[g := PostedRow(id, plan.hash)]),
     Outcome(Reposted, Some(id), None))
  }

  function Reverse(st: State, g: Grain, prior: nat, undo: Plan): (State, Outcome) {
    var id := |st.journal|;
    (st.(journal := st.journal + [ReversalEntry(g, undo, prior)], ledger := st.ledger - {g}),
     Outcome(Reversed, Some(id), None))
  }

  function KeepStanding(st: State, g: Grain, live: nat): (State, Outcome)
    requires g in st.ledger
  {
    (st.(ledger := st.ledger[g := st.ledger[g].(message := None)]), Outcome(Noop, Some(live), None))
  }

  /** The stored plan a reversal starts from; absent when the entry does not exist or does not balance. */
  function UndoPlan(journal: seq<Entry>, prior: nat): Option<Plan> {
    if prior >= |journal| then None
    else
      var b := PlanOfEntry(journal[prior]);
      if b.Planned? then Some(b.plan) else None
  }

  /** Nothing to post: a standing entry over no facts is reversed, unless its period is closed. */
  function DecideNone(st: State, g: Grain, key: string): (State, Outcome) {
    var live := LiveEntry(st.ledger, g);
    if live.None? then (st, Outcome(Skipped, None, None))
    else if IsClosed(st.events, g.property, key) then Fail(st, g, FactsGone(key))
    else
      var undo := UndoPlan(st.journal, live.value);
      if undo.None? then (st, Outcome(Escaped, None, None)) else Reverse(st, g, live.value, undo.value)
  }

  /** A plan: an unchanged one stands, a changed one is reversed and reposted, a closed period refuses either. */
  function DecidePlan(st: State, g: Grain, key: string, plan: Plan): (State, Outcome) {
    var live := LiveEntry(st.ledger, g);
    if live.Some? && st.ledger[g].hash == Some(plan.hash) then KeepStanding(st, g, live.value)
    else if IsClosed(st.events, g.property, key) then Fail(st, g, PeriodClosed(key))
    else if live.None? then PostFresh(st, g, plan)
    else
      var undo := UndoPlan(st.journal, live.value);
      if undo.None? then (st, Outcome(Escaped, None, None)) else Repost(st, g, live.value, undo.value, plan)
  }

  /** Posting once the grain's period key is known and the plan is built. */
  function Decide(st: State, g: Grain, key: string, build: Build): (State, Outcome) {
    match build
    case Refused(why) => Fail(st, g, why)
    case OutOfBalance => (st, Outcome(Escaped, None, None))
    case NoPlan => DecideNone(st, g, key)
    case Planned(plan) => DecidePlan(st, g, key, plan)
  }

  /** The one entry point. */
  ghost function Post(st: State, g: Grain): (State, Outcome) {
    if !HasActiveChart(st.chart) then (st, Outcome(Skipped, None, None))
    else if g.property !in st.calendars then Fail(st, g, CalendarNotConfigured)
    else Decide(st, g, Fiscal.KeyOf(st.calendars[g.property], g.date), BuildFor(st, g))
  }

  // ---- Periods

  datatype Gaps = Gaps(unposted: set<Day>, orphaned: set<Day>)

  datatype GapsAnswer = Found(gaps: Gaps) | NoCalendar | MalformedKey

  function FactDates(facts: seq<Fact>, p: Property, start: Day, end: Day): set<Day> {
    set f | f in facts && f.property == p && start <= f.date <= end :: f.date
  }

  function LaborDates(labor: seq<LaborFact>, p: Property, start: Day, end: Day): set<Day> {
    set f | f in labor && f.property == p && start <= f.date <= end :: f.date
  }

  function PostedDates(ledger: map<Grain, LedgerRow>, p: Property, start: Day, end: Day): set<Day> {
    set g | g in ledger && g.property == p && start <= g.date <= end && g.source.PmsDaily? && ledger[g].status.Posted?
      :: g.date
  }

  function OrphanedDates(st: State, p: Property, start: Day, end: Day): set<Day> {
    set g | g in st.ledger && g.property == p && start <= g.date <= end && st.ledger[g].entry.Some?
      && g.date !in (if g.source.PmsDaily? then FactDates(st.facts, p, start, end) else LaborDates(st.labor, p, start, end))
      :: g.date
  }

  function PeriodGaps(st: State, p: Property, key: string): GapsAnswer {
    if p !in st.calendars then NoCalendar
    else
      var range := Fiscal.ResolvePeriod(st.calendars[p], key);
      if range.None? then MalformedKey
      else
        var (start, end) := range.value;
        Found(Gaps(FactDates(st.facts, p, start, end) - PostedDates(st.ledger, p, start, end),
                   OrphanedDates(st, p, start, end)))
  }

  /** The answer and the event log after it: one close event, only when the period was not already closed. */
  function ClosePeriod(st: State, p: Property, key: string): (State, GapsAnswer) {
    var answer := PeriodGaps(st, p, key);
    if !answer.Found? || IsClosed(st.events, p, key) then (st, answer)
    else (st.(events := st.events + [PeriodEvent(p, key, Close)]), answer)
  }

  /** A blank reason is refused; an open period is left as it is. */
  function ReopenPeriod(st: State, p: Property, key: string, reason: string): (State, bool) {
    if PyText.Strip(reason) == "" then (st, false)
    else if !IsClosed(st.events, p, key) then (st, true)
    else (st.(events := st.events + [PeriodEvent(p, key, Reopen)]), true)
  }

  // ---- Runs

  datatype Step =
    | DoPost(grain: Grain)
    | DoClose(property: Property, key: string)
    | DoReopen(property: Property, key: string, reason: string)
    | EditFacts(facts: seq<Fact>)
    | EditLabor(labor: seq<LaborFact>)
    | EditChart(chart: Chart)
    | EditCalendars(calendars: map<Property, Fiscal.FiscalConfig>)

  ghost function Apply(st: State, step: Step): State {
    match step
    case DoPost(g) => Post(st, g).0
    case DoClose(p, k) => ClosePeriod(st, p, k).0
    case DoReopen(p, k, r) => ReopenPeriod(st, p, k, r).0
    case EditFacts(f) => st.(facts := f)
    case EditLabor(l) => st.(labor := l)
    case EditChart(c) => st.(chart := c)
    case EditCalendars(c) => st.(calendars := c)
  }

  ghost function Run(st: State, steps: seq<Step>): State
    decreases |steps|
  {
    if steps == [] then st else Run(Apply(st, steps[0]), steps[1..])
  }

  /** Empty books over any facts, chart and calendars. */
  ghost predicate Initial(st: State) {
    st.journal == [] && st.ledger == map[] && st.events == []
  }
}
