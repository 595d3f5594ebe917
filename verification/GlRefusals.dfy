/** Exactly when the two builders plan, refuse or have nothing to post, read off the facts and the chart alone. */
module GlRefusals {
  import opened Prelude
  import opened Sums
  import opened Ordering
  import opened Gregorian
  import opened GlPlan

  // ---- The terms the verdicts are stated in

  predicate IsActive(chart: Chart, c: Code) { c in chart && chart[c].active }

  /** Some active account carries the role. */
  predicate HasRole(chart: Chart, role: Role) { exists c :: c in chart && chart[c].active && chart[c].role == Some(role) }

  lemma RoleResolves(chart: Chart, role: Role)
    ensures RoleAccount(chart, role).Some? <==> HasRole(chart, role)
    ensures forall c :: RoleAccount(chart, role) == Some(c) <==>
      c in chart && chart[c].active && chart[c].role == Some(role)
  {
    var r := RoleAccount(chart, role);
    forall c ensures c in chart && chart[c].active && chart[c].role == Some(role) <==> Carries(chart, c, role) { }
  }

  /** A fact's amount, counted only where its code is an active account. */
  function Postable(names: set<Code>): Fact -> Amount {
    (f: Fact) => if CodeOf(f) in names then f.amount else 0
  }

  /** A fact's amount, counted only in bucket `m` under code `c`. */
  function InGroup(m: Memo, c: Code): Fact -> Amount {
    (f: Fact) => if BucketOf(f) == m && CodeOf(f) == c then f.amount else 0
  }

  /** Codes with money on them in some bucket and no active account. */
  function Stranded(facts: seq<Fact>, chart: Chart): set<Code> {
    set f | f in facts && Sum(facts, InGroup(BucketOf(f), CodeOf(f))) != 0 && !IsActive(chart, CodeOf(f)) :: CodeOf(f)
  }

  /** The lines of the facts that carry no code. */
  function Uncoded(facts: seq<Fact>): set<(string, string, string)> {
    set f | f in facts && f.code == None :: (f.major, f.sub, f.item)
  }

  // ---- What the emitted lines come to when codes may be missing

  lemma GroupPostable(bucket: seq<Fact>, names: set<Code>, c: Code)
    ensures GroupNet(bucket, FactCode(), Postable(names))(c) == if c in names then NetOn(bucket, c) else 0
  {
    var only := Only(FactCode(), Postable(names), c);
    if c in names {
      SumEq(bucket, only, Only(FactCode(), FactAmount(), c));
    } else {
      SumZero(bucket, only);
    }
  }

  lemma EmitOneBalance(c: Code, bucket: seq<Fact>, names: set<Code>, memo: Memo)
    ensures Sum(EmitOne(c, bucket, names, memo), Signed()) == if c in names then NetOn(bucket, c) else 0
  {
    if c in names {
      EmitOneKeepsNet(c, bucket, names, memo, c);
    }
  }

  lemma EmitBalance(bucket: seq<Fact>, names: set<Code>, memo: Memo)
    ensures Balance(Emit(bucket, names, memo)) == Sum(bucket, Postable(names))
  {
    var codes, pieces := SortedText(Codes(bucket)), GroupLines(bucket, names, memo);
    SortedTextSound(Codes(bucket));
    forall c | c in codes ensures Through(pieces, Signed())(c) == GroupNet(bucket, FactCode(), Postable(names))(c) {
      EmitOneBalance(c, bucket, names, memo);
      GroupPostable(bucket, names, c);
    }
    SumFlatMap(codes, pieces, Signed());
    SumEq(codes, Through(pieces, Signed()), GroupNet(bucket, FactCode(), Postable(names)));
    GroupNetsAddUp(bucket, codes, FactCode(), Postable(names));
  }

  /** The lines emitted for a day are out of balance by its postable total. */
  lemma EmittedBalance(memos: seq<Memo>, facts: seq<Fact>, names: set<Code>)
    requires Partitions(memos, facts)
    ensures Balance(EmitBuckets(memos, facts, names)) == Sum(facts, Postable(names))
  {
    forall m | m in memos ensures Sum(Emit(Bucket(facts, m), names, m), Signed()) == Sum(Bucket(facts, m), Postable(names)) {
      EmitBalance(Bucket(facts, m), names, m);
    }
    BucketsAddUp(memos, facts, names, Signed(), Postable(names));
  }

  lemma GroupSum(facts: seq<Fact>, m: Memo, c: Code)
    ensures NetOn(Bucket(facts, m), c) == Sum(facts, InGroup(m, c))
  {
    SumFilter(facts, InBucket(m), Only(FactCode(), FactAmount(), c), InGroup(m, c));
  }

  lemma MissingIsStranded(memos: seq<Memo>, facts: seq<Fact>, chart: Chart)
    requires Partitions(memos, facts)
    ensures MissingCodes(memos, facts, ActiveCodes(chart)) == Stranded(facts, chart)
  {
    var names := ActiveCodes(chart);
    forall c ensures c in MissingCodes(memos, facts, names) <==> c in Stranded(facts, chart) {
      if c in MissingCodes(memos, facts, names) {
        var m :| m in memos && c in Missing(Bucket(facts, m), names);
        MissingInStranded(facts, chart, m, c);
      }
      if c in Stranded(facts, chart) {
        var f :| f in facts && Sum(facts, InGroup(BucketOf(f), CodeOf(f))) != 0 && !IsActive(chart, CodeOf(f)) && CodeOf(f) == c;
        StrandedInMissing(facts, chart, f);
        assert BucketOf(f) in memos;
      }
    }
  }

  lemma MissingInStranded(facts: seq<Fact>, chart: Chart, m: Memo, c: Code)
    requires c in Missing(Bucket(facts, m), ActiveCodes(chart))
    ensures c in Stranded(facts, chart)
  {
    var f :| f in Bucket(facts, m) && CodeOf(f) == c;
    FilterMembers(facts, InBucket(m), f);
    GroupSum(facts, m, c);
  }

  lemma StrandedInMissing(facts: seq<Fact>, chart: Chart, f: Fact)
    requires f in facts && Sum(facts, InGroup(BucketOf(f), CodeOf(f))) != 0 && !IsActive(chart, CodeOf(f))
    ensures CodeOf(f) in Missing(Bucket(facts, BucketOf(f)), ActiveCodes(chart))
  {
    FilterMembers(facts, InBucket(BucketOf(f)), f);
    GroupSum(facts, BucketOf(f), CodeOf(f));
  }

  // ---- The daily builder's verdict

  /** What the builder must answer, in the order the refusals take precedence. */
  ghost predicate DailyVerdict(chart: Chart, facts: seq<Fact>, stranded: set<Code>, postable: Amount, build: Build) {
    if facts == [] then build == NoPlan
    else if exists f :: f in facts && f.code == None then build == Refused(UnmappedGl(Uncoded(facts)))
    else if postable != 0 && !HasRole(chart, ClearingRole) then build == Refused(SystemRoleMissing(ClearingRole))
    else if stranded != {} then build == Refused(ChartAccountMissing(stranded))
    else build.Planned?
  }

  lemma VerdictFrom(facts: seq<Fact>, chart: Chart, lines: seq<Line>, missing: set<Code>, p: Property, d: Day)
    requires AllPositive(lines)
    ensures DailyVerdict(chart, facts, missing, Balance(lines), PmsPlanFrom(facts, chart, lines, missing, p, d))
  {
    RoleResolves(chart, ClearingRole);
    AssembleSound(chart, lines, missing, p, d);
    UncodedAreUnmapped(facts);
  }

  lemma UncodedAreUnmapped(facts: seq<Fact>)
    ensures UnmappedLines(facts) == Uncoded(facts)
    ensures Uncoded(facts) != {} <==> exists f :: f in facts && f.code == None
  {
    if f :| f in facts && f.code == None {
      assert (f.major, f.sub, f.item) in Uncoded(facts);
    }
  }

  lemma VerdictOver(memos: seq<Memo>, chart: Chart, facts: seq<Fact>, p: Property, d: Day)
    requires Partitions(memos, facts)
    ensures DailyVerdict(chart, facts, Stranded(facts, chart), Sum(facts, Postable(ActiveCodes(chart))),
                         PmsPlanOver(memos, chart, facts, p, d))
  {
    var names := ActiveCodes(chart);
    var lines, missing := EmitBuckets(memos, facts, names), MissingCodes(memos, facts, names);
    EmittedPositive(memos, facts, names);
    EmittedBalance(memos, facts, names);
    MissingIsStranded(memos, facts, chart);
    VerdictFrom(facts, chart, lines, missing, p, d);
  }

  /** The daily builder's answer for all facts and charts: nothing without facts; refused for uncoded facts, naming
      exactly their lines; refused for want of a clearing account exactly when the facts on active accounts do not come
      to zero and no active account carries the role; refused for the codes with money in a bucket and no active
      account, naming exactly those; otherwise planned. */
  lemma PmsPlanExact(chart: Chart, facts: seq<Fact>, p: Property, d: Day)
    ensures DailyVerdict(chart, facts, Stranded(facts, chart), Sum(facts, Postable(ActiveCodes(chart))), PmsPlan(chart, facts, p, d))
  {
    BucketsPartition(facts);
    VerdictOver(BUCKETS, chart, facts, p, d);
  }

  predicate BelongsTo(f: Fact, m: Memo) {
    match m
    case DailyRevenue => f.schedule.Some?
    case PassThroughTaxes => f.schedule.None? && f.major == "Taxes (Pass-Through)"
    case Settlements => f.schedule.None? && f.major == "Settlements"
    case NonOperating => f.schedule.None? && f.major != "Taxes (Pass-Through)" && f.major != "Settlements"
    case _ => false
  }

  /** The facts behind a line, in the terms of the tables: scheduled ones under daily revenue, unscheduled ones by their
      major category, all carrying the line's code. */
  lemma BehindExact(facts: seq<Fact>, l: Line, f: Fact)
    ensures f in Behind(facts, l) <==> f in facts && CodeOf(f) == l.account && BelongsTo(f, l.memo)
  {
    FilterMembers(Bucket(facts, l.memo), WithCode(l.account), f);
    FilterMembers(facts, InBucket(l.memo), f);
  }

  // ---- The order of the lines

  function Rank(m: Memo): int {
    match m
    case DailyRevenue => 0
    case PassThroughTaxes => 1
    case Settlements => 2
    case NonOperating => 3
    case _ => 4
  }

  /** Revenue, taxes, settlements, non-operating, clearing; within a bucket one line per account, by code. */
  function LineBefore(): (Line, Line) -> bool {
    (x: Line, y: Line) =>
      Rank(x.memo) < Rank(y.memo) || (x.memo == y.memo && x.account != y.account && LexLe(x.account, y.account))
  }

  lemma EmitInOrder(bucket: seq<Fact>, names: set<Code>, memo: Memo)
    ensures Pairwise(Emit(bucket, names, memo), LineBefore())
  {
    var codes, pieces := SortedText(Codes(bucket)), GroupLines(bucket, names, memo);
    TextAscends(Codes(bucket));
    PairwisePieces(codes, pieces, LineBefore());
  }

  lemma TextAscends(s: set<string>)
    ensures forall i, j :: 0 <= i < j < |SortedText(s)| ==>
      SortedText(s)[i] != SortedText(s)[j] && LexLe(SortedText(s)[i], SortedText(s)[j])
  {
    TextTotal(s);
    SortedSetSound(s, LexLe);
  }

  ghost predicate RanksRise(memos: seq<Memo>) { forall i, j :: 0 <= i < j < |memos| ==> Rank(memos[i]) < Rank(memos[j]) }

  lemma EmittedInOrder(memos: seq<Memo>, facts: seq<Fact>, names: set<Code>)
    requires RanksRise(memos)
    ensures Pairwise(EmitBuckets(memos, facts, names), LineBefore())
    ensures forall l :: l in EmitBuckets(memos, facts, names) ==> l.memo in memos
  {
    var pieces := BucketLines(facts, names);
    forall m | m in memos ensures Pairwise(pieces(m), LineBefore()) && forall l :: l in pieces(m) ==> l.memo == m {
      EmitInOrder(Bucket(facts, m), names, m);
      forall l | l in pieces(m) ensures l.memo == m { EmitMemo(Bucket(facts, m), names, m, l); }
    }
    PairwisePieces(memos, pieces, LineBefore());
    forall l | l in EmitBuckets(memos, facts, names) ensures l.memo in memos {
      var m := FlatMapOrigin(memos, pieces, l);
    }
  }

  lemma EmitMemo(bucket: seq<Fact>, names: set<Code>, memo: Memo, l: Line)
    requires l in Emit(bucket, names, memo)
    ensures l.memo == memo
  {
    var c := FlatMapOrigin(SortedText(Codes(bucket)), GroupLines(bucket, names, memo), l);
    assert l in EmitOne(c, bucket, names, memo);
  }

  /** A daily plan lists its lines bucket by bucket and by code within a bucket, one line a code, the clearing line last. */
  lemma LinesInOrder(chart: Chart, facts: seq<Fact>, p: Property, d: Day)
    requires PmsPlan(chart, facts, p, d).Planned?
    ensures Pairwise(PmsPlan(chart, facts, p, d).plan.lines, LineBefore())
  {
    BucketRanks();
    LinesInOrderOver(BUCKETS, chart, facts, p, d);
  }

  lemma LinesInOrderOver(memos: seq<Memo>, chart: Chart, facts: seq<Fact>, p: Property, d: Day)
    requires RanksRise(memos) && (forall m :: m in memos ==> Rank(m) < 4) && PmsPlanOver(memos, chart, facts, p, d).Planned?
    ensures Pairwise(PmsPlanOver(memos, chart, facts, p, d).plan.lines, LineBefore())
  {
    var names := ActiveCodes(chart);
    EmittedInOrder(memos, facts, names);
    AssembledInOrder(chart, EmitBuckets(memos, facts, names), MissingCodes(memos, facts, names), p, d);
  }

  lemma AssembledInOrder(chart: Chart, lines: seq<Line>, missing: set<Code>, p: Property, d: Day)
    requires Assemble(chart, lines, missing, p, d).Planned?
    requires Pairwise(lines, LineBefore()) && forall l :: l in lines ==> Rank(l.memo) < 4
    ensures Pairwise(Assemble(chart, lines, missing, p, d).plan.lines, LineBefore())
  {
    BalancedInOrder(lines, RoleAccount(chart, ClearingRole));
  }

  lemma BucketRanks()
    ensures RanksRise(BUCKETS) && forall m :: m in BUCKETS ==> Rank(m) < 4
  {
  }

  lemma BalancedInOrder(lines: seq<Line>, clearing: Option<Code>)
    requires Pairwise(lines, LineBefore()) && forall l :: l in lines ==> Rank(l.memo) < 4
    ensures Pairwise(Balanced(lines, clearing), LineBefore())
  {
    if Balance(lines) != 0 && clearing.Some? {
      PairwiseConcat(lines, [BalancingLine(clearing.value, Balance(lines))], LineBefore());
    }
  }

  // ---- The accrual builder's verdict

  function CostOfRow(): LaborFact -> Amount { (r: LaborFact) => r.cost }

  /** The accrual builder's answer for all rows and charts: nothing when the day nets to zero, whatever the chart; then
      refused for the expense role before the liability role, each exactly when no active account carries it; otherwise
      planned. */
  lemma PayrollPlanExact(chart: Chart, rows: seq<LaborFact>, p: Property, d: Day)
    ensures var build := PayrollPlan(chart, rows, p, d);
      if Sum(rows, CostOfRow()) == 0 then build == NoPlan
      else if !HasRole(chart, WagesExpenseRole) then build == Refused(SystemRoleMissing(WagesExpenseRole))
      else if !HasRole(chart, AccruedPayrollRole) then build == Refused(SystemRoleMissing(AccruedPayrollRole))
      else build.Planned?
  {
    SumEq(rows, CostOfRow(), Cost());
    RoleResolves(chart, WagesExpenseRole);
    RoleResolves(chart, AccruedPayrollRole);
    PayrollPlanSound(chart, rows, p, d);
  }

  function CostOf(dept: Option<int>): LaborFact -> Amount { (r: LaborFact) => if r.dept == dept then r.cost else 0 }

  /** A line of an accrual plan: a department's cost against the expense account, or the day's cost on the liability. */
  ghost predicate AccrualLine(chart: Chart, rows: seq<LaborFact>, l: Line) {
    && IsActive(chart, l.account) && l.factId.None?
    && match l.memo
       case LaborAccrual(dept) =>
         chart[l.account].role == Some(WagesExpenseRole) && SidedAmount(l.posting, l.amount) == -Sum(rows, CostOf(dept))
       case AccruedPayroll =>
         chart[l.account].role == Some(AccruedPayrollRole) && SidedAmount(l.posting, l.amount) == Sum(rows, Cost())
       case _ => false
  }

  lemma ExpenseTraces(expense: Code, rows: seq<LaborFact>, l: Line)
    requires l in ExpenseLines(expense, rows)
    ensures l.account == expense && l.factId.None? && l.memo.LaborAccrual?
    ensures SidedAmount(l.posting, l.amount) == -Sum(rows, CostOf(l.memo.dept))
  {
    var dept := FlatMapOrigin(SortedDepts(Depts(rows)), DeptLines(expense, rows), l);
    assert l in ExpenseOne(expense, dept, rows);
    SumEq(rows, CostOf(dept), Only(DeptKey(), Cost(), dept));
  }

  /** Every line of an accrual plan says which department's cost it is, on the account of its role. */
  lemma AccrualLinesTrace(chart: Chart, rows: seq<LaborFact>, p: Property, d: Day, l: Line)
    requires PayrollPlan(chart, rows, p, d).Planned? && l in PayrollPlan(chart, rows, p, d).plan.lines
    ensures AccrualLine(chart, rows, l)
  {
    var expense, liability := RoleAccount(chart, WagesExpenseRole).value, RoleAccount(chart, AccruedPayrollRole).value;
    assert PayrollPlan(chart, rows, p, d) == FinishPlan(p, d, PayrollLines(expense, liability, rows));
    if l in ExpenseLines(expense, rows) {
      ExpenseTraces(expense, rows, l);
    } else {
      assert l == Sided(liability, TotalCost(rows), AccruedPayroll, None);
    }
  }

  lemma {:induction false} PieceOf<T, U>(xs: seq<T>, f: T -> seq<U>, x: T, y: U)
    requires x in xs && y in f(x)
    ensures y in FlatMap(xs, f)
  {
    if y !in f(xs[0]) {
      PieceOf(xs[1..], f, x, y);
    }
  }

  /** Every department with a cost has its line. */
  lemma DepartmentHasLine(chart: Chart, rows: seq<LaborFact>, p: Property, d: Day, dept: Option<int>)
    requires PayrollPlan(chart, rows, p, d).Planned? && Sum(rows, CostOf(dept)) != 0
    ensures exists l :: l in PayrollPlan(chart, rows, p, d).plan.lines && l.memo == LaborAccrual(dept)
  {
    var expense, liability := RoleAccount(chart, WagesExpenseRole).value, RoleAccount(chart, AccruedPayrollRole).value;
    assert PayrollPlan(chart, rows, p, d) == FinishPlan(p, d, PayrollLines(expense, liability, rows));
    SumEq(rows, CostOf(dept), Only(DeptKey(), Cost(), dept));
    if dept !in Depts(rows) {
      SumZero(rows, CostOf(dept));
    }
    SortedDeptsSound(Depts(rows));
    var line := Sided(expense, -CostIn(rows, dept), LaborAccrual(dept), None);
    assert DeptLines(expense, rows)(dept) == [line];
    PieceOf(SortedDepts(Depts(rows)), DeptLines(expense, rows), dept, line);
    assert line in PayrollLines(expense, liability, rows);
  }

  /** Departments by number, the unassigned one after them, the liability last. */
  function AccrualBefore(): (Line, Line) -> bool {
    (x: Line, y: Line) =>
      x.memo.LaborAccrual?
      && (y.memo.AccruedPayroll?
          || (y.memo.LaborAccrual? && DeptBefore(x.memo.dept, y.memo.dept)))
  }

  /** Whether department `a` comes before `b`. */
  predicate DeptBefore(a: Option<int>, b: Option<int>) { a.Some? && (b.None? || a.value < b.value) }

  lemma DeptsAscend(s: set<Option<int>>)
    ensures forall i, j :: 0 <= i < j < |SortedDepts(s)| ==> DeptBefore(SortedDepts(s)[i], SortedDepts(s)[j])
  {
    assert TotalOn(s, DeptLe);
    SortedSetSound(s, DeptLe);
  }

  lemma ExpensesInOrder(expense: Code, rows: seq<LaborFact>)
    ensures Pairwise(ExpenseLines(expense, rows), AccrualBefore())
  {
    var depts := SortedDepts(Depts(rows));
    DeptsAscend(Depts(rows));
    PairwisePieces(depts, DeptLines(expense, rows), AccrualBefore());
  }

  /** An accrual plan lists its departments in order and the liability last. */
  lemma AccrualLinesInOrder(chart: Chart, rows: seq<LaborFact>, p: Property, d: Day)
    requires PayrollPlan(chart, rows, p, d).Planned?
    ensures Pairwise(PayrollPlan(chart, rows, p, d).plan.lines, AccrualBefore())
  {
    var expense, liability := RoleAccount(chart, WagesExpenseRole).value, RoleAccount(chart, AccruedPayrollRole).value;
    ExpensesInOrder(expense, rows);
    var lines, last := ExpenseLines(expense, rows), Sided(liability, TotalCost(rows), AccruedPayroll, None);
    forall l | l in lines ensures l.memo.LaborAccrual? { ExpenseTraces(expense, rows, l); }
    PairwiseConcat(lines, [last], AccrualBefore());
  }

  /** Every bucket's code with money on it has its line. */
  lemma GroupHasLine(chart: Chart, facts: seq<Fact>, p: Property, d: Day, f: Fact)
    requires PmsPlan(chart, facts, p, d).Planned? && f in facts && Sum(facts, InGroup(BucketOf(f), CodeOf(f))) != 0
    ensures exists l :: l in PmsPlan(chart, facts, p, d).plan.lines && l.memo == BucketOf(f) && l.account == CodeOf(f)
  {
    BucketsPartition(facts);
    PmsPlanExact(chart, facts, p, d);
    assert CodeOf(f) !in Stranded(facts, chart);
    var l := EmittedFor(BUCKETS, facts, ActiveCodes(chart), f);
    assert l in Balanced(EmitBuckets(BUCKETS, facts, ActiveCodes(chart)), RoleAccount(chart, ClearingRole));
  }

  lemma EmittedFor(memos: seq<Memo>, facts: seq<Fact>, names: set<Code>, f: Fact) returns (l: Line)
    requires Partitions(memos, facts) && f in facts && CodeOf(f) in names
    requires Sum(facts, InGroup(BucketOf(f), CodeOf(f))) != 0
    ensures l in EmitBuckets(memos, facts, names) && l.memo == BucketOf(f) && l.account == CodeOf(f)
  {
    var m, c := BucketOf(f), CodeOf(f);
    var bucket := Bucket(facts, m);
    FilterMembers(facts, InBucket(m), f);
    GroupSum(facts, m, c);
    SortedTextSound(Codes(bucket));
    l := Sided(c, NetOn(bucket, c), m, SoleFact(bucket, c));
    assert GroupLines(bucket, names, m)(c) == [l];
    PieceOf(SortedText(Codes(bucket)), GroupLines(bucket, names, m), c, l);
    PieceOf(memos, BucketLines(facts, names), m, l);
  }
}
