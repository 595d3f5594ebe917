/** The two plan builders as they run: dictionaries filled row by row, lines appended group by group. */
module GlBuilders {
  import opened Prelude
  import opened Sums
  import opened Ordering
  import opened Gregorian
  import opened GlPlan
  import opened GlRefusals

  lemma PrefixStep<T>(xs: seq<T>, i: nat)
    requires i < |xs|
    ensures xs[..i + 1] == xs[..i] + [xs[i]]
  {
  }

  lemma CodesSnoc(facts: seq<Fact>, f: Fact)
    ensures Codes(facts + [f]) == Codes(facts) + {CodeOf(f)}
  {
    assert f in facts + [f];
    forall g | g in facts ensures g in facts + [f] { }
  }

  /** Net amount per GL code, one row at a time. */
  method GroupByGl(facts: seq<Fact>) returns (sums: map<Code, Amount>)
    ensures sums.Keys == Codes(facts)
    ensures forall c :: c in sums ==> sums[c] == NetOn(facts, c)
  {
    sums := map[];
    for i := 0 to |facts|
      invariant sums.Keys == Codes(facts[..i])
      invariant forall c :: c in sums ==> sums[c] == NetOn(facts[..i], c)
    {
      var f := facts[i];
      var code := CodeOf(f);
      PrefixStep(facts, i);
      CodesSnoc(facts[..i], f);
      forall c ensures NetOn(facts[..i + 1], c) == NetOn(facts[..i], c) + if CodeOf(f) == c then f.amount else 0 {
        SumSnoc(facts[..i], f, Only(FactCode(), FactAmount(), c));
      }
      if code !in sums {
        NetOnAbsent(facts[..i], code);
      }
      sums := sums[code := (if code in sums then sums[code] else 0) + f.amount];
    }
    assert facts[..|facts|] == facts;
  }

  lemma NoneWithCode(facts: seq<Fact>, c: Code)
    requires c !in Codes(facts)
    ensures Filter(facts, WithCode(c)) == []
  {
    forall f | f in facts ensures !WithCode(c)(f) {
      assert CodeOf(f) in Codes(facts);
    }
    FilterNone(facts, WithCode(c));
  }

  ghost predicate GroupsOf(byCode: map<Code, seq<Fact>>, facts: seq<Fact>) {
    && byCode.Keys == Codes(facts)
    && forall c :: c in byCode ==> byCode[c] == Filter(facts, WithCode(c))
  }

  lemma CodeFilterSnoc(facts: seq<Fact>, f: Fact, c: Code)
    ensures Filter(facts + [f], WithCode(c)) == if CodeOf(f) == c then Filter(facts, WithCode(c)) + [f] else Filter(facts, WithCode(c))
  {
    FilterSnoc(facts, f, WithCode(c));
  }

  lemma GroupsStep(byCode: map<Code, seq<Fact>>, facts: seq<Fact>, f: Fact)
    requires GroupsOf(byCode, facts)
    ensures GroupsOf(byCode[CodeOf(f) := (if CodeOf(f) in byCode then byCode[CodeOf(f)] else []) + [f]], facts + [f])
  {
    CodesSnoc(facts, f);
    var next := byCode[CodeOf(f) := (if CodeOf(f) in byCode then byCode[CodeOf(f)] else []) + [f]];
    forall c | c in next ensures next[c] == Filter(facts + [f], WithCode(c)) {
      GroupStep(byCode, facts, f, c);
    }
  }

  lemma GroupStep(byCode: map<Code, seq<Fact>>, facts: seq<Fact>, f: Fact, c: Code)
    requires GroupsOf(byCode, facts) && (c in byCode || c == CodeOf(f))
    ensures Filter(facts + [f], WithCode(c))
         == (if c in byCode then byCode[c] else []) + if c == CodeOf(f) then [f] else []
  {
    CodeFilterSnoc(facts, f, c);
    if c !in byCode {
      NoneWithCode(facts, c);
    }
  }

  /** The facts of each GL code, in row order. */
  method FactsByCode(bucket: seq<Fact>) returns (byCode: map<Code, seq<Fact>>)
    ensures GroupsOf(byCode, bucket)
  {
    byCode := map[];
    for i := 0 to |bucket|
      invariant GroupsOf(byCode, bucket[..i])
    {
      var f := bucket[i];
      PrefixStep(bucket, i);
      GroupsStep(byCode, bucket[..i], f);
      byCode := byCode[CodeOf(f) := (if CodeOf(f) in byCode then byCode[CodeOf(f)] else []) + [f]];
    }
    assert bucket[..|bucket|] == bucket;
  }

  ghost function MissingOf(codes: seq<Code>, bucket: seq<Fact>, names: set<Code>): set<Code> {
    set c | c in codes && NetOn(bucket, c) != 0 && c !in names
  }

  lemma MissingSnoc(codes: seq<Code>, c: Code, bucket: seq<Fact>, names: set<Code>)
    ensures MissingOf(codes + [c], bucket, names)
         == MissingOf(codes, bucket, names) + if NetOn(bucket, c) != 0 && c !in names then {c} else {}
  {
    assert forall d :: d in codes + [c] <==> d in codes || d == c;
  }

  method GroupLine(gl: Code, net: Amount, group: seq<Fact>, names: set<Code>, memo: Memo, ghost bucket: seq<Fact>)
    returns (lines: seq<Line>, missing: set<Code>)
    requires net == NetOn(bucket, gl) && group == Filter(bucket, WithCode(gl))
    ensures lines == EmitOne(gl, bucket, names, memo)
    ensures missing == if net != 0 && gl !in names then {gl} else {}
  {
    if net == 0 {
      return [], {};
    }
    if gl !in names {
      return [], {gl};
    }
    var posting := if net > 0 then Credit else Debit;
    var factId := if |group| == 1 then Some(group[0].id) else None;
    lines, missing := [Line(gl, posting, if net < 0 then -net else net, memo, factId)], {};
  }

  method EmitCodes(codes: seq<Code>, sums: map<Code, Amount>, byCode: map<Code, seq<Fact>>, names: set<Code>, memo: Memo,
                   lines: seq<Line>, missing: set<Code>, ghost bucket: seq<Fact>)
    returns (lines': seq<Line>, missing': set<Code>)
    requires forall c :: c in codes ==> c in sums && sums[c] == NetOn(bucket, c)
    requires forall c :: c in codes ==> c in byCode && byCode[c] == Filter(bucket, WithCode(c))
    ensures lines' == lines + FlatMap(codes, GroupLines(bucket, names, memo))
    ensures missing' == missing + MissingOf(codes, bucket, names)
  {
    ghost var pieces := GroupLines(bucket, names, memo);
    lines', missing' := lines, missing;
    for i := 0 to |codes|
      invariant lines' == lines + FlatMap(codes[..i], pieces)
      invariant missing' == missing + MissingOf(codes[..i], bucket, names)
    {
      var gl := codes[i];
      PrefixStep(codes, i);
      FlatMapSnoc(codes[..i], gl, pieces);
      MissingSnoc(codes[..i], gl, bucket, names);
      var more, lacking := GroupLine(gl, sums[gl], byCode[gl], names, memo, bucket);
      assert more == pieces(gl);
      lines', missing' := lines' + more, missing' + lacking;
    }
    assert codes[..|codes|] == codes;
  }

  /** Append the bucket's lines, in code order, and collect the codes the chart lacks. */
  method EmitBucket(bucket: seq<Fact>, names: set<Code>, memo: Memo, lines: seq<Line>, missing: set<Code>)
    returns (lines': seq<Line>, missing': set<Code>)
    ensures lines' == lines + Emit(bucket, names, memo)
    ensures missing' == missing + Missing(bucket, names)
  {
    var byCode := FactsByCode(bucket);
    var sums := GroupByGl(bucket);
    var codes := SortedText(sums.Keys);
    SortedTextSound(sums.Keys);
    lines', missing' := EmitCodes(codes, sums, byCode, names, memo, lines, missing, bucket);
    assert MissingOf(codes, bucket, names) == Missing(bucket, names);
  }

  lemma MissingCodesSnoc(memos: seq<Memo>, m: Memo, facts: seq<Fact>, names: set<Code>)
    ensures MissingCodes(memos + [m], facts, names) == MissingCodes(memos, facts, names) + Missing(Bucket(facts, m), names)
  {
    assert forall x :: x in memos + [m] <==> x in memos || x == m;
  }

  /** The buckets one after another, in line order. */
  method EmitFacts(memos: seq<Memo>, facts: seq<Fact>, names: set<Code>) returns (lines: seq<Line>, missing: set<Code>)
    ensures lines == EmitBuckets(memos, facts, names)
    ensures missing == MissingCodes(memos, facts, names)
  {
    lines, missing := [], {};
    for i := 0 to |memos|
      invariant lines == EmitBuckets(memos[..i], facts, names)
      invariant missing == MissingCodes(memos[..i], facts, names)
    {
      PrefixStep(memos, i);
      FlatMapSnoc(memos[..i], memos[i], BucketLines(facts, names));
      MissingCodesSnoc(memos[..i], memos[i], facts, names);
      lines, missing := EmitBucket(Bucket(facts, memos[i]), names, memos[i], lines, missing);
    }
    assert memos[..|memos|] == memos;
  }

  /** The daily PMS plan. */
  method BuildPmsDailyPlan(chart: Chart, facts: seq<Fact>, property: Property, date: Day) returns (build: Build)
    ensures build == PmsPlan(chart, facts, property, date)
    ensures DailyVerdict(chart, facts, Stranded(facts, chart), Sum(facts, Postable(ActiveCodes(chart))), build)
  {
    PmsPlanExact(chart, facts, property, date);
    if facts == [] {
      return NoPlan;
    }
    var unmapped := UnmappedLines(facts);
    if unmapped != {} {
      return Refused(UnmappedGl(unmapped));
    }
    var lines, missing := EmitFacts(BUCKETS, facts, ActiveCodes(chart));
    build := BalanceAndFinish(chart, lines, missing, property, date);
  }

  method BalanceAndFinish(chart: Chart, emitted: seq<Line>, missing: set<Code>, property: Property, date: Day)
    returns (build: Build)
    ensures build == Assemble(chart, emitted, missing, property, date)
  {
    var lines := emitted;
    var remainder := Sum(lines, CreditOf()) - Sum(lines, DebitOf());
    CreditsMinusDebits(lines);
    if remainder != 0 {
      var clearing := RoleAccount(chart, ClearingRole);
      if clearing.None? {
        return Refused(SystemRoleMissing(ClearingRole));
      }
      var posting := if remainder > 0 then Debit else Credit;
      var line := Line(clearing.value, posting, if remainder < 0 then -remainder else remainder, GuestLedgerClearing, None);
      assert line == BalancingLine(clearing.value, remainder);
      lines := lines + [line];
    }
    if missing != {} {
      return Refused(ChartAccountMissing(missing));
    }
    build := FinishPlan(property, date, lines);
  }

  lemma DeptsSnoc(rows: seq<LaborFact>, r: LaborFact)
    ensures Depts(rows + [r]) == Depts(rows) + {r.dept}
  {
    assert r in rows + [r];
    forall g | g in rows ensures g in rows + [r] { }
  }

  lemma CostInAbsent(rows: seq<LaborFact>, dept: Option<int>)
    requires dept !in Depts(rows)
    ensures CostIn(rows, dept) == 0
  {
    forall f | f in rows ensures Only(DeptKey(), Cost(), dept)(f) == 0 {
      assert f.dept in Depts(rows);
    }
    SumZero(rows, Only(DeptKey(), Cost(), dept));
  }

  method CostByDept(rows: seq<LaborFact>) returns (byDept: map<Option<int>, Amount>)
    ensures byDept.Keys == Depts(rows)
    ensures forall d :: d in byDept ==> byDept[d] == CostIn(rows, d)
  {
    byDept := map[];
    for i := 0 to |rows|
      invariant byDept.Keys == Depts(rows[..i])
      invariant forall d :: d in byDept ==> byDept[d] == CostIn(rows[..i], d)
    {
      var r := rows[i];
      PrefixStep(rows, i);
      DeptsSnoc(rows[..i], r);
      forall d ensures CostIn(rows[..i + 1], d) == CostIn(rows[..i], d) + if r.dept == d then r.cost else 0 {
        SumSnoc(rows[..i], r, Only(DeptKey(), Cost(), d));
      }
      if r.dept !in byDept {
        CostInAbsent(rows[..i], r.dept);
      }
      byDept := byDept[r.dept := (if r.dept in byDept then byDept[r.dept] else 0) + r.cost];
    }
    assert rows[..|rows|] == rows;
  }

  /** The departments' costs added up: the cost of all the rows. */
  method TotalOver(depts: seq<Option<int>>, byDept: map<Option<int>, Amount>, ghost rows: seq<LaborFact>) returns (total: Amount)
    requires NoDup(depts) && forall r :: r in rows ==> r.dept in depts
    requires forall d :: d in depts ==> d in byDept && byDept[d] == CostIn(rows, d)
    ensures total == TotalCost(rows)
  {
    total := 0;
    for i := 0 to |depts|
      invariant total == Sum(depts[..i], GroupNet(rows, DeptKey(), Cost()))
    {
      PrefixStep(depts, i);
      SumSnoc(depts[..i], depts[i], GroupNet(rows, DeptKey(), Cost()));
      total := total + byDept[depts[i]];
    }
    assert depts[..|depts|] == depts;
    GroupNetsAddUp(rows, depts, DeptKey(), Cost());
  }

  /** The payroll accrual plan: zero-net days are settled before any role is looked up. */
  method BuildPayrollAccrualPlan(chart: Chart, rows: seq<LaborFact>, property: Property, date: Day) returns (build: Build)
    ensures build == PayrollPlan(chart, rows, property, date)
  {
    if rows == [] {
      return NoPlan;
    }
    var byDept := CostByDept(rows);
    var depts := SortedDepts(byDept.Keys);
    SortedDeptsSound(byDept.Keys);
    var total := TotalOver(depts, byDept, rows);
    if total == 0 {
      return NoPlan;
    }
    var expense := RoleAccount(chart, WagesExpenseRole);
    if expense.None? {
      return Refused(SystemRoleMissing(WagesExpenseRole));
    }
    var liability := RoleAccount(chart, AccruedPayrollRole);
    if liability.None? {
      return Refused(SystemRoleMissing(AccruedPayrollRole));
    }
    var lines := AccrueByDept(expense.value, depts, byDept, rows);
    var credit := Line(liability.value, if total > 0 then Credit else Debit, if total < 0 then -total else total,
                       AccruedPayroll, None);
    assert credit == Sided(liability.value, total, AccruedPayroll, None);
    build := FinishPlan(property, date, lines + [credit]);
  }

  method AccrueByDept(expense: Code, depts: seq<Option<int>>, byDept: map<Option<int>, Amount>, ghost rows: seq<LaborFact>)
    returns (lines: seq<Line>)
    requires forall d :: d in depts ==> d in byDept && byDept[d] == CostIn(rows, d)
    ensures lines == FlatMap(depts, DeptLines(expense, rows))
  {
    lines := [];
    for i := 0 to |depts|
      invariant lines == FlatMap(depts[..i], DeptLines(expense, rows))
    {
      PrefixStep(depts, i);
      FlatMapSnoc(depts[..i], depts[i], DeptLines(expense, rows));
      var cost := byDept[depts[i]];
      if cost != 0 {
        var line := Line(expense, if cost > 0 then Debit else Credit, if cost < 0 then -cost else cost,
                         LaborAccrual(depts[i]), None);
        assert line == Sided(expense, -cost, LaborAccrual(depts[i]), None);
        lines := lines + [line];
      }
    }
    assert depts[..|depts|] == depts;
  }
}
