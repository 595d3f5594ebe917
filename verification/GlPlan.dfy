/** Journal-entry plans: the two builders that turn signed facts into balanced, positive, sided lines. */
module GlPlan {
  import opened Prelude
  import opened Sums
  import opened Ordering
  import opened Gregorian

  type Code = string
  type Property = string

  /** Money is counted in units of 0.0001. */
  type Amount = int

  datatype Posting = Debit | Credit

  function Flipped(p: Posting): Posting { if p.Debit? then Credit else Debit }

  datatype Memo =
    | DailyRevenue | PassThroughTaxes | Settlements | NonOperating | GuestLedgerClearing
    | LaborAccrual(dept: Option<int>) | AccruedPayroll

  datatype Line = Line(account: Code, posting: Posting, amount: Amount, memo: Memo, factId: Option<int>)

  /** The fingerprint of a plan's economic content: an injective record in place of the digest. */
  datatype Fingerprint = Fingerprint(property: Property, date: Day, content: multiset<(Code, Posting, Amount)>)

  datatype Plan = Plan(property: Property, date: Day, lines: seq<Line>,
                       totalDebits: Amount, totalCredits: Amount, hash: Fingerprint)

  datatype Fact = Fact(id: int, property: Property, date: Day, schedule: Option<int>,
                       major: string, sub: string, item: string, amount: Amount, code: Option<Code>)

  datatype LaborFact = LaborFact(property: Property, date: Day, dept: Option<int>, cost: Amount)

  datatype Role = ClearingRole | WagesExpenseRole | AccruedPayrollRole | OtherRole(name: string)

  datatype Account = Account(active: bool, role: Option<Role>)

  /** The chart of accounts; the unique index on system roles is part of its type. */
  type Chart = c: map<Code, Account> | RolesUnique(c) witness map[]

  ghost predicate RolesUnique(c: map<Code, Account>) {
    forall a, b :: a in c && b in c && c[a].role.Some? && c[a].role == c[b].role ==> a == b
  }

  datatype Refusal =
    | UnmappedGl(lines: set<(string, string, string)>)
    | SystemRoleMissing(role: Role)
    | ChartAccountMissing(codes: set<Code>)
    | PeriodClosed(key: string)
    | FactsGone(key: string)
    | CalendarNotConfigured

  /** What a builder answers: nothing to post, a plan, a named refusal, or the out-of-balance error that escapes. */
  datatype Build = NoPlan | Planned(plan: Plan) | Refused(why: Refusal) | OutOfBalance

  const TAXES_MAJOR := "Taxes (Pass-Through)"
  const SETTLEMENTS_MAJOR := "Settlements"

  // ---- Chart lookups

  predicate HasActiveChart(chart: Chart) { exists c :: c in chart && chart[c].active }

  function ActiveCodes(chart: Chart): set<Code> { set c | c in chart && chart[c].active }

  predicate Carries(chart: Chart, c: Code, role: Role) {
    c in chart && chart[c].active && chart[c].role == Some(role)
  }

  /** The active account carrying the role, if there is one. */
  function RoleAccount(chart: Chart, role: Role): (r: Option<Code>)
    ensures r.Some? ==> Carries(chart, r.value, role)
    ensures r.None? ==> forall c :: !Carries(chart, c, role)
  {
    if exists c :: c in chart && Carries(chart, c, role) then
      var c :| c in chart && Carries(chart, c, role);
      Some(c)
    else None
  }

  // ---- Measures on lines

  function SidedAmount(p: Posting, amount: Amount): Amount { if p.Credit? then amount else -amount }

  function Signed(): Line -> Amount { (l: Line) => SidedAmount(l.posting, l.amount) }

  function SignedOn(a: Code): Line -> Amount {
    (l: Line) => if l.account == a then SidedAmount(l.posting, l.amount) else 0
  }

  function CreditOf(): Line -> Amount { (l: Line) => if l.posting.Credit? then l.amount else 0 }

  function DebitOf(): Line -> Amount { (l: Line) => if l.posting.Debit? then l.amount else 0 }

  /** Credits minus debits on account `a`. */
  function Net(lines: seq<Line>, a: Code): Amount { Sum(lines, SignedOn(a)) }

  function Balance(lines: seq<Line>): Amount { Sum(lines, Signed()) }

  ghost predicate AllPositive(lines: seq<Line>) { forall l :: l in lines ==> l.amount > 0 }

  lemma CreditsMinusDebits(lines: seq<Line>)
    ensures Sum(lines, CreditOf()) - Sum(lines, DebitOf()) == Balance(lines)
  {
    SumLinear(lines, Signed(), 1, CreditOf(), -1, DebitOf());
  }

  // ---- The shared tail

  function Content(l: Line): (Code, Posting, Amount) { (l.account, l.posting, l.amount) }

  function Contents(lines: seq<Line>): (r: seq<(Code, Posting, Amount)>)
    ensures |r| == |lines| && forall i :: 0 <= i < |lines| ==> r[i] == Content(lines[i])
  {
    seq(|lines|, i requires 0 <= i < |lines| => Content(lines[i]))
  }

  function FingerprintOf(property: Property, date: Day, lines: seq<Line>): Fingerprint {
    Fingerprint(property, date, multiset(Contents(lines)))
  }

  function FinishPlan(property: Property, date: Day, lines: seq<Line>): Build {
    var credits, debits := Sum(lines, CreditOf()), Sum(lines, DebitOf());
    if debits != credits then OutOfBalance
    else Planned(Plan(property, date, lines, debits, credits, FingerprintOf(property, date, lines)))
  }

  /** The out-of-balance refusal comes exactly from an unbalanced list of lines. */
  lemma FinishBalanced(property: Property, date: Day, lines: seq<Line>)
    ensures FinishPlan(property, date, lines).OutOfBalance? <==> Balance(lines) != 0
  {
    CreditsMinusDebits(lines);
  }

  function ContentSigned(a: Code): ((Code, Posting, Amount)) -> Amount {
    (c: (Code, Posting, Amount)) => if c.0 == a then SidedAmount(c.1, c.2) else 0
  }

  lemma {:induction false} NetOfContents(lines: seq<Line>, a: Code)
    ensures Net(lines, a) == Sum(Contents(lines), ContentSigned(a))
  {
    if lines != [] {
      NetOfContents(lines[1..], a);
      assert Contents(lines)[1..] == Contents(lines[1..]);
      assert ContentSigned(a)(Content(lines[0])) == SignedOn(a)(lines[0]);
    }
  }

  /** Equal fingerprints mean equal nets on every account. */
  lemma EqualFingerprintsEqualNets(p: Property, d: Day, xs: seq<Line>, ys: seq<Line>, a: Code)
    requires FingerprintOf(p, d, xs) == FingerprintOf(p, d, ys)
    ensures Net(xs, a) == Net(ys, a)
  {
    NetOfContents(xs, a);
    NetOfContents(ys, a);
    SumPermuted(Contents(xs), Contents(ys), ContentSigned(a));
  }

  /** The fingerprint sees neither the order of the lines nor their memos and links: lists that are permutations of each
      other in account, side and amount share it, and only those do. */
  lemma FingerprintExact(p: Property, d: Day, q: Property, e: Day, xs: seq<Line>, ys: seq<Line>)
    ensures FingerprintOf(p, d, xs) == FingerprintOf(q, e, ys) <==>
      p == q && d == e
      && multiset(seq(|xs|, i requires 0 <= i < |xs| => (xs[i].account, xs[i].posting, xs[i].amount)))
      == multiset(seq(|ys|, i requires 0 <= i < |ys| => (ys[i].account, ys[i].posting, ys[i].amount)))
  {
    assert Contents(xs) == seq(|xs|, i requires 0 <= i < |xs| => (xs[i].account, xs[i].posting, xs[i].amount));
    assert Contents(ys) == seq(|ys|, i requires 0 <= i < |ys| => (ys[i].account, ys[i].posting, ys[i].amount));
  }

  // ---- One line per group: the side from the sign, the amount from the magnitude

  function Sided(account: Code, net: Amount, memo: Memo, factId: Option<int>): Line {
    Line(account, if net > 0 then Credit else Debit, if net < 0 then -net else net, memo, factId)
  }

  lemma SidedKeepsNet(account: Code, net: Amount, memo: Memo, factId: Option<int>, a: Code)
    ensures Signed()(Sided(account, net, memo, factId)) == net
    ensures SignedOn(a)(Sided(account, net, memo, factId)) == if a == account then net else 0
  {
  }

  // ---- The daily PMS builder

  function FactAmount(): Fact -> Amount { (f: Fact) => f.amount }

  function CodeOf(f: Fact): Code { if f.code.Some? then f.code.value else "" }

  function FactCode(): Fact -> Code { (f: Fact) => CodeOf(f) }

  /** Net of the facts carrying GL code `c`. */
  function NetOn(facts: seq<Fact>, c: Code): Amount { Sum(facts, Only(FactCode(), FactAmount(), c)) }

  function Total(facts: seq<Fact>): Amount { Sum(facts, FactAmount()) }

  function Codes(facts: seq<Fact>): set<Code> { set f | f in facts :: CodeOf(f) }

  function UnmappedLines(facts: seq<Fact>): set<(string, string, string)> {
    set f | f in facts && f.code.None? :: (f.major, f.sub, f.item)
  }

  function BucketOf(f: Fact): Memo {
    if f.schedule.Some? then DailyRevenue
    else if f.major == TAXES_MAJOR then PassThroughTaxes
    else if f.major == SETTLEMENTS_MAJOR then Settlements
    else NonOperating
  }

  function InBucket(memo: Memo): Fact -> bool { (f: Fact) => BucketOf(f) == memo }

  function Bucket(facts: seq<Fact>, memo: Memo): seq<Fact> { Filter(facts, InBucket(memo)) }

  function WithCode(c: Code): Fact -> bool { (f: Fact) => CodeOf(f) == c }

  /** The drill-through link: the group's fact when it has exactly one. */
  function SoleFact(bucket: seq<Fact>, c: Code): Option<int> {
    var group := Filter(bucket, WithCode(c));
    if |group| == 1 then Some(group[0].id) else None
  }

  /** The group's one line, or none when it nets to zero or its code is not in the chart. */
  function EmitOne(c: Code, bucket: seq<Fact>, names: set<Code>, memo: Memo): seq<Line> {
    if NetOn(bucket, c) == 0 || c !in names then [] else [Sided(c, NetOn(bucket, c), memo, SoleFact(bucket, c))]
  }

  function GroupLines(bucket: seq<Fact>, names: set<Code>, memo: Memo): Code -> seq<Line> {
    (c: Code) => EmitOne(c, bucket, names, memo)
  }

  /** The bucket's lines in code order, zero nets left out. */
  function Emit(bucket: seq<Fact>, names: set<Code>, memo: Memo): seq<Line> {
    FlatMap(SortedText(Codes(bucket)), GroupLines(bucket, names, memo))
  }

  /** Codes with money on them that the active chart does not have. */
  function Missing(bucket: seq<Fact>, names: set<Code>): set<Code> {
    set c | c in Codes(bucket) && NetOn(bucket, c) != 0 && c !in names
  }

  /** The buckets in line order. */
  const BUCKETS: seq<Memo> := [DailyRevenue, PassThroughTaxes, Settlements, NonOperating]

  function BucketLines(facts: seq<Fact>, names: set<Code>): Memo -> seq<Line> {
    (m: Memo) => Emit(Bucket(facts, m), names, m)
  }

  function EmitBuckets(memos: seq<Memo>, facts: seq<Fact>, names: set<Code>): seq<Line> {
    FlatMap(memos, BucketLines(facts, names))
  }

  function MissingCodes(memos: seq<Memo>, facts: seq<Fact>, names: set<Code>): set<Code> {
    set m, c | m in memos && c in Missing(Bucket(facts, m), names) :: c
  }

  /** The line that brings a remainder (credits minus debits so far) back to zero. */
  function BalancingLine(account: Code, remainder: Amount): Line {
    Sided(account, -remainder, GuestLedgerClearing, None)
  }

  /** Lines balanced against the clearing account when they need it and there is one. */
  function Balanced(lines: seq<Line>, clearing: Option<Code>): seq<Line> {
    if Balance(lines) == 0 || clearing.None? then lines else lines + [BalancingLine(clearing.value, Balance(lines))]
  }

  /** Refuse a missing clearing role first, then missing accounts; otherwise balance and finish. */
  function Assemble(chart: Chart, lines: seq<Line>, missing: set<Code>, property: Property, date: Day): Build {
    var clearing := RoleAccount(chart, ClearingRole);
    if Balance(lines) != 0 && clearing.None? then Refused(SystemRoleMissing(ClearingRole))
    else if missing != {} then Refused(ChartAccountMissing(missing))
    else FinishPlan(property, date, Balanced(lines, clearing))
  }

  function PmsPlanFrom(facts: seq<Fact>, chart: Chart, lines: seq<Line>, missing: set<Code>, p: Property, d: Day): Build {
    if facts == [] then NoPlan
    else if UnmappedLines(facts) != {} then Refused(UnmappedGl(UnmappedLines(facts)))
    else Assemble(chart, lines, missing, p, d)
  }

  function PmsPlanOver(memos: seq<Memo>, chart: Chart, facts: seq<Fact>, property: Property, date: Day): Build {
    var names := ActiveCodes(chart);
    PmsPlanFrom(facts, chart, EmitBuckets(memos, facts, names), MissingCodes(memos, facts, names), property, date)
  }

  function PmsPlan(chart: Chart, facts: seq<Fact>, property: Property, date: Day): Build {
    PmsPlanOver(BUCKETS, chart, facts, property, date)
  }

  // ---- What the daily builder computes

  lemma EmitOneKeepsNet(c: Code, bucket: seq<Fact>, names: set<Code>, memo: Memo, a: Code)
    requires NetOn(bucket, c) != 0 ==> c in names
    ensures Sum(EmitOne(c, bucket, names, memo), SignedOn(a)) == if c == a then NetOn(bucket, a) else 0
    ensures Sum(EmitOne(c, bucket, names, memo), Signed()) == NetOn(bucket, c)
  {
    var net := NetOn(bucket, c);
    if net != 0 {
      var line := Sided(c, net, memo, SoleFact(bucket, c));
      SidedKeepsNet(c, net, memo, SoleFact(bucket, c), a);
      SumCons(line, [], SignedOn(a));
      SumCons(line, [], Signed());
      assert [line] + [] == [line];
    }
  }

  lemma NetOnAbsent(facts: seq<Fact>, c: Code)
    requires c !in Codes(facts)
    ensures NetOn(facts, c) == 0
  {
    forall f | f in facts ensures Only(FactCode(), FactAmount(), c)(f) == 0 {
      assert CodeOf(f) in Codes(facts);
    }
    SumZero(facts, Only(FactCode(), FactAmount(), c));
  }

  /** A bucket's lines carry each account's net and the bucket's total, losing nothing. */
  lemma EmitKeepsNets(bucket: seq<Fact>, names: set<Code>, memo: Memo, a: Code)
    requires Missing(bucket, names) == {}
    ensures Net(Emit(bucket, names, memo), a) == NetOn(bucket, a)
    ensures Balance(Emit(bucket, names, memo)) == Total(bucket)
  {
    var codes, pieces := SortedText(Codes(bucket)), GroupLines(bucket, names, memo);
    SortedTextSound(Codes(bucket));
    forall c | c in codes
      ensures Through(pieces, SignedOn(a))(c) == Indicator(a, NetOn(bucket, a))(c)
      ensures Through(pieces, Signed())(c) == GroupNet(bucket, FactCode(), FactAmount())(c)
    {
      assert c !in Missing(bucket, names);
      EmitOneKeepsNet(c, bucket, names, memo, a);
    }
    SumFlatMap(codes, pieces, SignedOn(a));
    SumEq(codes, Through(pieces, SignedOn(a)), Indicator(a, NetOn(bucket, a)));
    SumIndicator(codes, a, NetOn(bucket, a));
    if a !in codes {
      NetOnAbsent(bucket, a);
    }
    SumFlatMap(codes, pieces, Signed());
    SumEq(codes, Through(pieces, Signed()), GroupNet(bucket, FactCode(), FactAmount()));
    GroupNetsAddUp(bucket, codes, FactCode(), FactAmount());
  }

  function BucketKey(): Fact -> Memo { (f: Fact) => BucketOf(f) }

  lemma BucketSum(facts: seq<Fact>, memo: Memo, f: Fact -> Amount)
    ensures Sum(Bucket(facts, memo), f) == GroupNet(facts, BucketKey(), f)(memo)
  {
    SumFilter(facts, InBucket(memo), f, Only(BucketKey(), f, memo));
  }

  /** The buckets cover the facts, each named once. */
  ghost predicate Partitions(memos: seq<Memo>, facts: seq<Fact>) {
    NoDup(memos) && forall f :: f in facts ==> BucketOf(f) in memos
  }

  lemma BucketsPartition(facts: seq<Fact>)
    ensures Partitions(BUCKETS, facts)
  {
    assert BUCKETS[0] == DailyRevenue && BUCKETS[1] == PassThroughTaxes
        && BUCKETS[2] == Settlements && BUCKETS[3] == NonOperating;
  }

  /** A measure the lines keep bucket by bucket is kept overall. */
  lemma BucketsAddUp(memos: seq<Memo>, facts: seq<Fact>, names: set<Code>, onLine: Line -> Amount, onFact: Fact -> Amount)
    requires Partitions(memos, facts)
    requires forall m :: m in memos ==>
      Sum(Emit(Bucket(facts, m), names, m), onLine) == Sum(Bucket(facts, m), onFact)
    ensures Sum(EmitBuckets(memos, facts, names), onLine) == Sum(facts, onFact)
  {
    var pieces := BucketLines(facts, names);
    SumFlatMap(memos, pieces, onLine);
    forall m | m in memos ensures Through(pieces, onLine)(m) == GroupNet(facts, BucketKey(), onFact)(m) {
      BucketSum(facts, m, onFact);
    }
    SumEq(memos, Through(pieces, onLine), GroupNet(facts, BucketKey(), onFact));
    GroupNetsAddUp(facts, memos, BucketKey(), onFact);
  }

  /** The emitted lines together carry every account's net and the grand total. */
  lemma EmittedNets(memos: seq<Memo>, facts: seq<Fact>, names: set<Code>, a: Code)
    requires Partitions(memos, facts) && MissingCodes(memos, facts, names) == {}
    ensures Net(EmitBuckets(memos, facts, names), a) == NetOn(facts, a)
    ensures Balance(EmitBuckets(memos, facts, names)) == Total(facts)
  {
    forall m | m in memos
      ensures Net(Emit(Bucket(facts, m), names, m), a) == NetOn(Bucket(facts, m), a)
      ensures Balance(Emit(Bucket(facts, m), names, m)) == Total(Bucket(facts, m))
    {
      assert forall c :: c in Missing(Bucket(facts, m), names) ==> c in MissingCodes(memos, facts, names);
      EmitKeepsNets(Bucket(facts, m), names, m, a);
    }
    BucketsAddUp(memos, facts, names, SignedOn(a), Only(FactCode(), FactAmount(), a));
    BucketsAddUp(memos, facts, names, Signed(), FactAmount());
  }

  lemma EmittedPositive(memos: seq<Memo>, facts: seq<Fact>, names: set<Code>)
    ensures AllPositive(EmitBuckets(memos, facts, names))
  {
    forall l | l in EmitBuckets(memos, facts, names) ensures l.amount > 0 {
      var m := FlatMapOrigin(memos, BucketLines(facts, names), l);
      EmitPositive(Bucket(facts, m), names, m, l);
    }
  }

  lemma EmitPositive(bucket: seq<Fact>, names: set<Code>, memo: Memo, l: Line)
    requires l in Emit(bucket, names, memo)
    ensures l.amount > 0
  {
    var c := FlatMapOrigin(SortedText(Codes(bucket)), GroupLines(bucket, names, memo), l);
    assert l in EmitOne(c, bucket, names, memo);
  }

  /** Each account's net is its facts' net, with the clearing account also carrying minus the grand total. */
  function PmsNet(facts: seq<Fact>, clearing: Option<Code>, a: Code): Amount {
    NetOn(facts, a) - if clearing == Some(a) then Total(facts) else 0
  }

  /** Balancing changes no net but the clearing account's. */
  lemma BalancedNets(lines: seq<Line>, clearing: Option<Code>, a: Code)
    requires clearing.Some? || Balance(lines) == 0
    ensures Balance(Balanced(lines, clearing)) == 0
    ensures Net(Balanced(lines, clearing), a) == Net(lines, a) - if clearing == Some(a) then Balance(lines) else 0
  {
    if Balance(lines) != 0 {
      var line := BalancingLine(clearing.value, Balance(lines));
      SidedKeepsNet(clearing.value, -Balance(lines), GuestLedgerClearing, None, a);
      SumSnoc(lines, line, SignedOn(a));
      SumSnoc(lines, line, Signed());
    }
  }

  lemma BalancedPositive(lines: seq<Line>, clearing: Option<Code>)
    requires AllPositive(lines)
    ensures AllPositive(Balanced(lines, clearing))
  {
  }

  /** A plan any builder may hand to the engine: its own grain's, fingerprinted, positive and balanced. */
  ghost predicate SoundPlan(plan: Plan, p: Property, d: Day) {
    && plan.property == p && plan.date == d && plan.hash == FingerprintOf(p, d, plan.lines)
    && AllPositive(plan.lines) && Balance(plan.lines) == 0
    && plan.totalDebits == Sum(plan.lines, DebitOf()) && plan.totalCredits == Sum(plan.lines, CreditOf())
    && plan.totalDebits == plan.totalCredits
  }

  lemma AssembleSound(chart: Chart, lines: seq<Line>, missing: set<Code>, p: Property, d: Day)
    requires AllPositive(lines)
    ensures var build, clearing := Assemble(chart, lines, missing, p, d), RoleAccount(chart, ClearingRole);
      && !build.OutOfBalance? && !build.NoPlan?
      && (build.Planned? ==>
            && missing == {} && SoundPlan(build.plan, p, d)
            && forall a :: Net(build.plan.lines, a) == Net(lines, a) - if clearing == Some(a) then Balance(lines) else 0)
  {
    var clearing := RoleAccount(chart, ClearingRole);
    if clearing.Some? || Balance(lines) == 0 {
      forall a ensures Net(Balanced(lines, clearing), a) == Net(lines, a) - if clearing == Some(a) then Balance(lines) else 0 {
        BalancedNets(lines, clearing, a);
      }
      BalancedNets(lines, clearing, "");
      BalancedPositive(lines, clearing);
      FinishBalanced(p, d, Balanced(lines, clearing));
    }
  }

  ghost predicate CarriesFacts(lines: seq<Line>, facts: seq<Fact>) {
    Balance(lines) == Total(facts) && forall a :: Net(lines, a) == NetOn(facts, a)
  }

  lemma PmsPlanFromSound(facts: seq<Fact>, chart: Chart, lines: seq<Line>, missing: set<Code>, p: Property, d: Day)
    requires AllPositive(lines) && (missing == {} ==> CarriesFacts(lines, facts))
    ensures var build := PmsPlanFrom(facts, chart, lines, missing, p, d);
      && !build.OutOfBalance? && (build.NoPlan? <==> facts == [])
      && (build.Planned? ==>
            && SoundPlan(build.plan, p, d)
            && forall a :: Net(build.plan.lines, a) == PmsNet(facts, RoleAccount(chart, ClearingRole), a))
  {
    AssembleSound(chart, lines, missing, p, d);
  }

  lemma EmittedCarryFacts(memos: seq<Memo>, facts: seq<Fact>, names: set<Code>)
    requires Partitions(memos, facts) && MissingCodes(memos, facts, names) == {}
    ensures CarriesFacts(EmitBuckets(memos, facts, names), facts)
  {
    var lines := EmitBuckets(memos, facts, names);
    forall a ensures Net(lines, a) == NetOn(facts, a) && Balance(lines) == Total(facts) {
      EmittedNets(memos, facts, names, a);
    }
    EmittedNets(memos, facts, names, "");
  }

  lemma PmsPlanOverSound(memos: seq<Memo>, chart: Chart, facts: seq<Fact>, p: Property, d: Day)
    requires Partitions(memos, facts)
    ensures var build := PmsPlanOver(memos, chart, facts, p, d);
      && !build.OutOfBalance? && (build.NoPlan? <==> facts == [])
      && (build.Planned? ==>
            && SoundPlan(build.plan, p, d)
            && forall a :: Net(build.plan.lines, a) == PmsNet(facts, RoleAccount(chart, ClearingRole), a))
  {
    var names := ActiveCodes(chart);
    var lines, missing := EmitBuckets(memos, facts, names), MissingCodes(memos, facts, names);
    EmittedPositive(memos, facts, names);
    if missing == {} {
      EmittedCarryFacts(memos, facts, names);
    }
    PmsPlanFromSound(facts, chart, lines, missing, p, d);
  }

  /** The daily builder never goes out of balance, has nothing to post exactly when there are no facts, and its plans
      carry positive lines whose net on each account is the facts', the clearing account also bearing minus the
      grand total. */
  lemma PmsPlanSound(chart: Chart, facts: seq<Fact>, p: Property, d: Day)
    ensures var build := PmsPlan(chart, facts, p, d);
      && !build.OutOfBalance? && (build.NoPlan? <==> facts == [])
      && (build.Planned? ==>
            && SoundPlan(build.plan, p, d)
            && forall a :: Net(build.plan.lines, a) == PmsNet(facts, RoleAccount(chart, ClearingRole), a))
  {
    BucketsPartition(facts);
    PmsPlanOverSound(BUCKETS, chart, facts, p, d);
  }

  // ---- Drill-through

  /** The facts behind a line: those of its bucket that carry its account's code. */
  function Behind(facts: seq<Fact>, l: Line): seq<Fact> { Filter(Bucket(facts, l.memo), WithCode(l.account)) }

  /** The line's signed amount is the sum of the facts behind it, and it links to a fact exactly when that fact is alone
      behind it, so that the fact accounts for the whole line. */
  ghost predicate Traces(facts: seq<Fact>, l: Line) {
    && Total(Behind(facts, l)) == SidedAmount(l.posting, l.amount)
    && (l.factId.Some? <==> |Behind(facts, l)| == 1)
    && (l.factId.Some? ==> exists f :: f in facts && f.id == l.factId.value && CodeOf(f) == l.account
                                       && BucketOf(f) == l.memo && f.amount == SidedAmount(l.posting, l.amount))
  }

  lemma EmittedTrace(memos: seq<Memo>, facts: seq<Fact>, names: set<Code>, l: Line)
    requires l in EmitBuckets(memos, facts, names)
    ensures l.account in names && Traces(facts, l)
  {
    var m := FlatMapOrigin(memos, BucketLines(facts, names), l);
    var bucket := Bucket(facts, m);
    var c := FlatMapOrigin(SortedText(Codes(bucket)), GroupLines(bucket, names, m), l);
    assert l == Sided(c, NetOn(bucket, c), m, SoleFact(bucket, c));
    SumFilter(bucket, WithCode(c), FactAmount(), Only(FactCode(), FactAmount(), c));
    if |Behind(facts, l)| == 1 {
      SoleBehind(facts, m, c);
    }
  }

  lemma SoleBehind(facts: seq<Fact>, m: Memo, c: Code)
    requires |Filter(Bucket(facts, m), WithCode(c))| == 1
    ensures var group := Filter(Bucket(facts, m), WithCode(c));
      group[0] in facts && CodeOf(group[0]) == c && BucketOf(group[0]) == m && Total(group) == group[0].amount
  {
    var group := Filter(Bucket(facts, m), WithCode(c));
    FilterMembers(Bucket(facts, m), WithCode(c), group[0]);
    FilterMembers(facts, InBucket(m), group[0]);
    SumCons(group[0], [], FactAmount());
    assert group == [group[0]] + [];
  }

  /** Every line of a daily plan but the clearing line posts to an active account and traces to the facts behind it. */
  lemma LinesTrace(chart: Chart, facts: seq<Fact>, p: Property, d: Day, l: Line)
    requires PmsPlan(chart, facts, p, d).Planned? && l in PmsPlan(chart, facts, p, d).plan.lines
    ensures l.memo == GuestLedgerClearing || (l.account in ActiveCodes(chart) && Traces(facts, l))
  {
    var lines := EmitBuckets(BUCKETS, facts, ActiveCodes(chart));
    AssembledLines(chart, lines, MissingCodes(BUCKETS, facts, ActiveCodes(chart)), p, d, l);
    if l in lines {
      EmittedTrace(BUCKETS, facts, ActiveCodes(chart), l);
    }
  }

  lemma AssembledLines(chart: Chart, lines: seq<Line>, missing: set<Code>, p: Property, d: Day, l: Line)
    requires Assemble(chart, lines, missing, p, d).Planned? && l in Assemble(chart, lines, missing, p, d).plan.lines
    ensures l in lines || l.memo == GuestLedgerClearing
  {
  }

  // ---- The payroll accrual builder

  function Cost(): LaborFact -> Amount { (f: LaborFact) => f.cost }

  function DeptKey(): LaborFact -> Option<int> { (f: LaborFact) => f.dept }

  function CostIn(rows: seq<LaborFact>, dept: Option<int>): Amount { Sum(rows, Only(DeptKey(), Cost(), dept)) }

  function TotalCost(rows: seq<LaborFact>): Amount { Sum(rows, Cost()) }

  function Depts(rows: seq<LaborFact>): set<Option<int>> { set f | f in rows :: f.dept }

  /** By number, the unassigned department last. */
  predicate DeptLe(a: Option<int>, b: Option<int>) { b.None? || (a.Some? && a.value <= b.value) }

  function SortedDepts(s: set<Option<int>>): seq<Option<int>> {
    assert TotalOn(s, DeptLe);
    SortedSet(s, DeptLe)
  }

  lemma SortedDeptsSound(s: set<Option<int>>)
    ensures NoDup(SortedDepts(s)) && forall x :: x in SortedDepts(s) <==> x in s
  {
    assert TotalOn(s, DeptLe);
    SortedSetSound(s, DeptLe);
  }

  /** The department's expense line: a debit, or a credit where corrections outweigh the cost. */
  function ExpenseOne(expense: Code, dept: Option<int>, rows: seq<LaborFact>): seq<Line> {
    if CostIn(rows, dept) == 0 then [] else [Sided(expense, -CostIn(rows, dept), LaborAccrual(dept), None)]
  }

  function DeptLines(expense: Code, rows: seq<LaborFact>): Option<int> -> seq<Line> {
    (d: Option<int>) => ExpenseOne(expense, d, rows)
  }

  function ExpenseLines(expense: Code, rows: seq<LaborFact>): seq<Line> {
    FlatMap(SortedDepts(Depts(rows)), DeptLines(expense, rows))
  }

  function PayrollLines(expense: Code, liability: Code, rows: seq<LaborFact>): seq<Line> {
    ExpenseLines(expense, rows) + [Sided(liability, TotalCost(rows), AccruedPayroll, None)]
  }

  function PayrollPlan(chart: Chart, rows: seq<LaborFact>, property: Property, date: Day): Build {
    if rows == [] || TotalCost(rows) == 0 then NoPlan
    else
      var expense, liability := RoleAccount(chart, WagesExpenseRole), RoleAccount(chart, AccruedPayrollRole);
      if expense.None? then Refused(SystemRoleMissing(WagesExpenseRole))
      else if liability.None? then Refused(SystemRoleMissing(AccruedPayrollRole))
      else FinishPlan(property, date, PayrollLines(expense.value, liability.value, rows))
  }

  lemma ExpenseOneKeepsNet(expense: Code, dept: Option<int>, rows: seq<LaborFact>, a: Code)
    ensures Sum(ExpenseOne(expense, dept, rows), SignedOn(a)) == if a == expense then -CostIn(rows, dept) else 0
    ensures Sum(ExpenseOne(expense, dept, rows), Signed()) == -CostIn(rows, dept)
  {
    var cost := CostIn(rows, dept);
    if cost != 0 {
      var line := Sided(expense, -cost, LaborAccrual(dept), None);
      SidedKeepsNet(expense, -cost, LaborAccrual(dept), None, a);
      SumCons(line, [], SignedOn(a));
      SumCons(line, [], Signed());
      assert [line] + [] == [line];
    }
  }

  lemma ExpenseLinesNets(expense: Code, rows: seq<LaborFact>, a: Code)
    ensures Balance(ExpenseLines(expense, rows)) == -TotalCost(rows)
    ensures Net(ExpenseLines(expense, rows), a) == if a == expense then -TotalCost(rows) else 0
    ensures AllPositive(ExpenseLines(expense, rows))
  {
    var depts, pieces, nets := SortedDepts(Depts(rows)), DeptLines(expense, rows), GroupNet(rows, DeptKey(), Cost());
    SortedDeptsSound(Depts(rows));
    GroupNetsAddUp(rows, depts, DeptKey(), Cost());
    forall d | d in depts
      ensures Through(pieces, Signed())(d) == -1 * nets(d) + 0 * nets(d)
      ensures Through(pieces, SignedOn(a))(d) == (if a == expense then -1 else 0) * nets(d) + 0 * nets(d)
    {
      ExpenseOneKeepsNet(expense, d, rows, a);
    }
    SumFlatMap(depts, pieces, Signed());
    SumLinear(depts, Through(pieces, Signed()), -1, nets, 0, nets);
    SumFlatMap(depts, pieces, SignedOn(a));
    SumLinear(depts, Through(pieces, SignedOn(a)), if a == expense then -1 else 0, nets, 0, nets);
    forall l | l in ExpenseLines(expense, rows) ensures l.amount > 0 {
      var d := FlatMapOrigin(depts, pieces, l);
      assert l in ExpenseOne(expense, d, rows);
    }
  }

  /** The whole day's cost moves from the expense account to the liability. */
  function PayrollNet(rows: seq<LaborFact>, expense: Code, liability: Code, a: Code): Amount {
    (if a == liability then TotalCost(rows) else 0) - (if a == expense then TotalCost(rows) else 0)
  }

  lemma PayrollLinesNets(expense: Code, liability: Code, rows: seq<LaborFact>, a: Code)
    requires TotalCost(rows) != 0
    ensures Balance(PayrollLines(expense, liability, rows)) == 0
    ensures Net(PayrollLines(expense, liability, rows), a) == PayrollNet(rows, expense, liability, a)
    ensures AllPositive(PayrollLines(expense, liability, rows))
  {
    ExpenseLinesNets(expense, rows, a);
    var lines, line := ExpenseLines(expense, rows), Sided(liability, TotalCost(rows), AccruedPayroll, None);
    SidedKeepsNet(liability, TotalCost(rows), AccruedPayroll, None, a);
    SumSnoc(lines, line, SignedOn(a));
    SumSnoc(lines, line, Signed());
  }

  /** The accrual builder never goes out of balance, posts nothing exactly when the day nets to zero, and its plan
      moves the day's whole cost from expense to liability. */
  lemma PayrollPlanSound(chart: Chart, rows: seq<LaborFact>, p: Property, d: Day)
    ensures !PayrollPlan(chart, rows, p, d).OutOfBalance?
    ensures PayrollPlan(chart, rows, p, d).NoPlan? <==> TotalCost(rows) == 0
    ensures PayrollPlan(chart, rows, p, d).Planned? ==>
      var plan := PayrollPlan(chart, rows, p, d).plan;
      var expense, liability := RoleAccount(chart, WagesExpenseRole), RoleAccount(chart, AccruedPayrollRole);
      && expense.Some? && liability.Some? && expense != liability
      && SoundPlan(plan, p, d)
      && forall a :: Net(plan.lines, a) == PayrollNet(rows, expense.value, liability.value, a)
  {
    var expense, liability := RoleAccount(chart, WagesExpenseRole), RoleAccount(chart, AccruedPayrollRole);
    if TotalCost(rows) != 0 && expense.Some? && liability.Some? {
      var lines := PayrollLines(expense.value, liability.value, rows);
      forall a ensures Net(lines, a) == PayrollNet(rows, expense.value, liability.value, a) {
        PayrollLinesNets(expense.value, liability.value, rows, a);
      }
      PayrollLinesNets(expense.value, liability.value, rows, "");
      FinishBalanced(p, d, lines);
    }
  }

  // ---- Plans do not depend on row order

  lemma SoleFactPermuted(xs: seq<Fact>, ys: seq<Fact>, c: Code)
    requires multiset(xs) == multiset(ys)
    ensures SoleFact(xs, c) == SoleFact(ys, c)
  {
    FilterPermuted(xs, ys, WithCode(c));
    var gx, gy := Filter(xs, WithCode(c)), Filter(ys, WithCode(c));
    assert |gx| == |multiset(gx)| == |multiset(gy)| == |gy|;
    if |gx| == 1 {
      assert gx == [gx[0]] && gy == [gy[0]];
      assert gx[0] in multiset(gy);
    }
  }

  lemma CodesPermuted(xs: seq<Fact>, ys: seq<Fact>)
    requires multiset(xs) == multiset(ys)
    ensures Codes(xs) == Codes(ys) && UnmappedLines(xs) == UnmappedLines(ys)
  {
    forall f ensures f in xs <==> f in ys { PermutedMembers(xs, ys, f); }
  }

  lemma BucketPermuted(xs: seq<Fact>, ys: seq<Fact>, names: set<Code>, memo: Memo)
    requires multiset(xs) == multiset(ys)
    ensures Emit(Bucket(xs, memo), names, memo) == Emit(Bucket(ys, memo), names, memo)
    ensures Missing(Bucket(xs, memo), names) == Missing(Bucket(ys, memo), names)
  {
    FilterPermuted(xs, ys, InBucket(memo));
    var us, vs := Bucket(xs, memo), Bucket(ys, memo);
    CodesPermuted(us, vs);
    forall c
      ensures NetOn(us, c) == NetOn(vs, c)
      ensures GroupLines(us, names, memo)(c) == GroupLines(vs, names, memo)(c)
    {
      SumPermuted(us, vs, Only(FactCode(), FactAmount(), c));
      SoleFactPermuted(us, vs, c);
    }
    FlatMapEq(SortedText(Codes(us)), GroupLines(us, names, memo), GroupLines(vs, names, memo));
  }

  lemma EmitBucketsPermuted(memos: seq<Memo>, xs: seq<Fact>, ys: seq<Fact>, names: set<Code>)
    requires multiset(xs) == multiset(ys)
    ensures EmitBuckets(memos, xs, names) == EmitBuckets(memos, ys, names)
  {
    forall m ensures BucketLines(xs, names)(m) == BucketLines(ys, names)(m) {
      BucketPermuted(xs, ys, names, m);
    }
    FlatMapEq(memos, BucketLines(xs, names), BucketLines(ys, names));
  }

  lemma MissingCodesPermuted(memos: seq<Memo>, xs: seq<Fact>, ys: seq<Fact>, names: set<Code>)
    requires multiset(xs) == multiset(ys)
    ensures MissingCodes(memos, xs, names) == MissingCodes(memos, ys, names)
  {
    forall m ensures Missing(Bucket(xs, m), names) == Missing(Bucket(ys, m), names) {
      BucketPermuted(xs, ys, names, m);
    }
  }

  lemma PmsPlanOverPermuted(memos: seq<Memo>, chart: Chart, xs: seq<Fact>, ys: seq<Fact>, p: Property, d: Day)
    requires multiset(xs) == multiset(ys)
    ensures PmsPlanOver(memos, chart, xs, p, d) == PmsPlanOver(memos, chart, ys, p, d)
  {
    assert |xs| == |multiset(xs)| == |multiset(ys)| == |ys|;
    CodesPermuted(xs, ys);
    EmitBucketsPermuted(memos, xs, ys, ActiveCodes(chart));
    MissingCodesPermuted(memos, xs, ys, ActiveCodes(chart));
  }

  /** The daily plan, lines and fingerprint and refusals alike, depends only on the multiset of facts. */
  lemma PmsPlanOrderBlind(chart: Chart, xs: seq<Fact>, ys: seq<Fact>, p: Property, d: Day)
    requires multiset(xs) == multiset(ys)
    ensures PmsPlan(chart, xs, p, d) == PmsPlan(chart, ys, p, d)
  {
    PmsPlanOverPermuted(BUCKETS, chart, xs, ys, p, d);
  }

  lemma ExpenseLinesPermuted(expense: Code, xs: seq<LaborFact>, ys: seq<LaborFact>)
    requires multiset(xs) == multiset(ys)
    ensures ExpenseLines(expense, xs) == ExpenseLines(expense, ys)
  {
    forall f ensures f in xs <==> f in ys { PermutedMembers(xs, ys, f); }
    assert Depts(xs) == Depts(ys);
    forall d ensures DeptLines(expense, xs)(d) == DeptLines(expense, ys)(d) {
      SumPermuted(xs, ys, Only(DeptKey(), Cost(), d));
    }
    FlatMapEq(SortedDepts(Depts(xs)), DeptLines(expense, xs), DeptLines(expense, ys));
  }

  /** The accrual plan depends only on the multiset of labor rows. */
  lemma PayrollPlanOrderBlind(chart: Chart, xs: seq<LaborFact>, ys: seq<LaborFact>, p: Property, d: Day)
    requires multiset(xs) == multiset(ys)
    ensures PayrollPlan(chart, xs, p, d) == PayrollPlan(chart, ys, p, d)
  {
    assert |xs| == |multiset(xs)| == |multiset(ys)| == |ys|;
    SumPermuted(xs, ys, Cost());
    forall expense ensures ExpenseLines(expense, xs) == ExpenseLines(expense, ys) { ExpenseLinesPermuted(expense, xs, ys); }
  }
}
