/** Effective-dated assignments and which property issues a period's paycheck. */
module Assignments {
  import opened Prelude
  import opened Sums
  import opened Gregorian

  type Property = string

  /** In force from `from` up to and not including `until`. */
  datatype Assignment = Assignment(employee: int, property: Property, primary: bool, active: bool,
                                   from: Day, until: Option<Day>)

  predicate Covers(from: Day, until: Option<Day>, on: Day) {
    if from > on then false
    else if until.Some? then until.value > on
    else true
  }

  /** Dating alone governs once an end date exists; status decides only an open assignment. */
  predicate InEffectOn(a: Assignment, on: Day) {
    Covers(a.from, a.until, on) && (a.until.Some? || a.active)
  }

  predicate OverlapsPeriod(a: Assignment, start: Day, end: Day) {
    if a.from > end then false
    else if a.until.Some? && a.until.value <= start then false
    else a.until.Some? || a.active
  }

  /** Being in force on some day of the period is overlapping it with a range that is not empty: the overlap test alone
      also accepts a placement that ends on or before the day it starts. */
  lemma OverlapExact(a: Assignment, start: Day, end: Day)
    requires start <= end
    ensures (exists d :: start <= d <= end && InEffectOn(a, d))
       <==> OverlapsPeriod(a, start, end) && (a.until.Some? ==> a.from < a.until.value)
  {
    var d := if a.from > start then a.from else start;
    if OverlapsPeriod(a, start, end) && (a.until.Some? ==> a.from < a.until.value) {
      assert InEffectOn(a, d);
    }
  }

  /** A placement that starts and ends on the same day overlaps the period and is in force on no day of it. */
  lemma ZeroWidthOverlaps(a: Assignment, start: Day, end: Day)
    requires start < a.from <= end && a.until == Some(a.from)
    ensures OverlapsPeriod(a, start, end) && forall d :: !InEffectOn(a, d)
  {
  }

  // ---- The primary assignment on one date

  function PrimaryInForce(e: int, on: Day): Assignment -> bool {
    (a: Assignment) => a.employee == e && a.primary && InEffectOn(a, on)
  }

  function PrimariesOn(table: seq<Assignment>, e: int, on: Day): seq<Assignment> { Filter(table, PrimaryInForce(e, on)) }

  /** None when no primary is in force; refused when more than one row is. */
  function PrimaryAssignmentOn(table: seq<Assignment>, e: int, on: Day): Result<Option<Assignment>, int> {
    var primaries := PrimariesOn(table, e, on);
    if |primaries| == 0 then Ok(None)
    else if |primaries| > 1 then Err(e)
    else Ok(Some(primaries[0]))
  }

  /** Row `i` is the employee's primary and in force on the day. */
  ghost predicate PaysAt(table: seq<Assignment>, i: int, e: int, on: Day) {
    0 <= i < |table| && PaysOn(table[i], e, on)
  }

  /** The lookup's answer from the table: none when no row qualifies, the row when one does, a refusal when two do. */
  lemma {:induction false} PrimaryExact(table: seq<Assignment>, e: int, on: Day)
    ensures var r := PrimaryAssignmentOn(table, e, on);
      match r
      case Err(who) => who == e && exists i, j :: i < j && PaysAt(table, i, e, on) && PaysAt(table, j, e, on)
      case Ok(None) => forall i :: !PaysAt(table, i, e, on)
      case Ok(Some(a)) => exists i :: PaysAt(table, i, e, on) && table[i] == a && forall j :: PaysAt(table, j, e, on) ==> j == i
  {
    if table != [] {
      var rest := table[1..];
      PrimaryExact(rest, e, on);
      forall i ensures PaysAt(rest, i, e, on) <==> i >= 0 && PaysAt(table, i + 1, e, on) { }
      forall i ensures PaysAt(table, i, e, on) <==> (i == 0 && PaysOn(table[0], e, on)) || PaysAt(rest, i - 1, e, on) { }
      assert PrimaryInForce(e, on)(table[0]) <==> PaysOn(table[0], e, on);
      match PrimaryAssignmentOn(rest, e, on) {
        case Err(_) =>
          var i, j :| i < j && PaysAt(rest, i, e, on) && PaysAt(rest, j, e, on);
          assert PaysAt(table, i + 1, e, on) && PaysAt(table, j + 1, e, on);
        case Ok(None) =>
          if PaysOn(table[0], e, on) {
            assert PaysAt(table, 0, e, on);
          }
        case Ok(Some(a)) =>
          var i :| PaysAt(rest, i, e, on) && rest[i] == a && forall j :: PaysAt(rest, j, e, on) ==> j == i;
          assert PaysAt(table, i + 1, e, on) && table[i + 1] == a;
          if PaysOn(table[0], e, on) {
            assert PaysAt(table, 0, e, on);
          }
      }
    }
  }

  // ---- The owner on the last covered day

  function Owners(rows: seq<Assignment>, on: Day): set<Property> {
    set a | a in rows && InEffectOn(a, on) :: a.property
  }

  /** The latest day of the window on which some row is in force. */
  ghost predicate LastCovered(rows: seq<Assignment>, start: Day, end: Day, d: Day) {
    start <= d <= end && Owners(rows, d) != {} && forall later :: d < later <= end ==> Owners(rows, later) == {}
  }

  /** What a paycheck's owner is: the one property in force on the last covered day, none when no day is covered, and
      a refusal (naming the day) when that day has two. */
  ghost predicate IsOwner(rows: seq<Assignment>, start: Day, end: Day, r: Result<Option<Property>, Day>) {
    match r
    case Err(d) => LastCovered(rows, start, end, d) && |Owners(rows, d)| > 1
    case Ok(None) => forall d :: start <= d <= end ==> Owners(rows, d) == {}
    case Ok(Some(p)) => exists d :: LastCovered(rows, start, end, d) && Owners(rows, d) == {p}
  }

  /** The rule is single-valued. */
  lemma OwnerUnique(rows: seq<Assignment>, start: Day, end: Day,
                    r: Result<Option<Property>, Day>, s: Result<Option<Property>, Day>)
    requires IsOwner(rows, start, end, r) && IsOwner(rows, start, end, s)
    ensures r == s
  {
    if r != Ok(None) && s != Ok(None) {
      var d := CoveredDay(rows, start, end, r);
      var e := CoveredDay(rows, start, end, s);
      assert d == e;
      if r.Ok? && s.Ok? {
        assert Owners(rows, d) == {r.value.value} == {s.value.value};
        assert r.value.value in {s.value.value};
      }
    }
  }

  lemma CoveredDay(rows: seq<Assignment>, start: Day, end: Day, r: Result<Option<Property>, Day>) returns (d: Day)
    requires IsOwner(rows, start, end, r) && r != Ok(None)
    ensures LastCovered(rows, start, end, d)
    ensures r.Err? ==> d == r.error && |Owners(rows, d)| > 1
    ensures r.Ok? ==> Owners(rows, d) == {r.value.value} && |Owners(rows, d)| == 1
  {
    if r.Err? {
      d := r.error;
    } else {
      d :| LastCovered(rows, start, end, d) && Owners(rows, d) == {r.value.value};
    }
  }

  lemma {:induction false} OwnerExists(rows: seq<Assignment>, start: Day, on: Day, end: Day)
    returns (r: Result<Option<Property>, Day>)
    requires start - 1 <= on <= end && forall d :: on < d <= end ==> Owners(rows, d) == {}
    ensures IsOwner(rows, start, end, r)
    decreases on - start + 1
  {
    if on < start {
      r := Ok(None);
    } else if |Owners(rows, on)| > 1 {
      r := Err(on);
    } else if Owners(rows, on) != {} {
      var p :| p in Owners(rows, on);
      Singleton(Owners(rows, on), p);
      r := Ok(Some(p));
    } else {
      r := OwnerExists(rows, start, on - 1, end);
    }
  }

  lemma Singleton<T>(s: set<T>, x: T)
    requires x in s && |s| <= 1
    ensures s == {x}
  {
    assert |s - {x}| == 0;
  }

  /** The owner rule as a function. */
  ghost function OwnerOf(rows: seq<Assignment>, start: Day, end: Day): (r: Result<Option<Property>, Day>)
    ensures IsOwner(rows, start, end, r)
  {
    assert exists r :: IsOwner(rows, start, end, r) by {
      if start - 1 <= end {
        var r := OwnerExists(rows, start, end, end);
      } else {
        assert IsOwner(rows, start, end, Ok(None));
      }
    }
    var r :| IsOwner(rows, start, end, r);
    r
  }

  /** Walk back from the end of the window to the latest covered day. */
  method OwnerOnLastCoveredDay(rows: seq<Assignment>, start: Day, end: Day) returns (r: Result<Option<Property>, Day>)
    ensures r == OwnerOf(rows, start, end)
  {
    r := Ok(None);
    var on := end;
    while on >= start
      invariant start <= end ==> start - 1 <= on <= end
      invariant forall d :: on < d <= end ==> Owners(rows, d) == {}
      decreases on - start
    {
      var owners := Owners(rows, on);
      if |owners| > 1 {
        OwnerUnique(rows, start, end, Err(on), OwnerOf(rows, start, end));
        return Err(on);
      }
      if owners != {} {
        var p := Only(owners);
        OwnerUnique(rows, start, end, Ok(Some(p)), OwnerOf(rows, start, end));
        return Ok(Some(p));
      }
      on := on - 1;
    }
    OwnerUnique(rows, start, end, Ok(None), OwnerOf(rows, start, end));
  }

  function Only(s: set<Property>): (p: Property)
    requires s != {} && |s| <= 1
    ensures s == {p}
  {
    assert exists p :: p in s;
    assert forall p, q :: p in s && q in s ==> p == q by {
      forall p, q | p in s && q in s ensures p == q { Singleton(s, p); }
    }
    var p :| p in s;
    Singleton(s, p);
    p
  }

  // ---- The pay-run population

  function PrimaryOf(e: int, end: Day): Assignment -> bool {
    (a: Assignment) => a.employee == e && a.primary && a.from <= end
  }

  /** The employee's primary rows that start by the end of the period. */
  function Primaries(table: seq<Assignment>, e: int, end: Day): seq<Assignment> { Filter(table, PrimaryOf(e, end)) }

  /** Employees this property could owe: a primary here, started by the end, overlapping the period. */
  function Candidates(table: seq<Assignment>, p: Property, start: Day, end: Day): set<int> {
    set a | a in table && a.property == p && a.primary && a.from <= end && OverlapsPeriod(a, start, end) :: a.employee
  }

  ghost function OwnerFor(table: seq<Assignment>, e: int, start: Day, end: Day): Result<Option<Property>, Day> {
    OwnerOf(Primaries(table, e, end), start, end)
  }

  /** A property's population: refused when some candidate is ambiguous, otherwise the candidates it owns. */
  ghost function PaidBy(table: seq<Assignment>, p: Property, start: Day, end: Day): Result<set<int>, ()> {
    if exists e :: e in Candidates(table, p, start, end) && OwnerFor(table, e, start, end).Err? then Err(())
    else Ok(set e | e in Candidates(table, p, start, end) && OwnerFor(table, e, start, end) == Ok(Some(p)))
  }

  lemma OwnerHasRow(table: seq<Assignment>, e: int, start: Day, end: Day, d: Day, p: Property) returns (a: Assignment)
    requires start <= d <= end && p in Owners(Primaries(table, e, end), d)
    ensures a in table && a.employee == e && a.primary && a.property == p && InEffectOn(a, d)
  {
    a :| a in Primaries(table, e, end) && InEffectOn(a, d) && a.property == p;
    FilterMembers(table, PrimaryOf(e, end), a);
  }

  /** The pre-filter changes nothing: whoever the rule makes this property's is among its candidates. */
  lemma PreFilterHarmless(table: seq<Assignment>, e: int, p: Property, start: Day, end: Day)
    requires OwnerFor(table, e, start, end) == Ok(Some(p))
    ensures e in Candidates(table, p, start, end)
  {
    var rows := Primaries(table, e, end);
    var d :| LastCovered(rows, start, end, d) && Owners(rows, d) == {p};
    var a := OwnerHasRow(table, e, start, end, d, p);
    assert OverlapsPeriod(a, start, end);
  }

  /** A property's population is exactly the employees whose last-covered-day owner it is, and the call refuses exactly
      when an employee with an overlapping primary there has two owners on their last covered day. */
  lemma PopulationExact(table: seq<Assignment>, p: Property, start: Day, end: Day)
    ensures PaidBy(table, p, start, end).Ok? ==>
      forall e :: e in PaidBy(table, p, start, end).value <==> OwnerFor(table, e, start, end) == Ok(Some(p))
    ensures PaidBy(table, p, start, end).Err? <==>
      exists e :: e in Candidates(table, p, start, end) && OwnerFor(table, e, start, end).Err?
  {
    if PaidBy(table, p, start, end).Ok? {
      forall e ensures e in PaidBy(table, p, start, end).value <==> OwnerFor(table, e, start, end) == Ok(Some(p)) {
        if OwnerFor(table, e, start, end) == Ok(Some(p)) {
          PreFilterHarmless(table, e, p, start, end);
        }
      }
    }
  }

  /** One paycheck, one payer: two properties' populations for a period share nobody. */
  lemma OnePayer(table: seq<Assignment>, p: Property, q: Property, start: Day, end: Day)
    requires p != q && PaidBy(table, p, start, end).Ok? && PaidBy(table, q, start, end).Ok?
    ensures PaidBy(table, p, start, end).value !! PaidBy(table, q, start, end).value
  {
    PopulationExact(table, p, start, end);
    PopulationExact(table, q, start, end);
  }

  /** A row of the table that is the employee's primary and in force on the day: begun, not yet ended, and active if it has
      no end. */
  predicate PaysOn(a: Assignment, e: int, d: Day) {
    && a.employee == e && a.primary && a.from <= d
    && match a.until
       case Some(u) => d < u
       case None => a.active
  }

  /** The properties with such a row on the day. */
  function Payers(table: seq<Assignment>, e: int, d: Day): set<Property> {
    set a | a in table && PaysOn(a, e, d) :: a.property
  }

  /** The rows the walk looks at miss nobody's primary of the period. */
  lemma OwnersArePayers(table: seq<Assignment>, e: int, end: Day, d: Day)
    requires d <= end
    ensures Owners(Primaries(table, e, end), d) == Payers(table, e, d)
  {
    forall a ensures a in Primaries(table, e, end) && InEffectOn(a, d) <==> a in table && PaysOn(a, e, d) {
      FilterMembers(table, PrimaryOf(e, end), a);
    }
  }

  /** The table's last covered day of the period: somebody pays on it, and nobody on a later day. */
  ghost predicate LastPaid(table: seq<Assignment>, e: int, start: Day, end: Day, d: Day) {
    start <= d <= end && Payers(table, e, d) != {} && forall later :: d < later <= end ==> Payers(table, e, later) == {}
  }

  lemma LastPaidIsLastCovered(table: seq<Assignment>, e: int, start: Day, end: Day, d: Day)
    ensures LastPaid(table, e, start, end, d) <==> LastCovered(Primaries(table, e, end), start, end, d)
  {
    forall x | x <= end ensures Owners(Primaries(table, e, end), x) == Payers(table, e, x) {
      OwnersArePayers(table, e, end, x);
    }
  }

  /** Nobody with a covered day is dropped, read off the table: if the last day of the period on which the employee has a
      primary in force has one such property, that property's run pays them and no other does; if it has two, each of
      them refuses. */
  lemma SomebodyPays(table: seq<Assignment>, e: int, start: Day, end: Day, d: Day)
    requires LastPaid(table, e, start, end, d)
    ensures var payers := Payers(table, e, d);
      && (|payers| == 1 ==> forall p :: PaidBy(table, p, start, end).Ok? ==>
            (e in PaidBy(table, p, start, end).value <==> payers == {p}))
      && (|payers| > 1 ==> forall p :: p in payers ==> PaidBy(table, p, start, end).Err?)
  {
    LastPaidIsLastCovered(table, e, start, end, d);
    OwnersArePayers(table, e, end, d);
    OwnerPays(table, e, start, end, d);
  }

  /** Nobody else is paid: whoever a property's run pays has a primary in force there on their last covered day, and a run
      refuses only for an employee with two such properties, one of whose primaries overlaps the period here. */
  lemma OnlyPayersPay(table: seq<Assignment>, e: int, p: Property, start: Day, end: Day)
    ensures PaidBy(table, p, start, end).Ok? && e in PaidBy(table, p, start, end).value ==>
      exists d :: LastPaid(table, e, start, end, d) && Payers(table, e, d) == {p}
    ensures PaidBy(table, p, start, end).Err? <==>
      exists a, d :: a in table && a.primary && a.property == p && OverlapsPeriod(a, start, end)
        && LastPaid(table, a.employee, start, end, d) && |Payers(table, a.employee, d)| > 1
  {
    if a, d :|
      a in table && a.primary && a.property == p && OverlapsPeriod(a, start, end)
      && LastPaid(table, a.employee, start, end, d) && |Payers(table, a.employee, d)| > 1
    {
      var rows := Primaries(table, a.employee, end);
      LastPaidIsLastCovered(table, a.employee, start, end, d);
      OwnersArePayers(table, a.employee, end, d);
      OwnerUnique(rows, start, end, Err(d), OwnerOf(rows, start, end));
      assert a.employee in Candidates(table, p, start, end);
    }
    if PaidBy(table, p, start, end).Ok? && e in PaidBy(table, p, start, end).value {
      var d := CoveredDay(Primaries(table, e, end), start, end, OwnerFor(table, e, start, end));
      LastPaidIsLastCovered(table, e, start, end, d);
      OwnersArePayers(table, e, end, d);
    }
    if PaidBy(table, p, start, end).Err? {
      var who :| who in Candidates(table, p, start, end) && OwnerFor(table, who, start, end).Err?;
      var d := CoveredDay(Primaries(table, who, end), start, end, OwnerFor(table, who, start, end));
      LastPaidIsLastCovered(table, who, start, end, d);
      OwnersArePayers(table, who, end, d);
      var a :| a in table && a.property == p && a.primary && OverlapsPeriod(a, start, end) && a.employee == who;
    }
  }

  lemma OwnerPays(table: seq<Assignment>, e: int, start: Day, end: Day, d: Day)
    requires LastCovered(Primaries(table, e, end), start, end, d)
    ensures var owners := Owners(Primaries(table, e, end), d);
      && (|owners| == 1 ==> forall p :: PaidBy(table, p, start, end).Ok? ==>
            (e in PaidBy(table, p, start, end).value <==> owners == {p}))
      && (|owners| > 1 ==> forall p :: p in owners ==> PaidBy(table, p, start, end).Err?)
  {
    var rows := Primaries(table, e, end);
    var owners := Owners(rows, d);
    if |owners| == 1 {
      var o := Only(owners);
      OwnerUnique(rows, start, end, Ok(Some(o)), OwnerOf(rows, start, end));
      forall p | PaidBy(table, p, start, end).Ok?
        ensures e in PaidBy(table, p, start, end).value <==> owners == {p}
      {
        PopulationExact(table, p, start, end);
        assert owners == {p} <==> o == p;
      }
    } else {
      OwnerUnique(rows, start, end, Err(d), OwnerOf(rows, start, end));
      forall p | p in owners ensures PaidBy(table, p, start, end).Err? {
        var a := OwnerHasRow(table, e, start, end, d, p);
        assert OverlapsPeriod(a, start, end);
        assert e in Candidates(table, p, start, end);
      }
    }
  }

  /** The rows of each wanted employee, in table order. */
  method GroupPrimaries(table: seq<Assignment>, wanted: set<int>, end: Day) returns (byEmployee: map<int, seq<Assignment>>)
    ensures byEmployee.Keys <= wanted
    ensures forall e :: e in wanted ==> Primaries(table, e, end) == if e in byEmployee then byEmployee[e] else []
  {
    byEmployee := map[];
    for i := 0 to |table|
      invariant byEmployee.Keys <= wanted
      invariant forall e :: e in wanted ==>
        Filter(table[..i], PrimaryOf(e, end)) == if e in byEmployee then byEmployee[e] else []
    {
      var a := table[i];
      assert table[..i + 1] == table[..i] + [a];
      forall e ensures Filter(table[..i + 1], PrimaryOf(e, end))
                    == Filter(table[..i], PrimaryOf(e, end)) + if PrimaryOf(e, end)(a) then [a] else []
      {
        FilterSnoc(table[..i], a, PrimaryOf(e, end));
      }
      if a.employee in wanted && a.primary && a.from <= end {
        var rows := if a.employee in byEmployee then byEmployee[a.employee] else [];
        byEmployee := byEmployee[a.employee := rows + [a]];
      }
    }
    assert table[..|table|] == table;
  }

  function RowsFor(byEmployee: map<int, seq<Assignment>>, e: int): seq<Assignment> {
    if e in byEmployee then byEmployee[e] else []
  }

  /** Resolve the owner of each employee in turn, stopping at the first that is ambiguous. */
  method OwnedAmong(mine: set<int>, byEmployee: map<int, seq<Assignment>>, p: Property, start: Day, end: Day,
                    ghost owner: int -> Result<Option<Property>, Day>)
    returns (r: Result<set<int>, (int, Day)>)
    requires forall e :: e in mine ==> owner(e) == OwnerOf(RowsFor(byEmployee, e), start, end)
    ensures r.Ok? ==> (forall e :: e in mine ==> owner(e).Ok?) && r.value == set e | e in mine && owner(e) == Ok(Some(p))
    ensures r.Err? ==> r.error.0 in mine && owner(r.error.0) == Err(r.error.1)
  {
    var paid: set<int> := {};
    var todo := mine;
    while exists e :: e in todo
      invariant todo <= mine
      invariant forall e :: e in mine && e !in todo ==> owner(e).Ok?
      invariant forall e :: e in paid <==> e in mine && e !in todo && owner(e) == Ok(Some(p))
      decreases |todo|
    {
      var e :| e in todo;
      var found := OwnerOnLastCoveredDay(RowsFor(byEmployee, e), start, end);
      assert found == owner(e);
      if found.Err? {
        return Err((e, found.error));
      }
      if found.value == Some(p) {
        paid := paid + {e};
      }
      todo := todo - {e};
    }
    assert forall e :: e !in todo;
    ghost var all := set e | e in mine && owner(e) == Ok(Some(p));
    assert forall e :: e in all <==> e in paid;
    assert paid == all;
    r := Ok(paid);
  }

  ghost function OwnerIn(table: seq<Assignment>, start: Day, end: Day): int -> Result<Option<Property>, Day> {
    (e: int) => OwnerFor(table, e, start, end)
  }

  /** Employees whose paycheck this property issues for the period. */
  method EmployeeIdsPaidByDuring(table: seq<Assignment>, p: Property, start: Day, end: Day)
    returns (r: Result<set<int>, (int, Day)>)
    ensures r.Ok? ==> PaidBy(table, p, start, end) == Ok(r.value)
    ensures r.Err? ==> PaidBy(table, p, start, end).Err?
    ensures r.Err? ==> OwnerFor(table, r.error.0, start, end) == Err(r.error.1)
  {
    var mine := Candidates(table, p, start, end);
    var byEmployee := GroupPrimaries(table, mine, end);
    r := OwnedAmong(mine, byEmployee, p, start, end, OwnerIn(table, start, end));
    if r.Ok? {
      assert forall e :: e in mine ==> OwnerFor(table, e, start, end) == OwnerIn(table, start, end)(e);
      assert r.value == set e | e in mine && OwnerFor(table, e, start, end) == Ok(Some(p));
    } else {
      assert r.error.0 in mine && OwnerFor(table, r.error.0, start, end).Err?;
    }
  }

  // ---- The single-date population

  function InForceAt(table: seq<Assignment>, p: Property, on: Day): set<int> {
    set a | a in table && a.property == p && a.primary && a.from <= on && InEffectOn(a, on) :: a.employee
  }

  /** Employees with a primary in force here on the date; refused when one of them has two primary rows in force. */
  function WithPrimaryAt(table: seq<Assignment>, p: Property, on: Day): Result<set<int>, ()> {
    var paid := InForceAt(table, p, on);
    if exists e :: e in paid && |PrimariesOn(table, e, on)| > 1 then Err(()) else Ok(paid)
  }

  /** The employee has a primary in force at the property on the date. */
  ghost predicate HasPrimaryAt(table: seq<Assignment>, e: int, p: Property, on: Day) {
    exists a :: a in table && PaysOn(a, e, on) && a.property == p
  }

  /** Two rows of the table are the employee's primary on the date. */
  ghost predicate TwoPrimaryRows(table: seq<Assignment>, e: int, on: Day) {
    exists i, j :: i < j && PaysAt(table, i, e, on) && PaysAt(table, j, e, on)
  }

  /** The sample from the table: refused exactly when someone with a primary in force here has two primary rows in force on
      the date; otherwise exactly the employees with one in force here. */
  lemma SampleExact(table: seq<Assignment>, p: Property, on: Day)
    ensures WithPrimaryAt(table, p, on).Err? <==> exists e :: HasPrimaryAt(table, e, p, on) && TwoPrimaryRows(table, e, on)
    ensures WithPrimaryAt(table, p, on).Ok? ==>
      forall e :: e in WithPrimaryAt(table, p, on).value <==> HasPrimaryAt(table, e, p, on)
  {
    forall e
      ensures e in InForceAt(table, p, on) <==> HasPrimaryAt(table, e, p, on)
      ensures |PrimariesOn(table, e, on)| > 1 <==> TwoPrimaryRows(table, e, on)
    {
      SampledAt(table, p, on, e);
      TwoRows(table, e, on);
    }
  }

  lemma SampledAt(table: seq<Assignment>, p: Property, on: Day, e: int)
    ensures e in InForceAt(table, p, on) <==> HasPrimaryAt(table, e, p, on)
  {
    if a :| a in table && PaysOn(a, e, on) && a.property == p {
      assert InEffectOn(a, on);
    }
    if e in InForceAt(table, p, on) {
      var a :| a in table && a.property == p && a.primary && a.from <= on && InEffectOn(a, on) && a.employee == e;
      assert PaysOn(a, e, on);
    }
  }

  lemma TwoRows(table: seq<Assignment>, e: int, on: Day)
    ensures |PrimariesOn(table, e, on)| > 1 <==> TwoPrimaryRows(table, e, on)
  {
    PrimaryExact(table, e, on);
    if |PrimariesOn(table, e, on)| <= 1 {
      assert PrimaryAssignmentOn(table, e, on).Ok?;
    }
  }

  lemma SameRowsOneDay(table: seq<Assignment>, e: int, on: Day)
    ensures Owners(Primaries(table, e, on), on) == PropertiesOf(PrimariesOn(table, e, on))
  {
    forall a ensures a in Primaries(table, e, on) && InEffectOn(a, on) <==> a in PrimariesOn(table, e, on) {
      FilterMembers(table, PrimaryOf(e, on), a);
      FilterMembers(table, PrimaryInForce(e, on), a);
    }
  }

  /** The employee has primaries in force at two properties on the date. */
  ghost predicate TwoProperties(table: seq<Assignment>, e: int, on: Day) {
    exists a, b :: a in PrimariesOn(table, e, on) && b in PrimariesOn(table, e, on) && a.property != b.property
  }

  /** Sampling one date against paying a one-day period: the period refuses exactly when a sampled employee has primaries
      at two properties, and otherwise pays exactly the employees sampled. The sample refuses on two rows even at one
      property, so the two agree wherever it does not refuse. */
  lemma OneDayPeriod(table: seq<Assignment>, p: Property, on: Day)
    ensures PaidBy(table, p, on, on).Err? <==> exists e :: e in InForceAt(table, p, on) && TwoProperties(table, e, on)
    ensures PaidBy(table, p, on, on).Ok? ==> PaidBy(table, p, on, on).value == InForceAt(table, p, on)
    ensures WithPrimaryAt(table, p, on).Ok? ==> PaidBy(table, p, on, on) == WithPrimaryAt(table, p, on)
  {
    forall a | a in table && a.property == p && a.primary && a.from <= on
      ensures OverlapsPeriod(a, on, on) <==> InEffectOn(a, on) { }
    assert Candidates(table, p, on, on) == InForceAt(table, p, on);
    forall e | e in InForceAt(table, p, on)
      ensures OwnerFor(table, e, on, on).Err? <==> TwoProperties(table, e, on)
      ensures OwnerFor(table, e, on, on).Ok? ==> OwnerFor(table, e, on, on) == Ok(Some(p))
    {
      OwnerThatDay(table, e, p, on);
    }
    if PaidBy(table, p, on, on).Ok? {
      assert PaidBy(table, p, on, on).value == InForceAt(table, p, on);
    }
  }

  /** The properties of a list of rows. */
  function PropertiesOf(rows: seq<Assignment>): set<Property> { set a | a in rows :: a.property }

  lemma OneOrTwo(rows: seq<Assignment>, a: Assignment)
    requires a in rows
    ensures |PropertiesOf(rows)| > 1 <==> exists b, c :: b in rows && c in rows && b.property != c.property
    ensures |PropertiesOf(rows)| > 1 ==> |rows| > 1
    ensures |PropertiesOf(rows)| <= 1 ==> PropertiesOf(rows) == {a.property}
  {
    var owners := PropertiesOf(rows);
    assert a.property in owners;
    if b, c :| b in rows && c in rows && b.property != c.property {
      assert b.property in owners && c.property in owners;
      TwoMembers(owners, b.property, c.property);
    } else {
      assert forall q :: q in owners ==> q == a.property;
      assert owners == {a.property};
    }
  }

  /** On the one day, an employee sampled at a property is owned by it unless they have primaries at two. */
  lemma OwnerThatDay(table: seq<Assignment>, e: int, p: Property, on: Day)
    requires e in InForceAt(table, p, on)
    ensures OwnerFor(table, e, on, on).Err? <==> TwoProperties(table, e, on)
    ensures OwnerFor(table, e, on, on).Ok? ==> OwnerFor(table, e, on, on) == Ok(Some(p))
    ensures TwoProperties(table, e, on) ==> |PrimariesOn(table, e, on)| > 1
  {
    var a :| a in table && a.property == p && a.primary && a.from <= on && InEffectOn(a, on) && a.employee == e;
    FilterMembers(table, PrimaryInForce(e, on), a);
    OneOrTwo(PrimariesOn(table, e, on), a);
    SameRowsOneDay(table, e, on);
    OwnerOfOneDay(Primaries(table, e, on), p, on);
  }

  lemma OwnerOfOneDay(rows: seq<Assignment>, p: Property, on: Day)
    requires |Owners(rows, on)| > 1 || Owners(rows, on) == {p}
    ensures OwnerOf(rows, on, on) == if |Owners(rows, on)| > 1 then Err(on) else Ok(Some(p))
  {
    assert LastCovered(rows, on, on, on);
    OwnerUnique(rows, on, on, if |Owners(rows, on)| > 1 then Err(on) else Ok(Some(p)), OwnerOf(rows, on, on));
  }

  lemma TwoMembers<T>(s: set<T>, x: T, y: T)
    requires x in s && y in s && x != y
    ensures |s| > 1
  {
    if |s| <= 1 {
      Singleton(s, x);
      assert false;
    }
  }
}
