/** Effective-dated room counts and the room-nights available over a window. */
module Inventory {
  import opened Prelude
  import opened Sums
  import opened Gregorian

  datatype InventoryRow = InventoryRow(effective: Day, rooms: int)

  datatype Block = Block(start: Day, end: Day, count: int)

  datatype InventoryError = NotConfigured(day: Day) | Inconsistent(day: Day) | BadWindow

  /** Ascending by effective date, as the query returns them. */
  ghost predicate Ordered(rows: seq<InventoryRow>) {
    forall i, j :: 0 <= i < j < |rows| ==> rows[i].effective < rows[j].effective
  }

  /** The count of the greatest effective date not after the day. */
  function InForce(rows: seq<InventoryRow>, day: Day): Option<int> {
    if rows == [] then None
    else if rows[|rows| - 1].effective <= day then Some(rows[|rows| - 1].rooms)
    else InForce(rows[..|rows| - 1], day)
  }

  lemma {:induction false} InForceIsLatest(rows: seq<InventoryRow>, day: Day, i: nat)
    requires Ordered(rows) && i <= |rows|
    requires forall j :: 0 <= j < i ==> rows[j].effective <= day
    requires forall j :: i <= j < |rows| ==> rows[j].effective > day
    ensures InForce(rows, day) == if i == 0 then None else Some(rows[i - 1].rooms)
  {
    if i < |rows| {
      var front := rows[..|rows| - 1];
      InForceIsLatest(front, day, i);
    }
  }

  /** Scan the rows in order, keeping the latest count seen, and stop at the first row past the day. */
  method FindInForce(rows: seq<InventoryRow>, day: Day) returns (inForce: Option<int>)
    requires Ordered(rows)
    ensures inForce == InForce(rows, day)
  {
    inForce := None;
    var i := 0;
    while i < |rows|
      invariant 0 <= i <= |rows|
      invariant forall j :: 0 <= j < i ==> rows[j].effective <= day
      invariant inForce == if i == 0 then None else Some(rows[i - 1].rooms)
    {
      if rows[i].effective <= day {
        inForce := Some(rows[i].rooms);
      } else {
        break;
      }
      i := i + 1;
    }
    InForceIsLatest(rows, day, i);
  }

  function OutOn(day: Day): Block -> int { (b: Block) => if b.start <= day <= b.end then b.count else 0 }

  function Meets(start: Day, end: Day): Block -> bool { (b: Block) => b.start <= end && b.end >= start }

  /** One day's net, or why it has none. */
  function DayNet(rows: seq<InventoryRow>, blocks: seq<Block>, day: Day): Result<int, InventoryError> {
    match InForce(rows, day)
    case None => Err(NotConfigured(day))
    case Some(n) => if n < Sum(blocks, OutOn(day)) then Err(Inconsistent(day)) else Ok(n - Sum(blocks, OutOn(day)))
  }

  /** The days' nets added up, refusing at the first day that refuses. */
  function Nights(rows: seq<InventoryRow>, blocks: seq<Block>, day: Day, end: Day): Result<int, InventoryError>
    decreases end - day + 1
  {
    if day > end then Ok(0)
    else
      match DayNet(rows, blocks, day)
      case Err(why) => Err(why)
      case Ok(net) =>
        match Nights(rows, blocks, day + 1, end)
        case Err(why) => Err(why)
        case Ok(rest) => Ok(net + rest)
  }

  /** Room-nights available over the window. */
  function Available(rows: seq<InventoryRow>, blocks: seq<Block>, start: Day, end: Day): Result<int, InventoryError> {
    if end < start then Err(BadWindow) else Nights(rows, blocks, start, end)
  }

  // ---- Refusals

  /** The answer is refused exactly when some day of the window has no count in force or more rooms out than in force. */
  lemma {:induction false} RefusedExactly(rows: seq<InventoryRow>, blocks: seq<Block>, day: Day, end: Day)
    ensures Nights(rows, blocks, day, end).Err? <==> exists d :: day <= d <= end && DayNet(rows, blocks, d).Err?
    ensures Nights(rows, blocks, day, end).Ok? ==> Nights(rows, blocks, day, end).value >= 0
    decreases end - day + 1
  {
    if day <= end {
      RefusedExactly(rows, blocks, day + 1, end);
      assert Nights(rows, blocks, day, end).Err? <==>
        DayNet(rows, blocks, day).Err? || Nights(rows, blocks, day + 1, end).Err?;
      if DayNet(rows, blocks, day).Ok? && exists d :: day <= d <= end && DayNet(rows, blocks, d).Err? {
        var d :| day <= d <= end && DayNet(rows, blocks, d).Err?;
        assert day + 1 <= d;
      }
    }
  }

  /** Row `i` has the latest effective date not after the day. */
  ghost predicate IsLatest(rows: seq<InventoryRow>, day: Day, i: int) {
    && 0 <= i < |rows| && rows[i].effective <= day
    && forall j :: 0 <= j < |rows| && rows[j].effective <= day ==> rows[j].effective <= rows[i].effective
  }

  /** The count in force, read off the rows: none exactly when every row takes effect later, otherwise the latest row's. */
  lemma {:induction false} InForceExact(rows: seq<InventoryRow>, day: Day)
    requires Ordered(rows)
    ensures InForce(rows, day).None? <==> forall r :: r in rows ==> r.effective > day
    ensures InForce(rows, day).Some? ==> exists i :: IsLatest(rows, day, i) && rows[i].rooms == InForce(rows, day).value
    ensures forall i :: IsLatest(rows, day, i) ==> InForce(rows, day) == Some(rows[i].rooms)
  {
    if rows != [] {
      var front, last := rows[..|rows| - 1], rows[|rows| - 1];
      assert rows == front + [last];
      if last.effective <= day {
        forall i ensures IsLatest(rows, day, i) <==> i == |rows| - 1 { LastIsLatest(rows, day, i); }
      } else {
        InForceExact(front, day);
        forall i ensures IsLatest(rows, day, i) <==> IsLatest(front, day, i) { LatestIsInFront(rows, day, i); }
      }
    }
  }

  lemma LastIsLatest(rows: seq<InventoryRow>, day: Day, i: int)
    requires Ordered(rows) && rows != [] && rows[|rows| - 1].effective <= day
    ensures IsLatest(rows, day, i) <==> i == |rows| - 1
  {
  }

  lemma LatestIsInFront(rows: seq<InventoryRow>, day: Day, i: int)
    requires rows != [] && rows[|rows| - 1].effective > day
    ensures IsLatest(rows, day, i) <==> IsLatest(rows[..|rows| - 1], day, i)
  {
  }

  /** A day refuses exactly when no row is in effect yet, or the blocks over it take strictly more rooms than the latest row
      has. */
  lemma DayRefusedExactly(rows: seq<InventoryRow>, blocks: seq<Block>, d: Day)
    requires Ordered(rows)
    ensures DayNet(rows, blocks, d).Err? <==>
      || (forall r :: r in rows ==> r.effective > d)
      || exists i :: IsLatest(rows, d, i) && rows[i].rooms < Sum(blocks, OutOn(d))
  {
    InForceExact(rows, d);
    var out := Sum(blocks, OutOn(d));
    if InForce(rows, d).Some? {
      var i :| IsLatest(rows, d, i) && rows[i].rooms == InForce(rows, d).value;
      assert rows[i] in rows;
      assert DayNet(rows, blocks, d).Err? <==> rows[i].rooms < out;
    }
  }

  /** A day fully out of order is no refusal: it answers zero. */
  lemma FullyBlockedDay(rows: seq<InventoryRow>, blocks: seq<Block>, d: Day, i: int)
    requires Ordered(rows) && IsLatest(rows, d, i) && rows[i].rooms == Sum(blocks, OutOn(d))
    ensures DayNet(rows, blocks, d) == Ok(0)
  {
    InForceExact(rows, d);
  }

  /** The refusal is the first refusing day's. */
  lemma {:induction false} FirstRefusal(rows: seq<InventoryRow>, blocks: seq<Block>, day: Day, end: Day) returns (d: Day)
    requires Nights(rows, blocks, day, end).Err?
    ensures day <= d <= end && DayNet(rows, blocks, d) == Err(Nights(rows, blocks, day, end).error)
    ensures forall x :: day <= x < d ==> DayNet(rows, blocks, x).Ok?
    decreases end - day + 1
  {
    if DayNet(rows, blocks, day).Err? {
      d := day;
    } else {
      d := FirstRefusal(rows, blocks, day + 1, end);
    }
  }

  /** The whole answer from the tables: a backwards window is refused; otherwise the window is refused exactly when some day
      has no row in effect or more rooms out than its latest row has. */
  lemma AvailableExactly(rows: seq<InventoryRow>, blocks: seq<Block>, start: Day, end: Day)
    requires Ordered(rows)
    ensures Available(rows, blocks, start, end) == Err(BadWindow) <==> end < start
    ensures start <= end ==> (Available(rows, blocks, start, end).Err? <==>
      exists d :: start <= d <= end
        && ((forall r :: r in rows ==> r.effective > d)
            || exists i :: IsLatest(rows, d, i) && rows[i].rooms < Sum(blocks, OutOn(d))))
  {
    if start <= end {
      RefusedExactly(rows, blocks, start, end);
      forall d ensures DayNet(rows, blocks, d).Err? <==>
        (forall r :: r in rows ==> r.effective > d) || exists i :: IsLatest(rows, d, i) && rows[i].rooms < Sum(blocks, OutOn(d))
      {
        DayRefusedExactly(rows, blocks, d);
      }
      if Nights(rows, blocks, start, end).Err? {
        var d := FirstRefusal(rows, blocks, start, end);
      }
    }
  }

  /** Splitting a window adds: the parts' answers sum to the whole's, and the whole refuses when either part does. */
  lemma {:induction false} Additive(rows: seq<InventoryRow>, blocks: seq<Block>, day: Day, mid: Day, end: Day)
    requires day <= mid + 1 && mid <= end
    ensures var whole, left, right :=
        Nights(rows, blocks, day, end), Nights(rows, blocks, day, mid), Nights(rows, blocks, mid + 1, end);
      && (whole.Ok? <==> left.Ok? && right.Ok?)
      && (whole.Ok? ==> whole.value == left.value + right.value)
    decreases mid - day + 1
  {
    if day <= mid {
      Additive(rows, blocks, day + 1, mid, end);
    }
  }

  // ---- The closed form

  function Days(day: Day, end: Day): seq<Day>
    decreases end - day + 1
  {
    if day > end then [] else [day] + Days(day + 1, end)
  }

  function CountOn(rows: seq<InventoryRow>): Day -> int {
    (d: Day) => if InForce(rows, d).Some? then InForce(rows, d).value else 0
  }

  function OutAcross(blocks: seq<Block>): Day -> int { (d: Day) => Sum(blocks, OutOn(d)) }

  function OutBy(b: Block): Day -> int { (d: Day) => if b.start <= d <= b.end then b.count else 0 }

  function Max(a: int, b: int): int { if a > b then a else b }

  function Min(a: int, b: int): int { if a < b then a else b }

  /** Days of the block inside the window. */
  function Overlap(b: Block, start: Day, end: Day): int { Max(0, Min(b.end, end) - Max(b.start, start) + 1) }

  function OutNights(start: Day, end: Day): Block -> int { (b: Block) => b.count * Overlap(b, start, end) }

  lemma {:induction false} BlockNights(b: Block, day: Day, end: Day)
    ensures Sum(Days(day, end), OutBy(b)) == b.count * Overlap(b, day, end)
    decreases end - day + 1
  {
    if day <= end {
      BlockNights(b, day + 1, end);
      SumCons(day, Days(day + 1, end), OutBy(b));
      var more := if b.start <= day <= b.end then 1 else 0;
      assert b.count * more == if b.start <= day <= b.end then b.count else 0;
      assert Overlap(b, day, end) == more + Overlap(b, day + 1, end);
      assert b.count * (more + Overlap(b, day + 1, end)) == b.count * more + b.count * Overlap(b, day + 1, end);
    } else {
      assert Overlap(b, day, end) == 0;
    }
  }

  /** Counting by day or by block gives the same room-nights out. */
  lemma {:induction false} OutByDayOrBlock(blocks: seq<Block>, day: Day, end: Day)
    ensures Sum(Days(day, end), OutAcross(blocks)) == Sum(blocks, OutNights(day, end))
  {
    var ds := Days(day, end);
    if blocks == [] {
      SumZero(ds, OutAcross(blocks));
    } else {
      OutByDayOrBlock(blocks[1..], day, end);
      BlockNights(blocks[0], day, end);
      forall d ensures OutAcross(blocks)(d) == OutBy(blocks[0])(d) + OutAcross(blocks[1..])(d) {
        assert Sum(blocks, OutOn(d)) == OutOn(d)(blocks[0]) + Sum(blocks[1..], OutOn(d));
      }
      SumLinear(ds, OutAcross(blocks), 1, OutBy(blocks[0]), 1, OutAcross(blocks[1..]));
    }
  }

  lemma {:induction false} NightsByDay(rows: seq<InventoryRow>, blocks: seq<Block>, day: Day, end: Day)
    requires Nights(rows, blocks, day, end).Ok?
    ensures Nights(rows, blocks, day, end).value
         == Sum(Days(day, end), CountOn(rows)) - Sum(Days(day, end), OutAcross(blocks))
    decreases end - day + 1
  {
    if day <= end {
      NightsByDay(rows, blocks, day + 1, end);
      SumCons(day, Days(day + 1, end), CountOn(rows));
      SumCons(day, Days(day + 1, end), OutAcross(blocks));
    }
  }

  /** Rooms available has a closed form: the in-force counts summed over the days, less each block's room count times its
      days inside the window. */
  lemma ClosedForm(rows: seq<InventoryRow>, blocks: seq<Block>, start: Day, end: Day)
    requires Available(rows, blocks, start, end).Ok?
    ensures Available(rows, blocks, start, end).value
         == Sum(Days(start, end), CountOn(rows)) - Sum(blocks, OutNights(start, end))
    ensures Available(rows, blocks, start, end).value >= 0
  {
    NightsByDay(rows, blocks, start, end);
    OutByDayOrBlock(blocks, start, end);
    RefusedExactly(rows, blocks, start, end);
  }

  // ---- The procedure

  /** Blocks outside the window take nothing from its days. */
  lemma WindowBlocks(blocks: seq<Block>, start: Day, end: Day, day: Day)
    requires start <= day <= end
    ensures Sum(Filter(blocks, Meets(start, end)), OutOn(day)) == Sum(blocks, OutOn(day))
  {
    SumFilter(blocks, Meets(start, end), OutOn(day), OutOn(day));
  }

  method RoomsAvailable(rows: seq<InventoryRow>, blocks: seq<Block>, start: Day, end: Day)
    returns (r: Result<int, InventoryError>)
    requires Ordered(rows)
    ensures r == Available(rows, blocks, start, end)
  {
    if end < start {
      return Err(BadWindow);
    }
    var near := Filter(blocks, Meets(start, end));
    var total := 0;
    var day := start;
    while day <= end
      invariant start <= day <= end + 1
      invariant Available(rows, blocks, start, end) == Plus(total, Nights(rows, blocks, day, end))
    {
      WindowBlocks(blocks, start, end, day);
      var inForce := FindInForce(rows, day);
      if inForce.None? {
        return Err(NotConfigured(day));
      }
      var net := inForce.value - Sum(near, OutOn(day));
      if net < 0 {
        return Err(Inconsistent(day));
      }
      total := total + net;
      day := day + 1;
    }
    r := Ok(total);
  }

  function Plus(n: int, r: Result<int, InventoryError>): Result<int, InventoryError> {
    match r
    case Ok(m) => Ok(n + m)
    case Err(why) => Err(why)
  }
}
