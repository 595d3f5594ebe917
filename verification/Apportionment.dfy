/** Exact proportional splitting by largest remainder. */
module Apportionment {
  import opened Prelude
  import opened Sums
  import opened Ordering

  type Key = string

  datatype ApportionError = Inexact | LostMoney

  // ---- Quantities of one split: n quanta over the weights

  function Keys(m: map<Key, int>): seq<Key> { SortedText(m.Keys) }

  function At(m: map<Key, int>): Key -> int { (k: Key) => if k in m then m[k] else 0 }

  /** The sum of a map's values. */
  function Total(m: map<Key, int>): int { Sum(Keys(m), At(m)) }

  lemma KeysSound(m: map<Key, int>)
    ensures NoDup(Keys(m)) && |Keys(m)| == |m| && forall k :: k in Keys(m) <==> k in m
  {
    SortedTextSound(m.Keys);
  }

  /** Division rounded toward zero. */
  function Truncated(a: int, b: int): (t: int)
    requires b > 0
    ensures a >= 0 ==> t >= 0 && 0 <= a - b * t < b
    ensures a <= 0 ==> t <= 0 && -b < a - b * t <= 0
  {
    if a >= 0 then a / b else -((-a) / b)
  }

  /** The exact share is n*w/B quanta; this is its whole part. */
  function Whole(n: nat, weights: map<Key, int>, basis: int): Key -> int
    requires basis > 0
  {
    (k: Key) => Truncated(n * At(weights)(k), basis)
  }

  /** What truncation left behind, in units of 1/B quanta. */
  function Remainder(n: nat, weights: map<Key, int>, basis: int): Key -> int
    requires basis > 0
  {
    (k: Key) => n * At(weights)(k) - basis * Truncated(n * At(weights)(k), basis)
  }

  function Steps(n: nat, weights: map<Key, int>, basis: int): int
    requires basis > 0
  {
    n - Sum(Keys(weights), Whole(n, weights, basis))
  }

  /** Largest remainder first, key order breaking ties. */
  function Before(rem: Key -> int): (Key, Key) -> bool {
    (a: Key, b: Key) => rem(a) > rem(b) || (rem(a) == rem(b) && LexLe(a, b))
  }

  lemma BeforeTotal(rem: Key -> int, s: set<Key>)
    ensures TotalOn(s, Before(rem))
  {
    TextTotal(s);
  }

  function Order(rem: Key -> int, s: set<Key>): seq<Key> {
    BeforeTotal(rem, s);
    SortedSet(s, Before(rem))
  }

  lemma OrderSound(rem: Key -> int, s: set<Key>)
    ensures forall k :: k in Order(rem, s) <==> k in s
    ensures |Order(rem, s)| == |s| && Ascending(Order(rem, s), Before(rem))
  {
    BeforeTotal(rem, s);
    SortedSetSound(s, Before(rem));
  }

  function Prefix<T>(xs: seq<T>, n: int): seq<T> {
    if n <= 0 then [] else if n >= |xs| then xs else xs[..n]
  }

  /** The keys that get one quantum more. */
  function Chosen(n: nat, weights: map<Key, int>, basis: int): seq<Key>
    requires basis > 0
  {
    Prefix(Order(Remainder(n, weights, basis), weights.Keys), Steps(n, weights, basis))
  }

  function Share(n: nat, weights: map<Key, int>, basis: int): Key -> int
    requires basis > 0
  {
    (k: Key) => Whole(n, weights, basis)(k) + if k in Chosen(n, weights, basis) then 1 else 0
  }

  /** The values `f` gives the keys, each times the factor. */
  function Scale(weights: map<Key, int>, factor: int, f: Key -> int): map<Key, int> {
    map k | k in weights :: factor * f(k)
  }

  function Magnitude(x: int): nat { if x < 0 then -x else x }

  /** The split of `total` over `weights` in multiples of `quantum`, or the refusal. */
  function Apportioned(total: int, weights: map<Key, int>, quantum: int): Result<map<Key, int>, ApportionError>
    requires quantum > 0
  {
    var basis, magnitude := Total(weights), Magnitude(total);
    if weights == map[] then Ok(map[])
    else if basis <= 0 || total == 0 then Ok(map k | k in weights :: 0)
    else if magnitude % quantum != 0 then Err(Inexact)
    else
      var n, sign := magnitude / quantum, if total < 0 then -1 else 1;
      var result := Scale(weights, sign * quantum, Share(n, weights, basis));
      if Total(result) != total then Err(LostMoney) else Ok(result)
  }

  // ---- Exactness

  lemma NegatedProduct(b: int, x: int)
    ensures (-b) * x == -(b * x)
  {
  }

  lemma RemaindersAddUp(ks: seq<Key>, n: nat, weights: map<Key, int>, basis: int)
    requires basis > 0
    ensures Sum(ks, Remainder(n, weights, basis))
         == n * Sum(ks, At(weights)) - basis * Sum(ks, Whole(n, weights, basis))
  {
    var rem, w, whole := Remainder(n, weights, basis), At(weights), Whole(n, weights, basis);
    forall k ensures rem(k) == n * w(k) + (-basis) * whole(k) { NegatedProduct(basis, whole(k)); }
    SumLinear(ks, rem, n, w, -basis, whole);
    NegatedProduct(basis, Sum(ks, whole));
  }

  /** The remainders add up to exactly the missing quanta, each worth B. */
  lemma RemaindersAreSteps(n: nat, weights: map<Key, int>, basis: int)
    requires basis == Total(weights) > 0
    ensures Sum(Keys(weights), Remainder(n, weights, basis)) == basis * Steps(n, weights, basis)
  {
    RemaindersAddUp(Keys(weights), n, weights, basis);
    Distribute(basis, n, Sum(Keys(weights), Whole(n, weights, basis)));
  }

  lemma Distribute(b: int, x: int, y: int)
    ensures b * (x - y) == x * b - b * y
  {
  }

  function Constant(c: int): Key -> int { (k: Key) => c }

  lemma RemainderBelow(n: nat, weights: map<Key, int>, basis: int, k: Key)
    requires basis > 0
    ensures Remainder(n, weights, basis)(k) <= basis - 1
  {
    var a := n * At(weights)(k);
    assert Remainder(n, weights, basis)(k) == a - basis * Truncated(a, basis);
  }

  lemma StepsBelowCount(n: nat, weights: map<Key, int>, basis: int)
    requires basis == Total(weights) > 0
    ensures Steps(n, weights, basis) < |weights|
  {
    var rem := Remainder(n, weights, basis);
    KeysSound(weights);
    RemaindersAreSteps(n, weights, basis);
    forall k ensures rem(k) <= basis - 1 { RemainderBelow(n, weights, basis, k); }
    SmallRemainders(Keys(weights), rem, basis, Steps(n, weights, basis));
  }

  lemma SmallRemainders(ks: seq<Key>, rem: Key -> int, basis: int, steps: int)
    requires |ks| > 0 && basis > 0 && Sum(ks, rem) == basis * steps && forall k :: rem(k) <= basis - 1
    ensures steps < |ks|
  {
    SumLe(ks, rem, Constant(basis - 1));
    SumConstant(ks, Constant(basis - 1), basis - 1);
    Quotient(basis, steps, |ks|);
  }

  lemma Grows(b: int, x: int, y: int)
    requires b > 0 && x <= y
    ensures b * x <= b * y
  {
  }

  lemma Quotient(b: int, s: int, count: int)
    requires b > 0 && count > 0 && b * s <= (b - 1) * count
    ensures s < count
  {
    Distribute(count, b, 1);
    if s >= count {
      Grows(b, count, s);
      assert false;
    }
  }

  lemma StepsNonNegative(n: nat, weights: map<Key, int>, basis: int)
    requires basis == Total(weights) > 0
    requires forall k :: k in weights ==> weights[k] >= 0
    ensures Steps(n, weights, basis) >= 0
  {
    var ks, rem := Keys(weights), Remainder(n, weights, basis);
    forall k | k in ks ensures Constant(0)(k) <= rem(k) {
      Products(n, At(weights)(k));
    }
    SumLe(ks, Constant(0), rem);
    SumConstant(ks, Constant(0), 0);
    RemaindersAreSteps(n, weights, basis);
    if Steps(n, weights, basis) < 0 {
      Grows(basis, Steps(n, weights, basis), -1);
      assert false;
    }
  }

  lemma Products(n: nat, w: int)
    requires w >= 0
    ensures n * w >= 0
  {
  }

  function Bonus(chosen: seq<Key>): Key -> int { (k: Key) => if k in chosen then 1 else 0 }

  /** Handing one quantum to each of the first s of a listing adds s in all. */
  lemma BonusAddsUp(order: seq<Key>, s: nat)
    requires NoDup(order) && s <= |order|
    ensures Sum(order, Bonus(order[..s])) == s
  {
    var front, back := order[..s], order[s..];
    assert order == front + back;
    forall k | k in back ensures k !in front { FrontAndBackDiffer(order, s, k); }
    SumConcat(front, back, Bonus(front));
    SumConstant(front, Bonus(front), 1);
    SumConstant(back, Bonus(front), 0);
  }

  lemma FrontAndBackDiffer(order: seq<Key>, s: nat, k: Key)
    requires NoDup(order) && s <= |order| && k in order[s..]
    ensures k !in order[..s]
  {
    var j :| s <= j < |order| && order[j] == k;
    assert forall i :: 0 <= i < s ==> order[i] != order[j];
  }

  /** With no negative shortfall the shares add up to n quanta exactly; with one they cannot. */
  lemma SharesAddUp(n: nat, weights: map<Key, int>, basis: int)
    requires basis == Total(weights) > 0
    ensures Sum(Keys(weights), Share(n, weights, basis)) == n <==> Steps(n, weights, basis) >= 0
  {
    var ks, rem, steps := Keys(weights), Remainder(n, weights, basis), Steps(n, weights, basis);
    var order, chosen := Order(rem, weights.Keys), Chosen(n, weights, basis);
    KeysSound(weights);
    OrderSound(rem, weights.Keys);
    StepsBelowCount(n, weights, basis);
    SumLinear(ks, Share(n, weights, basis), 1, Whole(n, weights, basis), 1, Bonus(chosen));
    if steps >= 0 {
      assert chosen == order[..steps];
      BonusAddsUp(order, steps);
      SameMembersPermuted(ks, order);
      SumPermuted(ks, order, Bonus(chosen));
    } else {
      SumZero(ks, Bonus(chosen));
    }
  }

  lemma ResultTotal(total: int, weights: map<Key, int>, quantum: int)
    requires quantum > 0 && Magnitude(total) % quantum == 0 && Total(weights) > 0 && total != 0
    ensures Apportioned(total, weights, quantum).Ok? <==> Steps(Magnitude(total) / quantum, weights, Total(weights)) >= 0
    ensures Apportioned(total, weights, quantum).Err? ==> Apportioned(total, weights, quantum).error == LostMoney
  {
    var basis, sign := Total(weights), if total < 0 then -1 else 1;
    var n := Magnitude(total) / quantum;
    SharesAddUp(n, weights, basis);
    ScaledTies(total, weights, quantum, sign, n, Share(n, weights, basis));
    FinalCheck(total, weights, quantum, sign, n, Share(n, weights, basis));
  }

  /** Past the guards, only the final tie-out decides. */
  lemma FinalCheck(total: int, weights: map<Key, int>, quantum: int, sign: int, n: nat, share: Key -> int)
    requires quantum > 0 && Magnitude(total) % quantum == 0 && Total(weights) > 0 && total != 0
    requires n == Magnitude(total) / quantum && sign == (if total < 0 then -1 else 1)
    requires share == Share(n, weights, Total(weights))
    ensures var result := Scale(weights, sign * quantum, share);
      Apportioned(total, weights, quantum) == if Total(result) == total then Ok(result) else Err(LostMoney)
  {
    KeysSound(weights);
  }

  lemma ScaledTies(total: int, weights: map<Key, int>, quantum: int, sign: int, n: nat, f: Key -> int)
    requires quantum > 0 && Magnitude(total) % quantum == 0 && n == Magnitude(total) / quantum
    requires sign == if total < 0 then -1 else 1
    ensures Total(Scale(weights, sign * quantum, f)) == total <==> Sum(Keys(weights), f) == n
  {
    ScaledTotal(weights, sign * quantum, f);
    WholeQuanta(total, quantum, sign, n, Sum(Keys(weights), f));
  }

  lemma ScaledTotal(weights: map<Key, int>, factor: int, f: Key -> int)
    ensures Total(Scale(weights, factor, f)) == factor * Sum(Keys(weights), f)
  {
    var result := Scale(weights, factor, f);
    assert result.Keys == weights.Keys;
    KeysSound(weights);
    SumScaled(Keys(weights), At(result), factor, f);
  }

  lemma WholeQuanta(total: int, quantum: int, sign: int, n: nat, s: int)
    requires quantum > 0 && Magnitude(total) % quantum == 0 && n == Magnitude(total) / quantum
    requires sign == if total < 0 then -1 else 1
    ensures total == sign * quantum * n
    ensures sign * quantum * s == total <==> s == n
  {
    assert Magnitude(total) == quantum * n;
    NegatedProduct(quantum, n);
    NegatedProduct(quantum, s);
    SameProduct(quantum, s, n);
  }

  lemma SameProduct(b: int, x: int, y: int)
    requires b > 0
    ensures b * x == b * y <==> x == y
  {
    if x < y {
      Grows(b, x + 1, y);
    } else if y < x {
      Grows(b, y + 1, x);
    }
  }

  // ---- Fairness

  /** What every caller may rely on when no weight is negative and some weight is positive. */
  ghost predicate NonNegative(weights: map<Key, int>) { forall k :: k in weights ==> weights[k] >= 0 }

  /** A share of the total's sign or zero, zero for a zero weight, and within one quantum of total*w/B. */
  predicate FairShare(total: int, quantum: int, basis: int, w: int, share: int) {
    && (total >= 0 ==> share >= 0) && (total <= 0 ==> share <= 0)
    && (w == 0 ==> share == 0)
    && -(basis * quantum) < basis * share - total * w < basis * quantum
  }

  /** The exact contract: with non-negative weights and a positive basis, a total of whole quanta always splits, the
      shares add up to it exactly for either sign, each share has the total's sign or is zero, zero-weight keys get
      zero, and every share is within one quantum of the exact proportion. */
  lemma ApportionFair(total: int, weights: map<Key, int>, quantum: int)
    requires quantum > 0 && Magnitude(total) % quantum == 0 && NonNegative(weights) && Total(weights) > 0
    ensures var r, basis := Apportioned(total, weights, quantum), Total(weights);
      && r.Ok? && r.value.Keys == weights.Keys && Total(r.value) == total
      && forall k :: k in weights ==> FairShare(total, quantum, basis, weights[k], r.value[k])
  {
    if total == 0 {
      ZeroFair(weights, quantum);
    } else {
      NonZeroFair(total, weights, quantum);
    }
  }

  lemma ZeroFair(weights: map<Key, int>, quantum: int)
    requires quantum > 0 && Total(weights) > 0
    ensures var r := Apportioned(0, weights, quantum);
      && r.Ok? && r.value.Keys == weights.Keys && Total(r.value) == 0
      && forall k :: k in weights ==> r.value[k] == 0
    ensures Total(weights) * quantum > 0
  {
    KeysSound(weights);
    var zeros := map k | k in weights :: 0;
    KeysSound(zeros);
    SumZero(Keys(zeros), At(zeros));
    PositiveProduct(Total(weights), quantum);
  }

  lemma NonZeroFair(total: int, weights: map<Key, int>, quantum: int)
    requires quantum > 0 && Magnitude(total) % quantum == 0 && NonNegative(weights) && Total(weights) > 0 && total != 0
    ensures var r, basis := Apportioned(total, weights, quantum), Total(weights);
      && r.Ok? && r.value.Keys == weights.Keys && Total(r.value) == total
      && forall k :: k in weights ==> FairShare(total, quantum, basis, weights[k], r.value[k])
  {
    var basis, n, sign := Total(weights), Magnitude(total) / quantum, if total < 0 then -1 else 1;
    StepsNonNegative(n, weights, basis);
    ResultTotal(total, weights, quantum);
    WholeQuanta(total, quantum, sign, n, 0);
    forall k | k in weights ensures FairShare(total, quantum, basis, weights[k], sign * quantum * Share(n, weights, basis)(k)) {
      ShareFair(n, weights, basis, k);
      Scaled(sign, quantum, n, Share(n, weights, basis)(k), basis, weights[k], total);
    }
  }

  lemma PositiveProduct(a: int, b: int)
    requires a > 0 && b > 0
    ensures a * b > 0
  {
  }

  /** In quanta: a share is non-negative, zero for a zero weight, and within one quantum of n*w/B. */
  lemma ShareFair(n: nat, weights: map<Key, int>, basis: int, k: Key)
    requires basis == Total(weights) > 0 && NonNegative(weights) && k in weights
    ensures var s := Share(n, weights, basis)(k);
      s >= 0 && (weights[k] == 0 ==> s == 0) && -basis < basis * s - n * weights[k] < basis
  {
    Products(n, weights[k]);
    var whole, rem := Whole(n, weights, basis)(k), Remainder(n, weights, basis)(k);
    assert n * weights[k] == basis * whole + rem && 0 <= rem < basis;
    Distribute(basis, whole, -1);
    if k in Chosen(n, weights, basis) {
      ChosenHaveRemainder(n, weights, basis, k);
    }
  }

  /** A key is only topped up if truncation took something from it. */
  lemma ChosenHaveRemainder(n: nat, weights: map<Key, int>, basis: int, k: Key)
    requires basis == Total(weights) > 0 && NonNegative(weights) && k in Chosen(n, weights, basis)
    ensures Remainder(n, weights, basis)(k) > 0
  {
    var rem, steps := Remainder(n, weights, basis), Steps(n, weights, basis);
    var order := Order(rem, weights.Keys);
    OrderListing(n, weights, basis);
    var i :| 0 <= i < steps && order[i] == k;
    EarlyArePositive(order, rem, basis, steps, i);
  }

  /** The order lists the keys once each, by falling remainder, and its remainders add up to the missing quanta. */
  ghost predicate Listing(order: seq<Key>, keys: set<Key>, rem: Key -> int, basis: int, steps: int) {
    && (forall k :: k in order <==> k in keys)
    && Ascending(order, Before(rem))
    && (forall k :: k in order ==> 0 <= rem(k) < basis)
    && Sum(order, rem) == basis * steps && 0 <= steps < |order|
  }

  lemma OrderListing(n: nat, weights: map<Key, int>, basis: int)
    requires basis == Total(weights) > 0 && NonNegative(weights)
    ensures Listing(Order(Remainder(n, weights, basis), weights.Keys), weights.Keys, Remainder(n, weights, basis), basis,
                    Steps(n, weights, basis))
    ensures Chosen(n, weights, basis)
         == Order(Remainder(n, weights, basis), weights.Keys)[..Steps(n, weights, basis)]
  {
    var rem := Remainder(n, weights, basis);
    var order := Order(rem, weights.Keys);
    OrderSound(rem, weights.Keys);
    StepsBelowCount(n, weights, basis);
    StepsNonNegative(n, weights, basis);
    forall k | k in order ensures 0 <= rem(k) < basis { Products(n, weights[k]); }
    RemaindersAreSteps(n, weights, basis);
    KeysSound(weights);
    SameMembersPermuted(Keys(weights), order);
    SumPermuted(Keys(weights), order, rem);
  }

  lemma EarlyArePositive(order: seq<Key>, rem: Key -> int, basis: int, steps: int, i: nat)
    requires Ascending(order, Before(rem)) && basis > 0 && i < steps < |order| && Sum(order, rem) == basis * steps
    requires forall k :: k in order ==> 0 <= rem(k) < basis
    ensures rem(order[i]) > 0
  {
    assert order[i] in order;
    if rem(order[i]) == 0 {
      LaterAreZero(order, rem, i);
      assert order == order[..i] + order[i..];
      SumConcat(order[..i], order[i..], rem);
      SumZero(order[i..], rem);
      SumLe(order[..i], rem, Constant(basis));
      SumConstant(order[..i], Constant(basis), basis);
      Grows(basis, i + 1, steps);
      Distribute(basis, i, -1);
      assert false;
    }
  }

  /** Past a zero remainder the order holds only zeros. */
  lemma LaterAreZero(order: seq<Key>, rem: Key -> int, i: nat)
    requires Ascending(order, Before(rem)) && i < |order| && rem(order[i]) == 0
    requires forall k :: k in order ==> rem(k) >= 0
    ensures forall k :: k in order[i..] ==> rem(k) == 0
  {
    forall j | i <= j < |order| ensures rem(order[j]) == 0 {
      assert order[j] in order;
      if i < j {
        assert Before(rem)(order[i], order[j]);
      }
    }
  }

  lemma Factored(q: int, b: int, s: int, n: int, w: int)
    ensures b * (q * s) - (q * n) * w == q * (b * s - n * w)
  {
    assert b * (q * s) == q * (b * s);
    assert (q * n) * w == q * (n * w);
    assert q * (b * s - n * w) == q * (b * s) - q * (n * w);
  }

  lemma Within(q: int, d: int, b: int)
    requires q > 0 && -b < d < b
    ensures -(b * q) < q * d < b * q
  {
    Grows(q, d + 1, b);
    Grows(q, -b + 1, d);
    Distribute(q, d, -1);
    Distribute(q, -b, -1);
    NegatedProduct(b, q);
  }

  lemma Scaled(sign: int, quantum: int, n: nat, s: int, basis: int, w: int, total: int)
    requires quantum > 0 && (sign == 1 || sign == -1) && total == sign * quantum * n
    requires -basis < basis * s - n * w < basis && basis > 0 && s >= 0
    ensures -(basis * quantum) < basis * (sign * quantum * s) - total * w < basis * quantum
    ensures sign == 1 ==> sign * quantum * s >= 0
    ensures sign == -1 ==> sign * quantum * s <= 0
    ensures s == 0 ==> sign * quantum * s == 0
  {
    var d := basis * s - n * w;
    Factored(sign * quantum, basis, s, n, w);
    Within(quantum, d, basis);
    NegatedProduct(quantum, d);
    NegatedProduct(quantum, s);
    Products(quantum, s);
  }

  // ---- Optimality

  /** B times the distance of `x` quanta from key k's exact share of `n`. */
  function Deviation(n: int, weights: map<Key, int>, basis: int, x: Key -> int): Key -> int {
    (k: Key) => Magnitude(basis * x(k) - n * At(weights)(k))
  }

  /** Moving y quanta off a whole part costs at least what the price p = B - 2r of a quantum gives back. */
  lemma PricedOut(b: int, r: int, y: int, c: int, p: int)
    requires 0 <= r < b && -b <= p <= b && (c == 0 || c == 1)
    requires c == 0 ==> p <= b - 2 * r
    requires c == 1 ==> p >= b - 2 * r
    ensures Magnitude(b * y - r) - p * y >= Magnitude(b * c - r) - p * c
  {
    if y >= 1 {
      Grows(b, 1, y);
      Grows2(b - p, 1, y);
      Distribute(y, b, p);
    } else {
      Grows(b, y, 0);
      Grows2(b + p, y, 0);
      Distribute(y, b, -p);
    }
  }

  lemma Grows2(b: int, x: int, y: int)
    requires b >= 0 && x <= y
    ensures b * x <= b * y
  {
  }

  function Excess(whole: Key -> int, x: Key -> int): Key -> int { (k: Key) => x(k) - whole(k) }

  /** The deviation of `x`, charged `p` for every quantum above the whole parts. */
  function Priced(dev: Key -> int, excess: Key -> int, p: int): Key -> int { (k: Key) => dev(k) - p * excess(k) }

  lemma PricedSum(ks: seq<Key>, dev: Key -> int, whole: Key -> int, x: Key -> int, p: int)
    ensures Sum(ks, Priced(dev, Excess(whole, x), p)) == Sum(ks, dev) - p * (Sum(ks, x) - Sum(ks, whole))
  {
    var excess := Excess(whole, x);
    SumLinear(ks, excess, 1, x, -1, whole);
    forall k ensures Priced(dev, excess, p)(k) == 1 * dev(k) + (-p) * excess(k) { NegatedProduct(p, excess(k)); }
    SumLinear(ks, Priced(dev, excess, p), 1, dev, -p, excess);
    NegatedProduct(p, Sum(ks, excess));
  }

  /** The price at which the chosen keys, and only they, are worth topping up. */
  function Price(order: seq<Key>, rem: Key -> int, basis: int, steps: int): int {
    if 0 < steps <= |order| then basis - 2 * rem(order[steps - 1]) else -basis
  }

  lemma PriceSeparates(order: seq<Key>, keys: set<Key>, rem: Key -> int, basis: int, steps: int, k: Key)
    requires Listing(order, keys, rem, basis, steps) && k in keys
    ensures var p := Price(order, rem, basis, steps);
      && -basis <= p <= basis
      && (k in order[..steps] ==> p >= basis - 2 * rem(k))
      && (k !in order[..steps] ==> p <= basis - 2 * rem(k))
  {
    var i :| 0 <= i < |order| && order[i] == k;
    if steps > 0 {
      var last := steps - 1;
      assert order[last] in order;
      if i < last {
        assert Before(rem)(order[i], order[last]);
      } else if last < i {
        assert Before(rem)(order[last], order[i]);
      }
      if i < steps {
        assert order[..steps][i] == k;
      }
    }
  }

  /** The same deviation measured from the whole part. */
  lemma DeviationFromWhole(n: nat, weights: map<Key, int>, basis: int, x: Key -> int, k: Key)
    requires basis > 0
    ensures Deviation(n, weights, basis, x)(k)
         == Magnitude(basis * (x(k) - Whole(n, weights, basis)(k)) - Remainder(n, weights, basis)(k))
  {
    Distribute(basis, x(k), Whole(n, weights, basis)(k));
  }

  lemma SharePriced(n: nat, weights: map<Key, int>, basis: int, x: Key -> int, p: int, k: Key)
    requires basis == Total(weights) > 0 && NonNegative(weights) && k in weights && -basis <= p <= basis
    requires k in Chosen(n, weights, basis) ==> p >= basis - 2 * Remainder(n, weights, basis)(k)
    requires k !in Chosen(n, weights, basis) ==> p <= basis - 2 * Remainder(n, weights, basis)(k)
    ensures var whole, share := Whole(n, weights, basis), Share(n, weights, basis);
      Priced(Deviation(n, weights, basis, share), Excess(whole, share), p)(k)
      <= Priced(Deviation(n, weights, basis, x), Excess(whole, x), p)(k)
  {
    var whole, rem, share := Whole(n, weights, basis)(k), Remainder(n, weights, basis)(k), Share(n, weights, basis);
    Products(n, weights[k]);
    DeviationFromWhole(n, weights, basis, share, k);
    DeviationFromWhole(n, weights, basis, x, k);
    PricedOut(basis, rem, x(k) - whole, share(k) - whole, p);
  }

  /** No other split of n quanta strays less in total from the exact proportions. */
  lemma SharesOptimal(n: nat, weights: map<Key, int>, basis: int, x: Key -> int)
    requires basis == Total(weights) > 0 && NonNegative(weights) && Sum(Keys(weights), x) == n
    ensures Sum(Keys(weights), Deviation(n, weights, basis, Share(n, weights, basis)))
         <= Sum(Keys(weights), Deviation(n, weights, basis, x))
  {
    var ks, rem, steps := Keys(weights), Remainder(n, weights, basis), Steps(n, weights, basis);
    var whole, share, order := Whole(n, weights, basis), Share(n, weights, basis), Order(rem, weights.Keys);
    var p := Price(order, rem, basis, steps);
    OrderListing(n, weights, basis);
    KeysSound(weights);
    var mine, theirs := Deviation(n, weights, basis, share), Deviation(n, weights, basis, x);
    forall k | k in ks ensures Priced(mine, Excess(whole, share), p)(k) <= Priced(theirs, Excess(whole, x), p)(k) {
      PriceSeparates(order, weights.Keys, rem, basis, steps, k);
      SharePriced(n, weights, basis, x, p, k);
    }
    SharesAddUp(n, weights, basis);
    PricedBound(ks, mine, theirs, whole, share, x, p);
  }

  /** Two splits of the same count are charged the same, so the one cheaper key by key strays no more. */
  lemma PricedBound(ks: seq<Key>, mine: Key -> int, theirs: Key -> int, whole: Key -> int, s: Key -> int, x: Key -> int, p: int)
    requires forall k :: k in ks ==> Priced(mine, Excess(whole, s), p)(k) <= Priced(theirs, Excess(whole, x), p)(k)
    requires Sum(ks, s) == Sum(ks, x)
    ensures Sum(ks, mine) <= Sum(ks, theirs)
  {
    SumLe(ks, Priced(mine, Excess(whole, s), p), Priced(theirs, Excess(whole, x), p));
    PricedSum(ks, mine, whole, s, p);
    PricedSum(ks, theirs, whole, x, p);
  }

  function Signed(sign: int, x: Key -> int): Key -> int { (k: Key) => sign * x(k) }

  /** B times the total distance of an allocation from the exact proportions of `total`. */
  function Stray(total: int, weights: map<Key, int>, allocation: map<Key, int>): int {
    Sum(Keys(weights), Deviation(total, weights, Total(weights), At(allocation)))
  }

  lemma ScaledDeviation(sign: int, quantum: int, n: nat, basis: int, x: int, w: int)
    requires quantum > 0 && (sign == 1 || sign == -1)
    ensures Magnitude(basis * (quantum * x) - (sign * quantum * n) * w) == quantum * Magnitude(basis * (sign * x) - n * w)
  {
    var q, y := sign * quantum, sign * x;
    assert quantum * x == q * y;
    Factored(q, basis, y, n, w);
    var d := basis * y - n * w;
    NegatedProduct(quantum, d);
    Products(quantum, Magnitude(d));
  }

  lemma DeviationScaledAt(total: int, weights: map<Key, int>, quantum: int, sign: int, n: nat, x: Key -> int,
                          m: map<Key, int>, k: Key)
    requires quantum > 0 && (sign == 1 || sign == -1) && total == sign * quantum * n
    requires k in m && m[k] == quantum * x(k)
    ensures Deviation(total, weights, Total(weights), At(m))(k)
         == quantum * Deviation(n, weights, Total(weights), Signed(sign, x))(k)
  {
    ScaledDeviation(sign, quantum, n, Total(weights), x(k), At(weights)(k));
  }

  lemma StrayScaled(total: int, weights: map<Key, int>, quantum: int, sign: int, n: nat, x: Key -> int, m: map<Key, int>)
    requires quantum > 0 && (sign == 1 || sign == -1) && total == sign * quantum * n
    requires m.Keys == weights.Keys && forall k :: k in m ==> m[k] == quantum * x(k)
    ensures Stray(total, weights, m)
         == quantum * Sum(Keys(weights), Deviation(n, weights, Total(weights), Signed(sign, x)))
  {
    var ks, basis := Keys(weights), Total(weights);
    var big, small := Deviation(total, weights, basis, At(m)), Deviation(n, weights, basis, Signed(sign, x));
    KeysSound(weights);
    forall k | k in ks ensures big(k) == quantum * small(k) {
      DeviationScaledAt(total, weights, quantum, sign, n, x, m, k);
    }
    SumScaled(ks, big, quantum, small);
  }

  /** Apportionment is optimal: no other split of the same total into whole quanta strays less, in total, from the
      exact proportional shares, for a total of either sign. */
  lemma ApportionOptimal(total: int, weights: map<Key, int>, quantum: int, other: map<Key, int>)
    requires quantum > 0 && Magnitude(total) % quantum == 0 && NonNegative(weights) && Total(weights) > 0
    requires other.Keys == weights.Keys && Total(other) == total
    requires forall k :: k in other ==> Magnitude(other[k]) % quantum == 0
    ensures Apportioned(total, weights, quantum).Ok?
    ensures Stray(total, weights, Apportioned(total, weights, quantum).value) <= Stray(total, weights, other)
  {
    ApportionFair(total, weights, quantum);
    if total == 0 {
      ZeroStray(weights, Apportioned(total, weights, quantum).value);
      SumLe(Keys(weights), Constant(0), Deviation(0, weights, Total(weights), At(other)));
      SumConstant(Keys(weights), Constant(0), 0);
    } else {
      QuantaTotal(other, quantum);
      KeysSound(weights);
      OptimalAgainst(total, weights, quantum, InQuanta(other, quantum), other);
    }
  }

  lemma SignedCount(ks: seq<Key>, total: int, quantum: int, sign: int, n: nat, x: Key -> int)
    requires quantum > 0 && (sign == 1 || sign == -1) && total == sign * quantum * n && quantum * Sum(ks, x) == total
    ensures Sum(ks, Signed(sign, x)) == n
  {
    SumScaled(ks, Signed(sign, x), sign, x);
    NegatedProduct(quantum, n);
    SameProduct(quantum, Sum(ks, x), sign * n);
  }

  lemma OptimalAgainst(total: int, weights: map<Key, int>, quantum: int, x: Key -> int, other: map<Key, int>)
    requires quantum > 0 && Magnitude(total) % quantum == 0 && total != 0 && NonNegative(weights) && Total(weights) > 0
    requires other.Keys == weights.Keys && quantum * Sum(Keys(weights), x) == total
    requires forall k :: k in other ==> other[k] == quantum * x(k)
    requires Apportioned(total, weights, quantum).Ok?
    ensures Stray(total, weights, Apportioned(total, weights, quantum).value) <= Stray(total, weights, other)
  {
    var sign, n := if total < 0 then -1 else 1, Magnitude(total) / quantum;
    var share, mine := Share(n, weights, Total(weights)), Apportioned(total, weights, quantum).value;
    WholeQuanta(total, quantum, sign, n, 0);
    FinalCheck(total, weights, quantum, sign, n, share);
    SplitAgainst(total, weights, quantum, sign, n, share, mine, x, other);
  }

  lemma SplitAgainst(total: int, weights: map<Key, int>, quantum: int, sign: int, n: nat, share: Key -> int,
                     mine: map<Key, int>, x: Key -> int, other: map<Key, int>)
    requires quantum > 0 && NonNegative(weights) && Total(weights) > 0
    requires (sign == 1 || sign == -1) && total == sign * quantum * n && share == Share(n, weights, Total(weights))
    requires mine.Keys == weights.Keys && forall k :: k in mine ==> mine[k] == sign * quantum * share(k)
    requires other.Keys == weights.Keys && quantum * Sum(Keys(weights), x) == total
    requires forall k :: k in other ==> other[k] == quantum * x(k)
    ensures Stray(total, weights, mine) <= Stray(total, weights, other)
  {
    var basis := Total(weights);
    SignedCount(Keys(weights), total, quantum, sign, n, x);
    SharesOptimal(n, weights, basis, Signed(sign, x));
    StrayScaled(total, weights, quantum, sign, n, x, other);
    MineScaled(total, weights, quantum, sign, n, share, mine);
    Grows(quantum, Sum(Keys(weights), Deviation(n, weights, basis, share)),
          Sum(Keys(weights), Deviation(n, weights, basis, Signed(sign, x))));
  }

  lemma MineScaled(total: int, weights: map<Key, int>, quantum: int, sign: int, n: nat, share: Key -> int, m: map<Key, int>)
    requires quantum > 0 && (sign == 1 || sign == -1) && total == sign * quantum * n
    requires m.Keys == weights.Keys && forall k :: k in m ==> m[k] == sign * quantum * share(k)
    ensures Stray(total, weights, m) == quantum * Sum(Keys(weights), Deviation(n, weights, Total(weights), share))
  {
    forall k | k in m ensures m[k] == quantum * Signed(sign, share)(k) { NegatedProduct(quantum, share(k)); }
    var twice := Signed(sign, Signed(sign, share));
    forall k ensures twice(k) == share(k) { }
    StrayScaled(total, weights, quantum, sign, n, Signed(sign, share), m);
    SumEq(Keys(weights), Deviation(n, weights, Total(weights), twice), Deviation(n, weights, Total(weights), share));
  }

  function InQuanta(m: map<Key, int>, quantum: int): Key -> int
    requires quantum > 0
  {
    (k: Key) => Truncated(At(m)(k), quantum)
  }

  lemma ExactQuotient(a: int, b: int)
    requires b > 0 && Magnitude(a) % b == 0
    ensures a == b * Truncated(a, b)
  {
    var q := Magnitude(a) / b;
    assert Magnitude(a) == b * q;
    NegatedProduct(b, q);
    assert Truncated(a, b) == if a >= 0 then q else -q;
  }

  lemma QuantaTotal(m: map<Key, int>, quantum: int)
    requires quantum > 0 && forall k :: k in m ==> Magnitude(m[k]) % quantum == 0
    ensures forall k :: k in m ==> m[k] == quantum * InQuanta(m, quantum)(k)
    ensures Total(m) == quantum * Sum(Keys(m), InQuanta(m, quantum))
  {
    var x := InQuanta(m, quantum);
    KeysSound(m);
    forall k | k in m ensures m[k] == quantum * x(k) {
      ExactQuotient(m[k], quantum);
      assert At(m)(k) == m[k];
    }
    SumScaled(Keys(m), At(m), quantum, x);
  }

  lemma ZeroStray(weights: map<Key, int>, m: map<Key, int>)
    requires forall k :: k in m ==> m[k] == 0
    ensures Stray(0, weights, m) == 0
  {
    SumZero(Keys(weights), Deviation(0, weights, Total(weights), At(m)));
  }

  // ---- Monotonicity

  lemma TruncatedMonotone(a: int, b: int, basis: int)
    requires basis > 0 && 0 <= a <= b
    ensures Truncated(a, basis) <= Truncated(b, basis)
  {
    if Truncated(b, basis) < Truncated(a, basis) {
      Grows(basis, Truncated(b, basis) + 1, Truncated(a, basis));
      Distribute(basis, Truncated(b, basis), -1);
      assert false;
    }
  }

  lemma EarlierHasMore(order: seq<Key>, rem: Key -> int, i: int, h: int)
    requires Ascending(order, Before(rem)) && 0 <= i < |order| && 0 <= h < |order|
    ensures i < h ==> rem(order[i]) >= rem(order[h])
  {
    assert i < h ==> Before(rem)(order[i], order[h]);
  }

  /** In quanta: a strictly heavier key never gets less. */
  lemma HeavierShare(n: nat, weights: map<Key, int>, basis: int, j: Key, k: Key)
    requires basis == Total(weights) > 0 && NonNegative(weights) && n > 0
    requires j in weights && k in weights && weights[j] > weights[k]
    ensures Share(n, weights, basis)(j) >= Share(n, weights, basis)(k)
  {
    var rem, steps := Remainder(n, weights, basis), Steps(n, weights, basis);
    var order := Order(rem, weights.Keys);
    Grows(n, weights[k] + 1, weights[j]);
    Distribute(n, weights[k], -1);
    Products(n, weights[k]);
    TruncatedMonotone(n * weights[k], n * weights[j], basis);
    if Whole(n, weights, basis)(j) == Whole(n, weights, basis)(k) && k in Chosen(n, weights, basis) {
      OrderListing(n, weights, basis);
      assert rem(j) > rem(k);
      var i :| 0 <= i < steps && order[i] == k;
      var h :| 0 <= h < |order| && order[h] == j;
      EarlierHasMore(order, rem, i, h);
      assert order[..steps][h] == j;
    }
  }

  /** A key with a larger weight never gets a share of smaller magnitude. */
  lemma HeavierGetsNoLess(total: int, weights: map<Key, int>, quantum: int, j: Key, k: Key)
    requires quantum > 0 && Magnitude(total) % quantum == 0 && NonNegative(weights) && Total(weights) > 0
    requires j in weights && k in weights && weights[j] > weights[k]
    ensures Apportioned(total, weights, quantum).Ok?
    ensures var r := Apportioned(total, weights, quantum).value;
      j in r && k in r && Magnitude(r[j]) >= Magnitude(r[k])
  {
    ApportionFair(total, weights, quantum);
    if total != 0 {
      var basis, n, sign := Total(weights), Magnitude(total) / quantum, if total < 0 then -1 else 1;
      WholeQuanta(total, quantum, sign, n, 0);
      HeavierShare(n, weights, basis, j, k);
      ShareFair(n, weights, basis, j);
      ShareFair(n, weights, basis, k);
      var a, b := Share(n, weights, basis)(j), Share(n, weights, basis)(k);
      Grows(quantum, b, a);
      Products(quantum, b);
      NegatedProduct(quantum, a);
      NegatedProduct(quantum, b);
    }
  }

  // ---- Ties and refusals

  /** Of two keys that truncation took the same from, the earlier is topped up first. */
  lemma EarlierToppedFirst(n: nat, weights: map<Key, int>, basis: int, j: Key, k: Key)
    requires basis == Total(weights) > 0 && NonNegative(weights)
    requires j in weights && k in weights && LexLe(j, k)
    requires Remainder(n, weights, basis)(j) == Remainder(n, weights, basis)(k)
    ensures k in Chosen(n, weights, basis) ==> j in Chosen(n, weights, basis)
  {
    if k in Chosen(n, weights, basis) {
      var rem, steps := Remainder(n, weights, basis), Steps(n, weights, basis);
      var order := Order(rem, weights.Keys);
      OrderListing(n, weights, basis);
      var i :| 0 <= i < steps && order[i] == k;
      var h :| 0 <= h < |order| && order[h] == j;
      TieInOrder(order, rem, i, h);
      assert order[..steps][h] == j;
    }
  }

  lemma TieInOrder(order: seq<Key>, rem: Key -> int, i: int, h: int)
    requires Ascending(order, Before(rem)) && 0 <= i < |order| && 0 <= h < |order|
    requires rem(order[h]) == rem(order[i]) && LexLe(order[h], order[i])
    ensures h <= i
  {
    if i < h {
      assert Before(rem)(order[i], order[h]);
      LexAntisymmetric(order[i], order[h]);
    }
  }

  /** Of two keys of equal weight the earlier in text order never gets the smaller magnitude. */
  lemma EarlierGetsNoLess(total: int, weights: map<Key, int>, quantum: int, j: Key, k: Key)
    requires quantum > 0 && Magnitude(total) % quantum == 0 && NonNegative(weights) && Total(weights) > 0
    requires j in weights && k in weights && weights[j] == weights[k] && LexLe(j, k)
    ensures Apportioned(total, weights, quantum).Ok?
    ensures var r := Apportioned(total, weights, quantum).value;
      j in r && k in r && Magnitude(r[j]) >= Magnitude(r[k])
  {
    ApportionFair(total, weights, quantum);
    if total != 0 {
      var basis, n, sign := Total(weights), Magnitude(total) / quantum, if total < 0 then -1 else 1;
      WholeQuanta(total, quantum, sign, n, 0);
      EarlierShare(n, weights, basis, j, k);
      MagnitudesFollow(sign, quantum, Share(n, weights, basis)(j), Share(n, weights, basis)(k));
    }
  }

  lemma EarlierShare(n: nat, weights: map<Key, int>, basis: int, j: Key, k: Key)
    requires basis == Total(weights) > 0 && NonNegative(weights)
    requires j in weights && k in weights && weights[j] == weights[k] && LexLe(j, k)
    ensures Share(n, weights, basis)(j) >= Share(n, weights, basis)(k) >= 0
  {
    EarlierToppedFirst(n, weights, basis, j, k);
    ShareFair(n, weights, basis, k);
  }

  lemma MagnitudesFollow(sign: int, quantum: int, a: int, b: int)
    requires quantum > 0 && (sign == 1 || sign == -1) && a >= b >= 0
    ensures Magnitude(sign * quantum * a) >= Magnitude(sign * quantum * b)
  {
    Grows(quantum, b, a);
    Products(quantum, b);
    NegatedProduct(quantum, a);
    NegatedProduct(quantum, b);
  }

  /** Refused as inexact exactly when there is weight to split over and the total is no whole number of quanta. */
  lemma InexactExactly(total: int, weights: map<Key, int>, quantum: int)
    requires quantum > 0
    ensures Apportioned(total, weights, quantum) == Err(Inexact) <==> Total(weights) > 0 && total % quantum != 0
  {
    SameRemainder(total, quantum);
    InexactByMagnitude(total, weights, quantum, Magnitude(total) % quantum);
  }

  lemma InexactByMagnitude(total: int, weights: map<Key, int>, quantum: int, rest: int)
    requires quantum > 0 && rest == Magnitude(total) % quantum
    ensures Apportioned(total, weights, quantum) == Err(Inexact) <==> Total(weights) > 0 && rest != 0
  {
    if Total(weights) > 0 {
      KeysSound(weights);
      if total == 0 {
        assert rest == 0;
      }
    }
  }

  lemma SameRemainder(total: int, quantum: int)
    requires quantum > 0
    ensures total % quantum == 0 <==> Magnitude(total) % quantum == 0
  {
    if total < 0 {
      var q, r := (-total) / quantum, (-total) % quantum;
      assert -total == quantum * q + r;
      NegatedProduct(quantum, q);
      if r == 0 {
        ZeroRemainder(quantum, -q, total);
      } else {
        var s := total / quantum;
        if total % quantum == 0 {
          NegatedProduct(quantum, s);
          assert total == quantum * s && -total == quantum * (-s);
          ZeroRemainder(quantum, -s, -total);
        }
      }
    }
  }

  lemma ZeroRemainder(b: int, q: int, a: int)
    requires b > 0 && a == b * q
    ensures a % b == 0
  {
    var r := a % b;
    assert a == b * (a / b) + r;
    Distribute(b, q, a / b);
    if q > a / b {
      Grows(b, 1, q - a / b);
    } else {
      Grows(b, q - a / b, 0);
    }
  }

  /** With no weight to follow, or nothing to split, every key gets zero. */
  lemma NothingToSplit(total: int, weights: map<Key, int>, quantum: int)
    requires quantum > 0 && (Total(weights) <= 0 || total == 0)
    ensures var r := Apportioned(total, weights, quantum);
      r.Ok? && r.value.Keys == weights.Keys && forall k :: k in weights ==> r.value[k] == 0
  {
  }

  // ---- The procedure

  /** Hand one quantum to each of the first `steps` keys of the order, in place. */
  method TopUp(floors: map<Key, int>, order: seq<Key>, steps: int) returns (shares: map<Key, int>)
    requires NoDup(order) && forall k :: k in order ==> k in floors
    ensures shares.Keys == floors.Keys
    ensures forall k :: k in floors ==> shares[k] == floors[k] + if k in Prefix(order, steps) then 1 else 0
  {
    shares := floors;
    var chosen := Prefix(order, steps);
    for i := 0 to |chosen|
      invariant shares.Keys == floors.Keys
      invariant forall k :: k in floors ==> shares[k] == floors[k] + if k in chosen[..i] then 1 else 0
    {
      var key := chosen[i];
      assert chosen[i] == order[i];
      assert key !in chosen[..i];
      assert forall k :: k in chosen[..i + 1] <==> k in chosen[..i] || k == key;
      shares := shares[key := shares[key] + 1];
    }
    assert chosen[..|chosen|] == chosen;
  }

  /** Whole parts first, then one quantum each down the remainder order until the shortfall is met. */
  method Distributed(n: nat, keys: set<Key>, whole: Key -> int, rem: Key -> int) returns (shares: map<Key, int>)
    ensures shares.Keys == keys
    ensures forall k :: k in keys ==>
      shares[k] == whole(k) + if k in Prefix(Order(rem, keys), n - Sum(SortedText(keys), whole)) then 1 else 0
  {
    var floors := map k | k in keys :: whole(k);
    FloorsTotal(floors, keys, whole);
    var shortfall := n - Total(floors);
    var order := Order(rem, keys);
    OrderSound(rem, keys);
    shares := TopUp(floors, order, shortfall);
  }

  lemma FloorsTotal(floors: map<Key, int>, keys: set<Key>, whole: Key -> int)
    requires floors.Keys == keys && forall k :: k in floors ==> floors[k] == whole(k)
    ensures Total(floors) == Sum(SortedText(keys), whole)
  {
    KeysSound(floors);
    SumEq(Keys(floors), At(floors), whole);
  }

  method SplitQuanta(n: nat, weights: map<Key, int>, basis: int) returns (shares: map<Key, int>)
    requires basis > 0
    ensures shares.Keys == weights.Keys
    ensures forall k :: k in weights ==> shares[k] == Share(n, weights, basis)(k)
  {
    shares := Distributed(n, weights.Keys, Whole(n, weights, basis), Remainder(n, weights, basis));
  }

  method Apportion(total: int, weights: map<Key, int>, quantum: int) returns (r: Result<map<Key, int>, ApportionError>)
    requires quantum > 0
    ensures r == Apportioned(total, weights, quantum)
  {
    if weights == map[] {
      return Ok(map[]);
    }
    var basis := Total(weights);
    if basis <= 0 {
      return Ok(map k | k in weights :: 0);
    }
    if total == 0 {
      return Ok(map k | k in weights :: 0);
    }
    var magnitude := Magnitude(total);
    if magnitude % quantum != 0 {
      return Err(Inexact);
    }
    var sign, n := if total < 0 then -1 else 1, magnitude / quantum;
    var shares := SplitQuanta(n, weights, basis);
    var result := map k | k in weights :: sign * quantum * shares[k];
    assert result == Scale(weights, sign * quantum, Share(n, weights, basis));
    if Total(result) != total {
      return Err(LostMoney);
    }
    r := Ok(result);
  }

  lemma RefusedWhenShort(total: int, weights: map<Key, int>, quantum: int)
    requires quantum > 0 && Magnitude(total) % quantum == 0 && Total(weights) > 0 && total != 0
    requires Steps(Magnitude(total) / quantum, weights, Total(weights)) < 0
    ensures Apportioned(total, weights, quantum) == Err(LostMoney)
  {
    ResultTotal(total, weights, quantum);
  }

  lemma SumOfThree(ks: seq<Key>, a: Key, b: Key, c: Key, f: Key -> int)
    requires NoDup(ks) && a != b && b != c && a != c
    requires forall k :: k in ks <==> k == a || k == b || k == c
    ensures Sum(ks, f) == f(a) + f(b) + f(c)
  {
    var abc := [a] + ([b] + ([c] + []));
    assert abc == [a, b, c];
    SameMembersPermuted(ks, abc);
    SumPermuted(ks, abc, f);
    SumCons(c, [], f);
    SumCons(b, [c] + [], f);
    SumCons(a, [b] + ([c] + []), f);
  }

  /** Negative weights are outside the promise: with weights -1, -1 and 4 one quantum is refused by the final check. */
  lemma NegativeWeightsRefused(a: Key, b: Key, c: Key)
    requires a != b && b != c && a != c
    ensures Apportioned(1, map[a := -1, b := -1, c := 4], 1) == Err(LostMoney)
  {
    var weights := map[a := -1, b := -1, c := 4];
    KeysSound(weights);
    var w, whole := At(weights), Whole(1, weights, 2);
    assert w(a) == -1 && w(b) == -1 && w(c) == 4;
    assert whole(a) == Truncated(-1, 2) == 0 && whole(b) == Truncated(-1, 2) && whole(c) == Truncated(4, 2) == 2;
    SumOfThree(Keys(weights), a, b, c, w);
    SumOfThree(Keys(weights), a, b, c, whole);
    RefusedWhenShort(1, weights, 1);
  }
}
