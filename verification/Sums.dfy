/** Sums of an integer measure over a sequence, and the laws the money modules rest on. */
module Sums {
  import opened Prelude

  function Sum<T>(xs: seq<T>, f: T -> int): int {
    if xs == [] then 0 else f(xs[0]) + Sum(xs[1..], f)
  }

  lemma {:induction false} SumConcat<T>(xs: seq<T>, ys: seq<T>, f: T -> int)
    ensures Sum(xs + ys, f) == Sum(xs, f) + Sum(ys, f)
  {
    if xs == [] {
      assert xs + ys == ys;
    } else {
      assert (xs + ys)[1..] == xs[1..] + ys;
      SumConcat(xs[1..], ys, f);
    }
  }

  lemma SumCons<T>(x: T, xs: seq<T>, f: T -> int)
    ensures Sum([x] + xs, f) == f(x) + Sum(xs, f)
  {
    assert ([x] + xs)[1..] == xs;
  }

  lemma SumSnoc<T>(xs: seq<T>, x: T, f: T -> int)
    ensures Sum(xs + [x], f) == Sum(xs, f) + f(x)
  {
    SumConcat(xs, [x], f);
    assert Sum([x], f) == f(x) + Sum([x][1..], f);
  }

  /** A sum does not depend on the order of its terms. */
  lemma {:induction false} SumPermuted<T>(xs: seq<T>, ys: seq<T>, f: T -> int)
    requires multiset(xs) == multiset(ys)
    ensures Sum(xs, f) == Sum(ys, f)
  {
    if xs == [] {
      assert |multiset(ys)| == 0;
    } else {
      var x := xs[0];
      assert x in multiset(xs) && x in ys;
      var j :| 0 <= j < |ys| && ys[j] == x;
      var rest := ys[..j] + ys[j + 1..];
      TakenOut(ys, j);
      assert xs == [x] + xs[1..];
      assert multiset(xs[1..]) == multiset(xs) - multiset{x} == multiset(ys) - multiset{x} == multiset(rest);
      SumPermuted(xs[1..], rest, f);
      SumTakenOut(ys, j, f);
    }
  }

  lemma TakenOut<T>(ys: seq<T>, j: nat)
    requires j < |ys|
    ensures multiset(ys) == multiset{ys[j]} + multiset(ys[..j] + ys[j + 1..])
  {
    assert ys == ys[..j] + [ys[j]] + ys[j + 1..];
  }

  lemma SumTakenOut<T>(ys: seq<T>, j: nat, f: T -> int)
    requires j < |ys|
    ensures Sum(ys, f) == f(ys[j]) + Sum(ys[..j] + ys[j + 1..], f)
  {
    assert ys == ys[..j] + [ys[j]] + ys[j + 1..];
    SumAround(ys[..j], ys[j], ys[j + 1..], f);
  }

  lemma SumAround<T>(front: seq<T>, x: T, back: seq<T>, f: T -> int)
    ensures Sum(front + [x] + back, f) == f(x) + Sum(front + back, f)
  {
    SumConcat(front + [x], back, f);
    SumConcat(front, back, f);
    SumSnoc(front, x, f);
  }

  lemma {:induction false} SumLe<T>(xs: seq<T>, f: T -> int, g: T -> int)
    requires forall x :: x in xs ==> f(x) <= g(x)
    ensures Sum(xs, f) <= Sum(xs, g)
  {
    if xs != [] {
      SumLe(xs[1..], f, g);
    }
  }

  lemma {:induction false} SumEq<T>(xs: seq<T>, f: T -> int, g: T -> int)
    requires forall x :: x in xs ==> f(x) == g(x)
    ensures Sum(xs, f) == Sum(xs, g)
  {
    if xs != [] {
      SumEq(xs[1..], f, g);
    }
  }

  lemma {:induction false} SumZero<T>(xs: seq<T>, f: T -> int)
    requires forall x :: x in xs ==> f(x) == 0
    ensures Sum(xs, f) == 0
  {
    if xs != [] {
      SumZero(xs[1..], f);
    }
  }

  /** Pointwise linearity: h = a*f + b*g on the terms gives the same relation between the sums. */
  lemma {:induction false} SumLinear<T>(xs: seq<T>, h: T -> int, a: int, f: T -> int, b: int, g: T -> int)
    requires forall x :: x in xs ==> h(x) == a * f(x) + b * g(x)
    ensures Sum(xs, h) == a * Sum(xs, f) + b * Sum(xs, g)
  {
    if xs == [] {
      assert Sum(xs, h) == 0 && Sum(xs, f) == 0 && Sum(xs, g) == 0;
    } else {
      SumLinear(xs[1..], h, a, f, b, g);
      var x := xs[0];
      var F, G := Sum(xs[1..], f), Sum(xs[1..], g);
      assert h(x) == a * f(x) + b * g(x);
      assert a * (f(x) + F) == a * f(x) + a * F;
      assert b * (g(x) + G) == b * g(x) + b * G;
    }
  }

  /** Equal terms, pair by pair, give equal sums. */
  lemma {:induction false} SumPaired<T, U>(xs: seq<T>, ys: seq<U>, f: T -> int, g: U -> int)
    requires |xs| == |ys| && forall i :: 0 <= i < |xs| ==> f(xs[i]) == g(ys[i])
    ensures Sum(xs, f) == Sum(ys, g)
  {
    if xs != [] {
      SumPaired(xs[1..], ys[1..], f, g);
    }
  }

  lemma SumScaled<T>(xs: seq<T>, h: T -> int, a: int, f: T -> int)
    requires forall x :: x in xs ==> h(x) == a * f(x)
    ensures Sum(xs, h) == a * Sum(xs, f)
  {
    SumLinear(xs, h, a, f, 0, f);
  }

  function Filter<T>(xs: seq<T>, p: T -> bool): seq<T> {
    if xs == [] then [] else (if p(xs[0]) then [xs[0]] else []) + Filter(xs[1..], p)
  }

  lemma {:induction false} FilterMembers<T>(xs: seq<T>, p: T -> bool, x: T)
    ensures x in Filter(xs, p) <==> x in xs && p(x)
  {
    if xs != [] {
      FilterMembers(xs[1..], p, x);
    }
  }

  lemma {:induction false} FilterNone<T>(xs: seq<T>, p: T -> bool)
    requires forall x :: x in xs ==> !p(x)
    ensures Filter(xs, p) == []
  {
    if xs != [] {
      FilterNone(xs[1..], p);
    }
  }

  /** Filtering and then summing is summing with the other terms zeroed. */
  lemma {:induction false} SumFilter<T>(xs: seq<T>, p: T -> bool, f: T -> int, g: T -> int)
    requires forall x :: x in xs ==> g(x) == if p(x) then f(x) else 0
    ensures Sum(Filter(xs, p), f) == Sum(xs, g)
  {
    if xs != [] {
      SumFilter(xs[1..], p, f, g);
      SumConcat(if p(xs[0]) then [xs[0]] else [], Filter(xs[1..], p), f);
    }
  }

  lemma {:induction false} FilterConcat<T>(xs: seq<T>, ys: seq<T>, p: T -> bool)
    ensures Filter(xs + ys, p) == Filter(xs, p) + Filter(ys, p)
  {
    if xs == [] {
      assert xs + ys == ys;
    } else {
      var head, all := if p(xs[0]) then [xs[0]] else [], xs + ys;
      assert all[0] == xs[0] && all[1..] == xs[1..] + ys;
      FilterConcat(xs[1..], ys, p);
      assert Filter(all, p) == head + Filter(all[1..], p);
      assert head + (Filter(xs[1..], p) + Filter(ys, p)) == (head + Filter(xs[1..], p)) + Filter(ys, p);
    }
  }

  lemma FilterSnoc<T>(xs: seq<T>, x: T, p: T -> bool)
    ensures Filter(xs + [x], p) == Filter(xs, p) + if p(x) then [x] else []
  {
    FilterConcat(xs, [x], p);
    assert Filter([x], p) == (if p(x) then [x] else []) + Filter([x][1..], p);
  }

  /** Filtering keeps or drops every occurrence of a value. */
  lemma {:induction false} FilterMultiset<T>(xs: seq<T>, p: T -> bool, x: T)
    ensures multiset(Filter(xs, p))[x] == if p(x) then multiset(xs)[x] else 0
  {
    if xs != [] {
      FilterMultiset(xs[1..], p, x);
      assert xs == [xs[0]] + xs[1..];
    }
  }

  lemma FilterPermuted<T(!new)>(xs: seq<T>, ys: seq<T>, p: T -> bool)
    requires multiset(xs) == multiset(ys)
    ensures multiset(Filter(xs, p)) == multiset(Filter(ys, p))
  {
    forall x ensures multiset(Filter(xs, p))[x] == multiset(Filter(ys, p))[x] {
      FilterMultiset(xs, p, x);
      FilterMultiset(ys, p, x);
    }
  }

  lemma PermutedMembers<T>(xs: seq<T>, ys: seq<T>, x: T)
    requires multiset(xs) == multiset(ys)
    ensures x in xs <==> x in ys
  {
    assert x in xs <==> x in multiset(xs);
    assert x in ys <==> x in multiset(ys);
  }

  lemma {:induction false} NoDupCount<T>(xs: seq<T>, x: T)
    requires NoDup(xs)
    ensures multiset(xs)[x] == if x in xs then 1 else 0
  {
    if xs != [] {
      NoDupCount(xs[1..], x);
      assert xs == [xs[0]] + xs[1..];
    }
  }

  /** Two listings of the same members, each once, are permutations of each other. */
  lemma SameMembersPermuted<T(!new)>(xs: seq<T>, ys: seq<T>)
    requires NoDup(xs) && NoDup(ys) && forall x :: x in xs <==> x in ys
    ensures multiset(xs) == multiset(ys)
  {
    forall x ensures multiset(xs)[x] == multiset(ys)[x] {
      NoDupCount(xs, x);
      NoDupCount(ys, x);
    }
  }

  lemma {:induction false} FilterNoDup<T>(xs: seq<T>, p: T -> bool)
    requires NoDup(xs)
    ensures NoDup(Filter(xs, p))
  {
    if xs != [] {
      FilterNoDup(xs[1..], p);
      var rest := Filter(xs[1..], p);
      if p(xs[0]) {
        FilterMembers(xs[1..], p, xs[0]);
        assert xs[0] !in rest;
      }
    }
  }

  function Within<T(==)>(ys: seq<T>): T -> bool { x => x in ys }

  /** Listing extra items on which the measure is zero does not change a sum. */
  lemma SumSuperset<T(!new)>(xs: seq<T>, ys: seq<T>, f: T -> int)
    requires NoDup(xs) && NoDup(ys) && forall y :: y in ys ==> y in xs
    requires forall x :: x in xs && x !in ys ==> f(x) == 0
    ensures Sum(xs, f) == Sum(ys, f)
  {
    var kept := Filter(xs, Within(ys));
    FilterNoDup(xs, Within(ys));
    forall x ensures x in kept <==> x in ys { FilterMembers(xs, Within(ys), x); }
    SameMembersPermuted(kept, ys);
    SumPermuted(kept, ys, f);
    SumFilter(xs, Within(ys), f, f);
  }

  lemma {:induction false} SumConstant<T>(xs: seq<T>, f: T -> int, c: int)
    requires forall x :: x in xs ==> f(x) == c
    ensures Sum(xs, f) == c * |xs|
  {
    if xs != [] {
      SumConstant(xs[1..], f, c);
      assert c * |xs| == c + c * |xs[1..]|;
    }
  }

  // ---- Concatenating one piece per item

  function FlatMap<T, U>(xs: seq<T>, f: T -> seq<U>): seq<U> {
    if xs == [] then [] else f(xs[0]) + FlatMap(xs[1..], f)
  }

  /** A measure carried from the pieces to the items they come from. */
  function Through<T, U>(f: T -> seq<U>, m: U -> int): T -> int {
    x => Sum(f(x), m)
  }

  lemma {:induction false} SumFlatMap<T, U>(xs: seq<T>, f: T -> seq<U>, m: U -> int)
    ensures Sum(FlatMap(xs, f), m) == Sum(xs, Through(f, m))
  {
    if xs != [] {
      SumFlatMap(xs[1..], f, m);
      SumConcat(f(xs[0]), FlatMap(xs[1..], f), m);
    }
  }

  lemma {:induction false} FlatMapSnoc<T, U>(xs: seq<T>, x: T, f: T -> seq<U>)
    ensures FlatMap(xs + [x], f) == FlatMap(xs, f) + f(x)
  {
    if xs == [] {
      assert xs + [x] == [x] && FlatMap([x][1..], f) == [];
    } else {
      FlatMapSnoc(xs[1..], x, f);
      assert (xs + [x])[1..] == xs[1..] + [x];
    }
  }

  lemma {:induction false} FlatMapEq<T, U>(xs: seq<T>, f: T -> seq<U>, g: T -> seq<U>)
    requires forall x :: x in xs ==> f(x) == g(x)
    ensures FlatMap(xs, f) == FlatMap(xs, g)
  {
    if xs != [] {
      FlatMapEq(xs[1..], f, g);
    }
  }

  lemma {:induction false} FlatMapOrigin<T, U>(xs: seq<T>, f: T -> seq<U>, y: U) returns (x: T)
    requires y in FlatMap(xs, f)
    ensures x in xs && y in f(x)
  {
    if y in f(xs[0]) {
      x := xs[0];
    } else {
      x := FlatMapOrigin(xs[1..], f, y);
    }
  }

  /** Every two items, in order, are related. */
  ghost predicate Pairwise<U>(ys: seq<U>, lt: (U, U) -> bool) {
    forall i, j :: 0 <= i < j < |ys| ==> lt(ys[i], ys[j])
  }

  lemma PairwiseConcat<U>(xs: seq<U>, ys: seq<U>, lt: (U, U) -> bool)
    requires Pairwise(xs, lt) && Pairwise(ys, lt) && forall x, y :: x in xs && y in ys ==> lt(x, y)
    ensures Pairwise(xs + ys, lt)
  {
    var all := xs + ys;
    forall i, j | 0 <= i < j < |all| ensures lt(all[i], all[j]) {
      assert i < |xs| ==> all[i] in xs;
      assert j >= |xs| ==> all[j] in ys;
    }
  }

  /** Pieces in order, from items in order, concatenate in order. */
  lemma {:induction false} PairwisePieces<T, U>(xs: seq<T>, f: T -> seq<U>, lt: (U, U) -> bool)
    requires forall x :: x in xs ==> Pairwise(f(x), lt)
    requires forall i, j :: 0 <= i < j < |xs| ==> forall y, z :: y in f(xs[i]) && z in f(xs[j]) ==> lt(y, z)
    ensures Pairwise(FlatMap(xs, f), lt)
  {
    if xs != [] {
      var rest := xs[1..];
      PairwisePieces(rest, f, lt);
      forall y, z | y in f(xs[0]) && z in FlatMap(rest, f) ensures lt(y, z) {
        var x := FlatMapOrigin(rest, f, z);
        var j :| 1 <= j < |xs| && xs[j] == x;
      }
      PairwiseConcat(f(xs[0]), FlatMap(rest, f), lt);
    }
  }

  // ---- Grouping: per-key nets add up to the whole

  /** The measure `amount`, kept only on the items whose key is `k`. */
  function Only<T, K(==)>(keyOf: T -> K, amount: T -> int, k: K): T -> int {
    x => if keyOf(x) == k then amount(x) else 0
  }

  function GroupNet<T, K(==)>(xs: seq<T>, keyOf: T -> K, amount: T -> int): K -> int {
    k => Sum(xs, Only(keyOf, amount, k))
  }

  function Indicator<K(==)>(k: K, v: int): K -> int {
    x => if x == k then v else 0
  }

  lemma {:induction false} SumIndicator<K>(ks: seq<K>, k: K, v: int)
    requires NoDup(ks)
    ensures Sum(ks, Indicator(k, v)) == if k in ks then v else 0
  {
    if ks != [] {
      SumIndicator(ks[1..], k, v);
    }
  }

  lemma {:induction false} GroupNetsAddUp<T, K>(xs: seq<T>, ks: seq<K>, keyOf: T -> K, amount: T -> int)
    requires NoDup(ks)
    requires forall x :: x in xs ==> keyOf(x) in ks
    ensures Sum(ks, GroupNet(xs, keyOf, amount)) == Sum(xs, amount)
  {
    if xs == [] {
      SumZero(ks, GroupNet(xs, keyOf, amount));
    } else {
      var x, rest := xs[0], xs[1..];
      GroupNetsAddUp(rest, ks, keyOf, amount);
      SumIndicator(ks, keyOf(x), amount(x));
      SumLinear(ks, GroupNet(xs, keyOf, amount),
                1, Indicator(keyOf(x), amount(x)), 1, GroupNet(rest, keyOf, amount));
    }
  }
}
