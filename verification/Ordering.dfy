/** Code-point order on text and the sorted listing of a finite set. */
module Ordering {
  import opened Prelude

  /** Lexicographic order by code point, the order in which text sorts. */
  predicate LexLe(a: string, b: string) {
    a == "" || (b != "" && (a[0] < b[0] || (a[0] == b[0] && LexLe(a[1..], b[1..]))))
  }

  /** The order read off the text: a prefix comes first, otherwise the first differing character decides. */
  lemma {:induction false} LexLeExact(a: string, b: string)
    ensures LexLe(a, b) <==> a <= b || exists i :: FirstDiffers(a, b, i)
  {
    if a != "" && b != "" && a[0] == b[0] {
      LexLeExact(a[1..], b[1..]);
      assert a == [a[0]] + a[1..] && b == [b[0]] + b[1..];
      if i :| FirstDiffers(a[1..], b[1..], i) {
        assert a[..i + 1] == [a[0]] + a[1..][..i] && b[..i + 1] == [b[0]] + b[1..][..i];
        assert FirstDiffers(a, b, i + 1);
      }
      if i :| FirstDiffers(a, b, i) {
        assert i > 0 && a[1..][..i - 1] == a[..i][1..] && b[1..][..i - 1] == b[..i][1..];
        assert FirstDiffers(a[1..], b[1..], i - 1);
      }
    } else if a != "" && b != "" {
      assert a[..0] == b[..0];
      assert FirstDiffers(a, b, 0) <==> a[0] < b[0];
      forall i ensures FirstDiffers(a, b, i) ==> i == 0 {
        assert 0 < i <= |a| && i <= |b| ==> a[..i][0] == a[0] && b[..i][0] == b[0];
      }
    }
  }

  /** Equal up to `i`, where `a` has the smaller character. */
  ghost predicate FirstDiffers(a: string, b: string, i: int) {
    0 <= i < |a| && i < |b| && a[..i] == b[..i] && a[i] < b[i]
  }

  lemma {:induction false} LexTotal(a: string, b: string)
    ensures LexLe(a, b) || LexLe(b, a)
  {
    if a != "" && b != "" && a[0] == b[0] {
      LexTotal(a[1..], b[1..]);
    }
  }

  lemma {:induction false} LexAntisymmetric(a: string, b: string)
    requires LexLe(a, b) && LexLe(b, a)
    ensures a == b
  {
    if a != "" && b != "" {
      LexAntisymmetric(a[1..], b[1..]);
      assert a == [a[0]] + a[1..] && b == [b[0]] + b[1..];
    }
  }

  lemma {:induction false} LexTransitive(a: string, b: string, c: string)
    requires LexLe(a, b) && LexLe(b, c)
    ensures LexLe(a, c)
  {
    if a != "" && a[0] == b[0] == c[0] {
      LexTransitive(a[1..], b[1..], c[1..]);
    }
  }

  /** `leq` orders the members of `s` totally. */
  ghost predicate TotalOn<T>(s: set<T>, leq: (T, T) -> bool) {
    && (forall x, y :: x in s && y in s ==> leq(x, y) || leq(y, x))
    && (forall x, y :: x in s && y in s && leq(x, y) && leq(y, x) ==> x == y)
    && (forall x, y, z :: x in s && y in s && z in s && leq(x, y) && leq(y, z) ==> leq(x, z))
  }

  lemma {:induction false} LeastExists<T>(s: set<T>, leq: (T, T) -> bool)
    requires s != {} && TotalOn(s, leq)
    ensures exists m :: m in s && forall y :: y in s ==> leq(m, y)
    decreases |s|
  {
    var x :| x in s;
    var rest := s - {x};
    if rest == {} {
      assert s == {x};
    } else {
      LeastExists(rest, leq);
      var m :| m in rest && forall y :: y in rest ==> leq(m, y);
      var least := if leq(x, m) then x else m;
      assert forall y :: y in s ==> y == x || y in rest;
      assert forall y :: y in s ==> leq(least, y);
    }
  }

  function Least<T(==)>(s: set<T>, leq: (T, T) -> bool): (m: T)
    requires s != {} && TotalOn(s, leq)
    ensures m in s && forall y :: y in s ==> leq(m, y)
  {
    LeastExists(s, leq);
    var m :| m in s && forall y :: y in s ==> leq(m, y);
    m
  }

  /** The members of `s`, each once, in ascending order. */
  function SortedSet<T(==)>(s: set<T>, leq: (T, T) -> bool): seq<T>
    requires TotalOn(s, leq)
    decreases |s|
  {
    if s == {} then [] else [Least(s, leq)] + SortedSet(s - {Least(s, leq)}, leq)
  }

  lemma {:induction false} SortedSetMembers<T(!new)>(s: set<T>, leq: (T, T) -> bool)
    requires TotalOn(s, leq)
    ensures forall x :: x in SortedSet(s, leq) <==> x in s
    ensures |SortedSet(s, leq)| == |s|
    decreases |s|
  {
    if s != {} {
      var m := Least(s, leq);
      SortedSetMembers(s - {m}, leq);
      var rest := SortedSet(s - {m}, leq);
      assert forall x :: x in [m] + rest <==> x == m || x in rest;
    }
  }

  /** Each element once, in order. */
  ghost predicate Ascending<T>(r: seq<T>, leq: (T, T) -> bool) {
    NoDup(r) && forall i, j :: 0 <= i < j < |r| ==> leq(r[i], r[j])
  }

  lemma ConsAscending<T(!new)>(m: T, rest: seq<T>, leq: (T, T) -> bool)
    requires Ascending(rest, leq) && forall x :: x in rest ==> x != m && leq(m, x)
    ensures Ascending([m] + rest, leq)
  {
    var r := [m] + rest;
    forall i, j | 0 <= i < j < |r| ensures r[i] != r[j] && leq(r[i], r[j]) {
      assert r[j] == rest[j - 1] && rest[j - 1] in rest;
      if i > 0 {
        assert r[i] == rest[i - 1];
      }
    }
  }

  lemma {:induction false} SortedSetSound<T(!new)>(s: set<T>, leq: (T, T) -> bool)
    requires TotalOn(s, leq)
    ensures forall x :: x in SortedSet(s, leq) <==> x in s
    ensures |SortedSet(s, leq)| == |s| && Ascending(SortedSet(s, leq), leq)
    decreases |s|
  {
    SortedSetMembers(s, leq);
    if s != {} {
      var m := Least(s, leq);
      var rest := SortedSet(s - {m}, leq);
      SortedSetSound(s - {m}, leq);
      forall x | x in rest ensures x != m && leq(m, x) {
        assert x in s - {m};
      }
      ConsAscending(m, rest, leq);
    }
  }

  /** A set has only one ascending listing. */
  lemma {:induction false} AscendingUnique<T(!new)>(xs: seq<T>, ys: seq<T>, s: set<T>, leq: (T, T) -> bool)
    requires TotalOn(s, leq) && Ascending(xs, leq) && Ascending(ys, leq)
    requires forall x :: x in xs <==> x in s
    requires forall x :: x in ys <==> x in s
    ensures xs == ys
    decreases |xs|
  {
    if xs == [] {
      if ys != [] {
        HeadIn(ys);
        assert false;
      }
    } else {
      assert xs[0] in s && ys != [] by { assert xs[0] in xs; }
      assert ys[0] in s by { assert ys[0] in ys; }
      HeadLeast(xs, ys[0], leq);
      HeadLeast(ys, xs[0], leq);
      var m, rest := xs[0], s - {xs[0]};
      TailMembers(xs, s, leq);
      TailMembers(ys, s, leq);
      AscendingUnique(xs[1..], ys[1..], rest, leq);
      assert xs == [m] + xs[1..] && ys == [m] + ys[1..];
    }
  }

  lemma HeadIn<T>(xs: seq<T>)
    requires xs != []
    ensures xs[0] in xs
  {
  }

  lemma HeadLeast<T>(xs: seq<T>, x: T, leq: (T, T) -> bool)
    requires Ascending(xs, leq) && x in xs
    ensures x == xs[0] || leq(xs[0], x)
  {
    var i :| 0 <= i < |xs| && xs[i] == x;
  }

  lemma TailMembers<T(!new)>(xs: seq<T>, s: set<T>, leq: (T, T) -> bool)
    requires xs != [] && Ascending(xs, leq) && forall x :: x in xs <==> x in s
    ensures Ascending(xs[1..], leq) && forall x :: x in xs[1..] <==> x in s - {xs[0]}
  {
    forall x ensures x in xs[1..] <==> x in s - {xs[0]} {
      assert x in xs <==> x == xs[0] || x in xs[1..];
      if x in xs[1..] {
        var i :| 1 <= i < |xs| && xs[i] == x;
      }
    }
  }

  predicate IntLe(a: int, b: int) { a <= b }

  function SortedInts(s: set<int>): seq<int> {
    assert TotalOn(s, IntLe);
    SortedSet(s, IntLe)
  }

  lemma SortedIntsSound(s: set<int>)
    ensures forall x :: x in SortedInts(s) <==> x in s
    ensures |SortedInts(s)| == |s| && Ascending(SortedInts(s), IntLe)
  {
    assert TotalOn(s, IntLe);
    SortedSetSound(s, IntLe);
  }

  lemma TextTotal(s: set<string>)
    ensures TotalOn(s, LexLe)
  {
    forall x, y ensures LexLe(x, y) || LexLe(y, x) { LexTotal(x, y); }
    forall x, y | LexLe(x, y) && LexLe(y, x) ensures x == y { LexAntisymmetric(x, y); }
    forall x, y, z | LexLe(x, y) && LexLe(y, z) ensures LexLe(x, z) { LexTransitive(x, y, z); }
  }

  function SortedText(s: set<string>): seq<string> {
    TextTotal(s);
    SortedSet(s, LexLe)
  }

  lemma SortedTextSound(s: set<string>)
    ensures forall x :: x in SortedText(s) <==> x in s
    ensures |SortedText(s)| == |s| && Ascending(SortedText(s), LexLe)
  {
    TextTotal(s);
    SortedSetSound(s, LexLe);
  }
}
