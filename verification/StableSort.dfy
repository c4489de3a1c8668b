/**
 * A stable sort under a comparison that may take different elements as equal, as `localeCompare` does: what it keeps, and
 * when it forgets the order it started from.
 */
module StableSort {
  import opened Strings

  /** A total comparison; ties are allowed. */
  ghost predicate IsPreorder<T(!new)>(leq: (T, T) -> bool) {
    && (forall a, b :: leq(a, b) || leq(b, a))
    && (forall a, b, c :: leq(a, b) && leq(b, c) ==> leq(a, c))
  }

  function InsertBehind<T>(xs: seq<T>, x: T, leq: (T, T) -> bool): seq<T> {
    if xs == [] || leq(xs[|xs| - 1], x) then xs + [x] else InsertBehind(xs[..|xs| - 1], x, leq) + [xs[|xs| - 1]]
  }

  function SortBy<T>(xs: seq<T>, leq: (T, T) -> bool): seq<T> {
    if xs == [] then [] else InsertBehind(SortBy(xs[..|xs| - 1], leq), xs[|xs| - 1], leq)
  }

  ghost predicate Sorted<T>(xs: seq<T>, leq: (T, T) -> bool) {
    forall i, j | 0 <= i < j < |xs| :: leq(xs[i], xs[j])
  }

  predicate Tied<T>(a: T, b: T, leq: (T, T) -> bool) { leq(a, b) && leq(b, a) }

  /** No two elements are taken as equal. */
  ghost predicate NoTies<T>(xs: seq<T>, leq: (T, T) -> bool) {
    forall i, j | 0 <= i < j < |xs| :: !Tied(xs[i], xs[j], leq)
  }

  lemma SortsOneMore<T>(xs: seq<T>, x: T, leq: (T, T) -> bool)
    ensures SortBy(xs + [x], leq) == InsertBehind(SortBy(xs, leq), x, leq)
  {
    assert (xs + [x])[..|xs + [x]| - 1] == xs;
  }

  /** Two elements in order, or tied, stay as they are. */
  lemma PairStays<T>(x: T, y: T, leq: (T, T) -> bool)
    requires leq(x, y)
    ensures SortBy([x, y], leq) == [x, y]
  {
    assert [] + [x] == [x] && [x] + [y] == [x, y];
    SortsOneMore([], x, leq);
    SortsOneMore([x], y, leq);
  }

  lemma {:induction false} InsertBehindMultiset<T>(xs: seq<T>, x: T, leq: (T, T) -> bool)
    ensures multiset(InsertBehind(xs, x, leq)) == multiset(xs) + multiset{x}
  {
    if xs != [] && !leq(xs[|xs| - 1], x) {
      InsertBehindMultiset(xs[..|xs| - 1], x, leq);
      assert xs == xs[..|xs| - 1] + [xs[|xs| - 1]];
    }
  }

  lemma SortedSnoc<T>(xs: seq<T>, x: T, leq: (T, T) -> bool)
    requires Sorted(xs, leq) && forall i | 0 <= i < |xs| :: leq(xs[i], x)
    ensures Sorted(xs + [x], leq)
  {
  }

  lemma UpToLast<T(!new)>(xs: seq<T>, x: T, leq: (T, T) -> bool)
    requires IsPreorder(leq) && Sorted(xs, leq) && xs != [] && leq(xs[|xs| - 1], x)
    ensures forall i | 0 <= i < |xs| :: leq(xs[i], x)
  {
    forall i | 0 <= i < |xs| ensures leq(xs[i], x) {
      if i < |xs| - 1 { assert leq(xs[i], xs[|xs| - 1]); }
    }
  }

  lemma {:induction false} InsertBehindSorted<T(!new)>(xs: seq<T>, x: T, leq: (T, T) -> bool)
    requires IsPreorder(leq) && Sorted(xs, leq)
    ensures Sorted(InsertBehind(xs, x, leq), leq)
  {
    if xs == [] {
    } else if leq(xs[|xs| - 1], x) {
      UpToLast(xs, x, leq);
      SortedSnoc(xs, x, leq);
    } else {
      var front, last := xs[..|xs| - 1], xs[|xs| - 1];
      InsertBehindSorted(front, x, leq);
      InsertBehindMultiset(front, x, leq);
      var r := InsertBehind(front, x, leq);
      forall i | 0 <= i < |r| ensures leq(r[i], last) {
        assert r[i] in multiset(r);
        if r[i] != x { assert r[i] in front; }
      }
      SortedSnoc(r, last, leq);
    }
  }

  lemma FrontMultiset<T>(xs: seq<T>)
    requires xs != []
    ensures multiset(xs[..|xs| - 1]) == multiset(xs) - multiset{xs[|xs| - 1]}
  {
    assert xs == xs[..|xs| - 1] + [xs[|xs| - 1]];
  }

  lemma {:induction false} SortMultiset<T>(xs: seq<T>, leq: (T, T) -> bool)
    ensures multiset(SortBy(xs, leq)) == multiset(xs)
  {
    if xs != [] {
      SortMultiset(xs[..|xs| - 1], leq);
      InsertBehindMultiset(SortBy(xs[..|xs| - 1], leq), xs[|xs| - 1], leq);
      FrontMultiset(xs);
      assert xs[|xs| - 1] in multiset(xs);
    }
  }

  lemma {:induction false} SortMeaning<T(!new)>(xs: seq<T>, leq: (T, T) -> bool)
    requires IsPreorder(leq)
    ensures Sorted(SortBy(xs, leq), leq) && multiset(SortBy(xs, leq)) == multiset(xs)
  {
    SortMultiset(xs, leq);
    if xs != [] {
      SortMeaning(xs[..|xs| - 1], leq);
      InsertBehindSorted(SortBy(xs[..|xs| - 1], leq), xs[|xs| - 1], leq);
    }
  }

  ghost predicate Before<T>(xs: seq<T>, a: T, b: T) {
    exists i, j :: 0 <= i < j < |xs| && xs[i] == a && xs[j] == b
  }

  lemma {:induction false} InsertBehindKeepsOrder<T>(xs: seq<T>, x: T, leq: (T, T) -> bool, a: T, b: T)
    requires Before(xs, a, b)
    ensures Before(InsertBehind(xs, x, leq), a, b)
  {
    var i, j :| 0 <= i < j < |xs| && xs[i] == a && xs[j] == b;
    var r := InsertBehind(xs, x, leq);
    if leq(xs[|xs| - 1], x) {
      assert r[i] == a && r[j] == b;
    } else {
      var front := xs[..|xs| - 1];
      var rest := InsertBehind(front, x, leq);
      if j < |front| {
        assert front[i] == a && front[j] == b;
        InsertBehindKeepsOrder(front, x, leq, a, b);
        var k, l :| 0 <= k < l < |rest| && rest[k] == a && rest[l] == b;
        assert r[k] == a && r[l] == b;
      } else {
        InsertBehindKeeps(front, x, leq, i);
        var k :| 0 <= k < |rest| && rest[k] == a;
        assert r[k] == a && r[|rest|] == b;
      }
    }
  }

  lemma {:induction false} InsertBehindKeeps<T>(xs: seq<T>, x: T, leq: (T, T) -> bool, i: nat)
    requires i < |xs|
    ensures xs[i] in InsertBehind(xs, x, leq)
  {
    if !leq(xs[|xs| - 1], x) && i < |xs| - 1 {
      InsertBehindKeeps(xs[..|xs| - 1], x, leq, i);
    }
  }

  lemma {:induction false} InsertBehindGoesBehind<T(!new)>(xs: seq<T>, x: T, leq: (T, T) -> bool, i: nat)
    requires IsPreorder(leq) && Sorted(xs, leq) && i < |xs| && leq(xs[i], x)
    ensures Before(InsertBehind(xs, x, leq), xs[i], x)
  {
    var r := InsertBehind(xs, x, leq);
    if leq(xs[|xs| - 1], x) {
      assert r[i] == xs[i] && r[|xs|] == x;
    } else {
      InsertBehindGoesBehind(xs[..|xs| - 1], x, leq, i);
      var rest := InsertBehind(xs[..|xs| - 1], x, leq);
      var k, l :| 0 <= k < l < |rest| && rest[k] == xs[i] && rest[l] == x;
      assert r[k] == xs[i] && r[l] == x;
    }
  }

  /** Ts that are in order already stay in their order. */
  lemma {:induction false} SortIsStable<T(!new)>(xs: seq<T>, leq: (T, T) -> bool, i: nat, j: nat)
    requires IsPreorder(leq) && i < j < |xs| && leq(xs[i], xs[j])
    ensures Before(SortBy(xs, leq), xs[i], xs[j])
  {
    var front, last := xs[..|xs| - 1], xs[|xs| - 1];
    var sorted := SortBy(front, leq);
    if j < |front| {
      SortIsStable(front, leq, i, j);
      InsertBehindKeepsOrder(sorted, last, leq, xs[i], xs[j]);
    } else {
      SortMeaning(front, leq);
      assert front[i] in multiset(front);
      assert xs[i] in multiset(sorted);
      var k :| 0 <= k < |sorted| && sorted[k] == xs[i];
      InsertBehindGoesBehind(sorted, last, leq, k);
    }
  }

  lemma NoTiesMeaning<T(!new)>(xs: seq<T>, leq: (T, T) -> bool)
    requires IsPreorder(leq)
    ensures NoTies(xs, leq) <==> Distinct(xs) && forall a, b | a in xs && b in xs && a != b :: !Tied(a, b, leq)
  {
    if Distinct(xs) && forall a, b | a in xs && b in xs && a != b :: !Tied(a, b, leq) {
      forall i, j | 0 <= i < j < |xs| ensures !Tied(xs[i], xs[j], leq) { assert xs[i] in xs && xs[j] in xs; }
    }
    if NoTies(xs, leq) {
      forall i, j | 0 <= i < j < |xs| ensures xs[i] != xs[j] { assert !Tied(xs[i], xs[j], leq); }
      forall a, b | a in xs && b in xs && a != b ensures !Tied(a, b, leq) {
        var i, j :| 0 <= i < |xs| && 0 <= j < |xs| && xs[i] == a && xs[j] == b;
        if i < j { assert !Tied(xs[i], xs[j], leq); } else { assert !Tied(xs[j], xs[i], leq); }
      }
    }
  }

  lemma {:induction false} DistinctMultiset<T>(xs: seq<T>)
    ensures Distinct(xs) <==> forall x :: multiset(xs)[x] <= 1
  {
    if xs != [] {
      var front, last := xs[..|xs| - 1], xs[|xs| - 1];
      DistinctMultiset(front);
      assert xs == front + [last];
      assert multiset(xs) == multiset(front) + multiset{last};
      if Distinct(xs) {
        forall x ensures multiset(xs)[x] <= 1 { if x == last { assert last !in front; } }
      }
      if forall x :: multiset(xs)[x] <= 1 {
        forall x ensures multiset(front)[x] <= 1 { assert multiset(xs)[x] <= 1; }
        assert multiset(xs)[last] <= 1;
        assert last !in front;
      }
    }
  }

  /** Whether elements tie does not depend on their order. */
  lemma NoTiesRearranged<T(!new)>(xs: seq<T>, ys: seq<T>, leq: (T, T) -> bool)
    requires IsPreorder(leq) && multiset(xs) == multiset(ys) && NoTies(xs, leq)
    ensures NoTies(ys, leq)
  {
    NoTiesMeaning(xs, leq);
    NoTiesMeaning(ys, leq);
    DistinctMultiset(xs);
    DistinctMultiset(ys);
    forall x ensures x in xs <==> x in ys { assert x in xs <==> x in multiset(xs); }
  }

  lemma SameLast<T>(xs: seq<T>, ys: seq<T>, leq: (T, T) -> bool)
    requires multiset(xs) == multiset(ys) && NoTies(xs, leq) && Sorted(xs, leq) && Sorted(ys, leq) && xs != []
    ensures |xs| == |ys| && xs[|xs| - 1] == ys[|ys| - 1]
  {
    assert |xs| == |multiset(xs)| == |ys|;
    var n := |xs| - 1;
    assert xs[n] in multiset(ys) && ys[n] in multiset(xs);
    var i :| 0 <= i < |ys| && ys[i] == xs[n];
    var j :| 0 <= j < |xs| && xs[j] == ys[n];
    assert i < n ==> leq(ys[i], ys[n]);
  }

  lemma FrontAndLast<T>(xs: seq<T>, ys: seq<T>)
    requires xs != [] && ys != [] && xs[..|xs| - 1] == ys[..|ys| - 1] && xs[|xs| - 1] == ys[|ys| - 1]
    ensures xs == ys
  {
    assert xs == xs[..|xs| - 1] + [xs[|xs| - 1]] && ys == ys[..|ys| - 1] + [ys[|ys| - 1]];
  }

  lemma SortedFront<T>(xs: seq<T>, leq: (T, T) -> bool)
    requires Sorted(xs, leq) && xs != []
    ensures Sorted(xs[..|xs| - 1], leq) && (NoTies(xs, leq) ==> NoTies(xs[..|xs| - 1], leq))
  {
  }

  /** Without ties there is one sorted order. */
  lemma {:induction false} SortedUnique<T>(xs: seq<T>, ys: seq<T>, leq: (T, T) -> bool)
    requires multiset(xs) == multiset(ys) && NoTies(xs, leq) && Sorted(xs, leq) && Sorted(ys, leq)
    ensures xs == ys
    decreases |xs|
  {
    assert |xs| == |multiset(xs)| == |ys|;
    if xs != [] {
      SameLast(xs, ys, leq);
      FrontMultiset(xs);
      FrontMultiset(ys);
      SortedFront(xs, leq);
      SortedFront(ys, leq);
      SortedUnique(xs[..|xs| - 1], ys[..|ys| - 1], leq);
      FrontAndLast(xs, ys);
    }
  }

  lemma SortForgetsOrder<T(!new)>(xs: seq<T>, ys: seq<T>, leq: (T, T) -> bool)
    requires IsPreorder(leq) && multiset(xs) == multiset(ys) && NoTies(xs, leq)
    ensures SortBy(xs, leq) == SortBy(ys, leq)
  {
    SortMeaning(xs, leq);
    SortMeaning(ys, leq);
    NoTiesRearranged(xs, SortBy(xs, leq), leq);
    SortedUnique(SortBy(xs, leq), SortBy(ys, leq), leq);
  }

  function Reversed<T>(xs: seq<T>): (r: seq<T>)
    ensures |r| == |xs| && forall i | 0 <= i < |xs| :: r[i] == xs[|xs| - 1 - i]
  {
    seq(|xs|, i requires 0 <= i < |xs| => xs[|xs| - 1 - i])
  }

  lemma {:induction false} ReversedMultiset<T>(xs: seq<T>)
    ensures multiset(Reversed(xs)) == multiset(xs)
  {
    if xs != [] {
      var front, last := xs[..|xs| - 1], xs[|xs| - 1];
      ReversedMultiset(front);
      assert Reversed(xs) == [last] + Reversed(front);
      assert xs == front + [last];
    } else {
      assert Reversed(xs) == [];
    }
  }

  /** Two tied elements come out in one order from a list and in the other from the list reversed. */
  lemma TiesShowOrder<T(!new)>(xs: seq<T>, leq: (T, T) -> bool) returns (a: T, b: T)
    requires IsPreorder(leq) && !NoTies(xs, leq)
    ensures Before(SortBy(xs, leq), a, b) && Before(SortBy(Reversed(xs), leq), b, a)
    ensures exists i, j :: 0 <= i < j < |xs| && xs[i] == a && xs[j] == b
  {
    var i: nat, j: nat :| i < j < |xs| && Tied(xs[i], xs[j], leq);
    a, b := xs[i], xs[j];
    SortIsStable(xs, leq, i, j);
    SortIsStable(Reversed(xs), leq, |xs| - 1 - j, |xs| - 1 - i);
  }

  lemma RemovedMultiset<T>(xs: seq<T>, i: nat)
    requires i < |xs|
    ensures multiset(xs[..i] + xs[i + 1..]) == multiset(xs) - multiset{xs[i]}
  {
    assert xs == xs[..i] + [xs[i]] + xs[i + 1..];
  }

  lemma SameMembers<T>(xs: seq<T>, ys: seq<T>)
    requires Distinct(xs) && Distinct(ys) && forall x :: x in xs <==> x in ys
    ensures multiset(xs) == multiset(ys)
  {
    DistinctMultiset(xs);
    DistinctMultiset(ys);
    forall x ensures multiset(xs)[x] == multiset(ys)[x] {
      assert x in multiset(xs) <==> x in xs;
      assert x in multiset(ys) <==> x in ys;
    }
  }

  /** Sorting keeps a list without repetition so. */
  lemma SortKeepsDistinct<T>(xs: seq<T>, leq: (T, T) -> bool)
    requires Distinct(xs)
    ensures Distinct(SortBy(xs, leq)) && Elems(SortBy(xs, leq)) == Elems(xs) && |SortBy(xs, leq)| == |xs|
  {
    var sorted := SortBy(xs, leq);
    SortMultiset(xs, leq);
    DistinctMultiset(xs);
    DistinctMultiset(sorted);
    forall x ensures x in sorted <==> x in xs { assert x in multiset(sorted) <==> x in sorted; assert x in multiset(xs) <==> x in xs; }
    assert Elems(sorted) == Elems(xs);
    assert |multiset(sorted)| == |sorted| && |multiset(xs)| == |xs|;
  }

  lemma BeforeOneWay<T>(xs: seq<T>, a: T, b: T)
    requires Distinct(xs) && Before(xs, a, b)
    ensures !Before(xs, b, a)
  {
    var i, j :| 0 <= i < j < |xs| && xs[i] == a && xs[j] == b;
    forall k, l | 0 <= k < l < |xs| ensures !(xs[k] == b && xs[l] == a) {
      if xs[k] == b { OnePlace(xs, k, j); }
      if xs[l] == a { OnePlace(xs, l, i); }
    }
  }

  lemma OnePlace<T>(xs: seq<T>, i: int, j: int)
    requires Distinct(xs) && 0 <= i < |xs| && 0 <= j < |xs| && xs[i] == xs[j]
    ensures i == j
  {
  }
}
