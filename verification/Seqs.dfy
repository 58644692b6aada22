/** Sums, counts, filters and distinctness over sequences, as the other modules use them. */
module Seqs {
  import opened Wrappers

  function Min(a: int, b: int): int { if a < b then a else b }

  function SumOf<T>(f: T -> int, xs: seq<T>): int {
    if xs == [] then 0 else f(xs[0]) + SumOf(f, xs[1..])
  }

  function Count<T>(p: T -> bool, xs: seq<T>): nat {
    if xs == [] then 0 else (if p(xs[0]) then 1 else 0) + Count(p, xs[1..])
  }

  function Filter<T(!new)>(p: T -> bool, xs: seq<T>): (r: seq<T>)
    ensures |r| == Count(p, xs)
    ensures forall x :: x in r <==> x in xs && p(x)
  {
    if xs == [] then [] else (if p(xs[0]) then [xs[0]] else []) + Filter(p, xs[1..])
  }

  function Map<T, U>(f: T -> U, xs: seq<T>): (r: seq<U>)
    ensures |r| == |xs|
    ensures forall i :: 0 <= i < |xs| ==> r[i] == f(xs[i])
  {
    if xs == [] then [] else [f(xs[0])] + Map(f, xs[1..])
  }

  /** The first position satisfying `p`, as the language's find and findIndex report it. */
  function IndexWhere<T(!new)>(p: T -> bool, xs: seq<T>): (r: Option<nat>)
    ensures r.Some? ==> r.value < |xs| && p(xs[r.value])
                        && forall j :: 0 <= j < r.value ==> !p(xs[j])
    ensures r.None? ==> forall x :: x in xs ==> !p(x)
  {
    if xs == [] then None
    else if p(xs[0]) then Some(0)
    else match IndexWhere(p, xs[1..])
      case None => None
      case Some(i) => Some(i + 1)
  }

  predicate Distinct<T(==)>(xs: seq<T>) {
    forall i, j :: 0 <= i < j < |xs| ==> xs[i] != xs[j]
  }

  lemma {:induction false} SumOfUpdate<T>(f: T -> int, xs: seq<T>, i: nat, x: T)
    requires i < |xs|
    ensures SumOf(f, xs[i := x]) == SumOf(f, xs) - f(xs[i]) + f(x)
  {
    if i == 0 {
      assert xs[i := x][1..] == xs[1..];
    } else {
      SumOfUpdate(f, xs[1..], i - 1, x);
      assert xs[i := x][1..] == xs[1..][i - 1 := x];
    }
  }

  lemma {:induction false} SumOfConcat<T>(f: T -> int, xs: seq<T>, ys: seq<T>)
    ensures SumOf(f, xs + ys) == SumOf(f, xs) + SumOf(f, ys)
  {
    if xs == [] {
      assert xs + ys == ys;
    } else {
      SumOfConcat(f, xs[1..], ys);
      assert (xs + ys)[1..] == xs[1..] + ys;
    }
  }

  lemma {:induction false} SumOfNonNegative<T>(f: T -> int, xs: seq<T>)
    requires forall x :: x in xs ==> f(x) >= 0
    ensures SumOf(f, xs) >= 0
  {
    if xs != [] {
      SumOfNonNegative(f, xs[1..]);
    }
  }

  /** Two positions contribute at least their own amounts to a sum without negative terms. */
  lemma {:induction false} SumOfAtLeastTwo<T>(f: T -> int, xs: seq<T>, i: nat, j: nat)
    requires i < j < |xs|
    requires forall x :: x in xs ==> f(x) >= 0
    ensures SumOf(f, xs) >= f(xs[i]) + f(xs[j])
  {
    if i == 0 {
      SumOfAtLeast(f, xs[1..], j - 1);
    } else {
      SumOfAtLeastTwo(f, xs[1..], i - 1, j - 1);
    }
  }

  lemma {:induction false} SumOfAtLeast<T>(f: T -> int, xs: seq<T>, i: nat)
    requires i < |xs|
    requires forall x :: x in xs ==> f(x) >= 0
    ensures SumOf(f, xs) >= f(xs[i])
  {
    if i == 0 {
      SumOfNonNegative(f, xs[1..]);
    } else {
      SumOfAtLeast(f, xs[1..], i - 1);
    }
  }

  lemma {:induction false} CountUpdate<T>(p: T -> bool, xs: seq<T>, i: nat, x: T)
    requires i < |xs|
    ensures Count(p, xs[i := x])
         == Count(p, xs) - (if p(xs[i]) then 1 else 0) + (if p(x) then 1 else 0)
  {
    if i == 0 {
      assert xs[i := x][1..] == xs[1..];
    } else {
      CountUpdate(p, xs[1..], i - 1, x);
      assert xs[i := x][1..] == xs[1..][i - 1 := x];
    }
  }

  lemma {:induction false} CountMonotone<T>(p: T -> bool, q: T -> bool, xs: seq<T>)
    requires forall x :: x in xs && p(x) ==> q(x)
    ensures Count(p, xs) <= Count(q, xs)
  {
    if xs != [] {
      CountMonotone(p, q, xs[1..]);
    }
  }

  lemma {:induction false} CountBounded<T>(p: T -> bool, xs: seq<T>)
    ensures Count(p, xs) <= |xs|
  {
    if xs != [] {
      CountBounded(p, xs[1..]);
    }
  }

  lemma {:induction false} CountPositive<T>(p: T -> bool, xs: seq<T>, i: nat)
    requires i < |xs| && p(xs[i])
    ensures Count(p, xs) >= 1
  {
    if i != 0 {
      CountPositive(p, xs[1..], i - 1);
    }
  }

  lemma {:induction false} CountAtLeastTwo<T>(p: T -> bool, xs: seq<T>, i: nat, j: nat)
    requires i < j < |xs| && p(xs[i]) && p(xs[j])
    ensures Count(p, xs) >= 2
  {
    if i == 0 {
      CountPositive(p, xs[1..], j - 1);
    } else {
      CountAtLeastTwo(p, xs[1..], i - 1, j - 1);
    }
  }

  /** A count of at least two exhibits two positions. */
  lemma {:induction false} TwoPositions<T>(p: T -> bool, xs: seq<T>) returns (i: nat, j: nat)
    requires Count(p, xs) >= 2
    ensures i < j < |xs| && p(xs[i]) && p(xs[j])
  {
    if p(xs[0]) {
      i := 0;
      j := OnePosition(p, xs[1..]);
      j := j + 1;
    } else {
      i, j := TwoPositions(p, xs[1..]);
      i, j := i + 1, j + 1;
    }
  }

  lemma {:induction false} OnePosition<T>(p: T -> bool, xs: seq<T>) returns (i: nat)
    requires Count(p, xs) >= 1
    ensures i < |xs| && p(xs[i])
  {
    if p(xs[0]) {
      i := 0;
    } else {
      i := OnePosition(p, xs[1..]);
      i := i + 1;
    }
  }

  lemma {:induction false} DistinctCount<T>(xs: seq<T>, x: T)
    requires Distinct(xs)
    ensures multiset(xs)[x] == if x in xs then 1 else 0
  {
    if xs != [] {
      assert forall k :: 0 <= k < |xs[1..]| ==> xs[1..][k] == xs[k + 1];
      DistinctCount(xs[1..], x);
      assert xs == [xs[0]] + xs[1..];
    }
  }
}
