/** Clockwise order around the table, as betting.js and showdown.js both compute it. */
module Seats {
  import opened Seqs

  function InsertBySeat<T>(seat: T -> int, x: T, sorted: seq<T>): seq<T> {
    if sorted == [] || seat(x) < seat(sorted[0]) then [x] + sorted
    else [sorted[0]] + InsertBySeat(seat, x, sorted[1..])
  }

  function SortBySeat<T>(seat: T -> int, xs: seq<T>): seq<T> {
    if xs == [] then [] else InsertBySeat(seat, xs[0], SortBySeat(seat, xs[1..]))
  }

  /** In seat order, rotated to start with the first seat above `after`. */
  function Clockwise<T(!new)>(seat: T -> int, xs: seq<T>, after: int): seq<T> {
    var sorted := SortBySeat(seat, xs);
    match IndexWhere((x: T) => seat(x) > after, sorted)
    case None => sorted
    case Some(split) => sorted[split..] + sorted[..split]
  }

  /** Steps from `after` clockwise to `seat` around nine seats, `after` itself being the farthest. */
  function Distance(after: int, seat: int): int {
    if seat > after then seat - after - 1 else seat - after + 8
  }

  ghost predicate Ascending<T>(seat: T -> int, xs: seq<T>) {
    forall i, j :: 0 <= i < j < |xs| ==> seat(xs[i]) <= seat(xs[j])
  }

  lemma {:induction false} InsertKeepsMembers<T(!new)>(seat: T -> int, x: T, sorted: seq<T>)
    ensures multiset(InsertBySeat(seat, x, sorted)) == multiset{x} + multiset(sorted)
  {
    if sorted != [] && seat(x) >= seat(sorted[0]) {
      InsertKeepsMembers(seat, x, sorted[1..]);
      assert sorted == [sorted[0]] + sorted[1..];
    }
  }

  lemma {:induction false} SortKeepsMembers<T(!new)>(seat: T -> int, xs: seq<T>)
    ensures multiset(SortBySeat(seat, xs)) == multiset(xs)
  {
    if xs != [] {
      SortKeepsMembers(seat, xs[1..]);
      InsertKeepsMembers(seat, xs[0], SortBySeat(seat, xs[1..]));
      assert xs == [xs[0]] + xs[1..];
    }
  }

  lemma {:induction false} ClockwiseKeepsMembers<T(!new)>(seat: T -> int, xs: seq<T>, after: int)
    ensures multiset(Clockwise(seat, xs, after)) == multiset(xs)
    ensures |Clockwise(seat, xs, after)| == |xs|
    ensures forall x :: x in Clockwise(seat, xs, after) <==> x in xs
  {
    var sorted, order := SortBySeat(seat, xs), Clockwise(seat, xs, after);
    SortKeepsMembers(seat, xs);
    match IndexWhere((x: T) => seat(x) > after, sorted) {
      case None =>
      case Some(split) => assert sorted == sorted[..split] + sorted[split..];
    }
    assert |multiset(order)| == |order| && |multiset(xs)| == |xs|;
    forall x ensures x in order <==> x in xs {
      assert x in order <==> x in multiset(order);
      assert x in xs <==> x in multiset(xs);
    }
  }

  lemma {:induction false} InsertAscending<T(!new)>(seat: T -> int, x: T, sorted: seq<T>)
    requires Ascending(seat, sorted)
    ensures Ascending(seat, InsertBySeat(seat, x, sorted))
  {
    if sorted != [] && seat(x) >= seat(sorted[0]) {
      var rest := InsertBySeat(seat, x, sorted[1..]);
      InsertAscending(seat, x, sorted[1..]);
      InsertKeepsMembers(seat, x, sorted[1..]);
      forall i | 0 <= i < |rest| ensures seat(sorted[0]) <= seat(rest[i]) {
        assert rest[i] in multiset(rest);
        assert rest[i] == x || rest[i] in sorted[1..];
      }
    }
  }

  lemma {:induction false} SortAscending<T(!new)>(seat: T -> int, xs: seq<T>)
    ensures Ascending(seat, SortBySeat(seat, xs))
  {
    if xs != [] {
      SortAscending(seat, xs[1..]);
      InsertAscending(seat, xs[0], SortBySeat(seat, xs[1..]));
    }
  }

  /** Clockwise order never moves closer again: distances from `after` do not decrease. */
  lemma {:induction false} ClockwiseByDistance<T(!new)>(seat: T -> int, xs: seq<T>, after: int)
    requires 0 <= after <= 8 && forall x :: x in xs ==> 0 <= seat(x) <= 8
    ensures var r := Clockwise(seat, xs, after);
      forall i, j :: 0 <= i < j < |r| ==> Distance(after, seat(r[i])) <= Distance(after, seat(r[j]))
  {
    var sorted, r := SortBySeat(seat, xs), Clockwise(seat, xs, after);
    SortAscending(seat, xs);
    ClockwiseKeepsMembers(seat, xs, after);
    forall i | 0 <= i < |r| ensures 0 <= seat(r[i]) <= 8 {
      assert r[i] in r;
    }
    match IndexWhere((x: T) => seat(x) > after, sorted) {
      case None =>
        forall i | 0 <= i < |sorted| ensures seat(sorted[i]) <= after {
          assert sorted[i] in sorted;
        }
      case Some(split) =>
        RotationByDistance(seat, sorted, after, split);
    }
  }

  lemma {:induction false} RotationByDistance<T(!new)>(seat: T -> int, sorted: seq<T>, after: int, split: nat)
    requires Ascending(seat, sorted) && split < |sorted|
    requires forall i :: 0 <= i < |sorted| ==> (seat(sorted[i]) > after <==> i >= split)
    requires forall i :: 0 <= i < |sorted| ==> 0 <= seat(sorted[i]) <= 8
    ensures var r := sorted[split..] + sorted[..split];
      forall i, j :: 0 <= i < j < |r| ==> Distance(after, seat(r[i])) <= Distance(after, seat(r[j]))
  {
  }
}
