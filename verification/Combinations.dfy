/** The enumeration of all k-card selections: combinations of server/poker/evaluator.js. */
module Combinations {
  import opened Seqs

  /** All ways of extending `selected` to `count` items taken from position `start` on. */
  function Choose<T>(items: seq<T>, count: nat, start: nat, selected: seq<T>): seq<seq<T>>
    requires |selected| <= count
    decreases |items| - start
  {
    if |selected| == count then [selected]
    else if start > |items| - (count - |selected|) then []
    else Choose(items, count, start + 1, selected + [items[start]]) + Choose(items, count, start + 1, selected)
  }

  function Combinations<T>(items: seq<T>, count: nat): seq<seq<T>> {
    Choose(items, count, 0, [])
  }

  /** The recursive search that pushes each completed selection onto the output. */
  method ChooseInto<T>(items: seq<T>, count: nat, start: nat, selected: seq<T>, before: seq<seq<T>>)
    returns (output: seq<seq<T>>)
    requires |selected| <= count
    ensures output == before + Choose(items, count, start, selected)
    decreases |items| - start, 0
  {
    if |selected| == count {
      return before + [selected];
    }
    output := before;
    var index := start;
    while index <= |items| - (count - |selected|)
      invariant start <= index
      invariant before + Choose(items, count, start, selected) == output + Choose(items, count, index, selected)
      decreases |items| - index
    {
      ghost var taken := Choose(items, count, index + 1, selected + [items[index]]);
      ghost var skipped := Choose(items, count, index + 1, selected);
      assert Choose(items, count, index, selected) == taken + skipped;
      assert output + (taken + skipped) == (output + taken) + skipped;
      output := ChooseInto(items, count, index + 1, selected + [items[index]], output);
      index := index + 1;
    }
    assert Choose(items, count, index, selected) == [];
    assert output + [] == output;
  }

  method AllCombinations<T>(items: seq<T>, count: nat) returns (output: seq<seq<T>>)
    ensures output == Combinations(items, count)
  {
    output := ChooseInto(items, count, 0, [], []);
  }

  // ----- Every selection exactly once -----

  function Positions(n: nat): seq<int> {
    if n == 0 then [] else Positions(n - 1) + [n - 1]
  }

  lemma {:induction false} PositionsAre(n: nat)
    ensures |Positions(n)| == n && forall i :: 0 <= i < n ==> Positions(n)[i] == i
  {
    if n > 0 {
      PositionsAre(n - 1);
    }
  }

  predicate Increasing(chosen: seq<int>, from: int, below: int) {
    && (forall i :: 0 <= i < |chosen| ==> from <= chosen[i] < below)
    && (forall i, j :: 0 <= i < j < |chosen| ==> chosen[i] < chosen[j])
  }

  function Select<T>(items: seq<T>, chosen: seq<int>): (r: seq<T>)
    requires forall i :: 0 <= i < |chosen| ==> 0 <= chosen[i] < |items|
    ensures |r| == |chosen| && forall i :: 0 <= i < |r| ==> r[i] == items[chosen[i]]
  {
    seq(|chosen|, i requires 0 <= i < |chosen| => items[chosen[i]])
  }

  /** `chosen` extends `prefix` by increasing positions from `start` on. */
  predicate Extends(chosen: seq<int>, prefix: seq<int>, count: nat, start: int, n: int) {
    && |prefix| <= |chosen| == count
    && chosen[..|prefix|] == prefix
    && Increasing(chosen[|prefix|..], start, n)
  }

  lemma {:induction false} ChosenExactly(n: nat, count: nat, start: nat, prefix: seq<int>, chosen: seq<int>)
    requires |prefix| <= count && start <= n
    ensures chosen in Choose(Positions(n), count, start, prefix) <==> Extends(chosen, prefix, count, start, n)
    decreases n - start
  {
    PositionsAre(n);
    if |prefix| == count {
      assert Extends(chosen, prefix, count, start, n) ==> chosen == chosen[..|prefix|] == prefix;
      assert chosen == prefix ==> chosen[..|prefix|] == prefix;
    } else if start > n - (count - |prefix|) {
      if Extends(chosen, prefix, count, start, n) {
        IncreasingFits(chosen[|prefix|..], start, n);
      }
    } else {
      ChosenExactly(n, count, start + 1, prefix + [start], chosen);
      ChosenExactly(n, count, start + 1, prefix, chosen);
      TakeOrSkip(chosen, prefix, count, start, n);
    }
  }

  /** Increasing positions below `below` are too few to start late. */
  lemma {:induction false} IncreasingFits(chosen: seq<int>, from: int, below: int)
    requires Increasing(chosen, from, below) && from <= below
    ensures |chosen| <= below - from
  {
    if chosen != [] {
      assert Increasing(chosen[1..], chosen[0] + 1, below);
      IncreasingFits(chosen[1..], chosen[0] + 1, below);
    }
  }

  lemma {:induction false} TakeOrSkip(chosen: seq<int>, prefix: seq<int>, count: nat, start: int, n: int)
    requires |prefix| < count && start < n
    ensures Extends(chosen, prefix, count, start, n)
      <==> Extends(chosen, prefix + [start], count, start + 1, n) || Extends(chosen, prefix, count, start + 1, n)
  {
    var k := |prefix|;
    if |chosen| == count {
      assert chosen[k..][1..] == chosen[k + 1..];
      assert chosen[..k + 1] == chosen[..k] + [chosen[k]];
      assert (prefix + [start])[..k] == prefix;
      if Extends(chosen, prefix + [start], count, start + 1, n) {
        assert chosen[..k] == chosen[..k + 1][..k];
        assert chosen[k..] == [start] + chosen[k + 1..];
      }
      if Extends(chosen, prefix, count, start, n) && chosen[k] != start {
        assert chosen[k..][0] == chosen[k];
      }
    }
  }

  lemma {:induction false} ChosenOnce(n: nat, count: nat, start: nat, prefix: seq<int>)
    requires |prefix| <= count && start <= n
    ensures Distinct(Choose(Positions(n), count, start, prefix))
    decreases n - start
  {
    PositionsAre(n);
    if |prefix| < count && start <= n - (count - |prefix|) {
      ChosenOnce(n, count, start + 1, prefix + [start]);
      ChosenOnce(n, count, start + 1, prefix);
      var taken := Choose(Positions(n), count, start + 1, prefix + [start]);
      var skipped := Choose(Positions(n), count, start + 1, prefix);
      forall i, j | 0 <= i < |taken| && 0 <= j < |skipped| ensures taken[i] != skipped[j] {
        assert taken[i] in taken && skipped[j] in skipped;
        ChosenExactly(n, count, start + 1, prefix + [start], taken[i]);
        ChosenExactly(n, count, start + 1, prefix, skipped[j]);
        assert taken[i][|prefix|] == taken[i][..|prefix| + 1][|prefix|] == start;
        assert skipped[j][|prefix|] == skipped[j][|prefix|..][0];
      }
    }
  }

  /** Choosing among items is choosing among their positions. */
  lemma {:induction false} SelectIs<T>(items: seq<T>, prefix: seq<int>, selected: seq<T>)
    requires |selected| == |prefix|
    requires forall i :: 0 <= i < |prefix| ==> 0 <= prefix[i] < |items| && selected[i] == items[prefix[i]]
    ensures selected == Select(items, prefix)
  {
  }

  lemma {:induction false} ChooseByPosition<T>(items: seq<T>, count: nat, start: nat, selected: seq<T>,
      prefix: seq<int>)
    requires |selected| == |prefix| <= count && start <= |items|
    requires forall i :: 0 <= i < |prefix| ==> 0 <= prefix[i] < |items| && selected[i] == items[prefix[i]]
    ensures var cards, places := Choose(items, count, start, selected),
        Choose(Positions(|items|), count, start, prefix);
      && |cards| == |places|
      && forall k :: 0 <= k < |cards| ==>
           && (forall i :: 0 <= i < |places[k]| ==> 0 <= places[k][i] < |items|)
           && cards[k] == Select(items, places[k])
    decreases |items| - start
  {
    hide Positions, Select;
    PositionsAre(|items|);
    if |selected| < count && start <= |items| - (count - |selected|) {
      ChooseByPosition(items, count, start + 1, selected + [items[start]], prefix + [start]);
      ChooseByPosition(items, count, start + 1, selected, prefix);
    } else if |selected| == count {
      SelectIs(items, prefix, selected);
    }
  }

  /**
   * The selections of `count` items are the selections at increasing positions, each listed once.
   */
  lemma {:induction false} CombinationsAreComplete<T>(items: seq<T>, count: nat)
    ensures var places := Combinations(Positions(|items|), count);
      && Distinct(places)
      && (forall chosen :: chosen in places <==> |chosen| == count && Increasing(chosen, 0, |items|))
      && |Combinations(items, count)| == |places|
      && forall k :: 0 <= k < |places| ==>
           (Increasing(places[k], 0, |items|) && Combinations(items, count)[k] == Select(items, places[k]))
  {
    var places := Combinations(Positions(|items|), count);
    ChosenOnce(|items|, count, 0, []);
    forall chosen ensures chosen in places <==> |chosen| == count && Increasing(chosen, 0, |items|) {
      ChosenExactly(|items|, count, 0, [], chosen);
      assert chosen[0..] == chosen;
    }
    ChooseByPosition(items, count, 0, [], []);
    forall k | 0 <= k < |places| ensures Increasing(places[k], 0, |items|) {
      assert places[k] in places;
    }
  }
}
