/** Evaluation ignores card order, and the selected hand is the best one there is. */
module BestHand {
  import opened Wrappers
  import opened Seqs
  import opened Ledgers
  import opened Evaluations
  import opened Combinations
  import opened Evaluator

  // ----- Sorting is determined by the multiset -----

  ghost predicate Descending(xs: seq<int>) {
    forall i, j :: 0 <= i < j < |xs| ==> xs[i] >= xs[j]
  }

  lemma {:induction false} InsertItems(x: int, xs: seq<int>)
    ensures multiset(InsertDescending(x, xs)) == multiset{x} + multiset(xs)
  {
    if xs != [] && x < xs[0] {
      InsertItems(x, xs[1..]);
      assert xs == [xs[0]] + xs[1..];
    }
  }

  lemma {:induction false} AtMost(x: int, xs: seq<int>, top: int)
    requires x <= top && forall i :: 0 <= i < |xs| ==> xs[i] <= top
    ensures forall i :: 0 <= i < |InsertDescending(x, xs)| ==> InsertDescending(x, xs)[i] <= top
  {
    if xs != [] && x < xs[0] {
      AtMost(x, xs[1..], top);
    }
  }

  lemma {:induction false} InsertSorted(x: int, xs: seq<int>)
    requires Descending(xs)
    ensures Descending(InsertDescending(x, xs))
  {
    if xs != [] && x < xs[0] {
      InsertSorted(x, xs[1..]);
      AtMost(x, xs[1..], xs[0]);
    }
  }

  lemma {:induction false} SortSorts(xs: seq<int>)
    ensures Descending(SortDescending(xs)) && multiset(SortDescending(xs)) == multiset(xs)
  {
    if xs != [] {
      assert xs == [xs[0]] + xs[1..];
      SortSorts(xs[1..]);
      InsertSorted(xs[0], SortDescending(xs[1..]));
      InsertItems(xs[0], SortDescending(xs[1..]));
    }
  }

  lemma {:induction false} FirstIsTop(xs: seq<int>, x: int)
    requires Descending(xs) && x in xs
    ensures xs != [] && xs[0] >= x
  {
    var i :| 0 <= i < |xs| && xs[i] == x;
    assert i > 0 ==> xs[0] >= xs[i];
  }

  lemma {:induction false} TailItems(xs: seq<int>)
    requires xs != []
    ensures multiset(xs[1..]) == multiset(xs) - multiset{xs[0]}
  {
    assert xs == [xs[0]] + xs[1..];
  }

  lemma {:induction false} SameTop(xs: seq<int>, ys: seq<int>)
    requires Descending(xs) && Descending(ys) && multiset(xs) == multiset(ys) && xs != []
    ensures ys != [] && xs[0] == ys[0]
  {
    assert xs[0] in multiset(xs);
    FirstIsTop(ys, xs[0]);
    assert ys[0] in multiset(ys);
    FirstIsTop(xs, ys[0]);
  }

  lemma {:induction false} OnlyEmpty(xs: seq<int>)
    requires multiset(xs) == multiset([])
    ensures xs == []
  {
    assert |multiset(xs)| == |xs|;
  }

  lemma {:induction false} SortedUnique(xs: seq<int>, ys: seq<int>)
    requires Descending(xs) && Descending(ys) && multiset(xs) == multiset(ys)
    ensures xs == ys
  {
    if xs == [] {
      OnlyEmpty(ys);
    } else {
      SameTop(xs, ys);
      TailItems(xs);
      TailItems(ys);
      SortedUnique(xs[1..], ys[1..]);
      assert xs == [xs[0]] + xs[1..] && ys == [ys[0]] + ys[1..];
    }
  }

  lemma {:induction false} SortIgnoresOrder(xs: seq<int>, ys: seq<int>)
    requires multiset(xs) == multiset(ys)
    ensures SortDescending(xs) == SortDescending(ys)
  {
    SortSorts(xs);
    SortSorts(ys);
    SortedUnique(SortDescending(xs), SortDescending(ys));
  }

  // ----- Groups are determined by the multiset of ranks -----

  ghost predicate KeysOnce(m: Ledger) {
    forall i, j :: 0 <= i < j < |m| ==> m[i].key != m[j].key
  }

  /** The ledger lists exactly the ranks that occur, each once, with its number of occurrences. */
  ghost predicate Counts(m: Ledger, ranks: seq<nat>) {
    && KeysOnce(m)
    && forall g: Entry :: g in m <==> g.key in ranks && g.amount == multiset(ranks)[g.key]
  }

  lemma {:induction false} AddOne(m: Ledger, key: nat)
    requires KeysOnce(m)
    ensures KeysOnce(Add(m, key, 1))
    ensures forall g: Entry :: g in Add(m, key, 1) <==>
              if g.key == key then g.amount == Get(m, key) + 1 else g in m
  {
    if m != [] {
      if m[0].key == key {
        assert Add(m, key, 1)[1..] == m[1..];
        forall g: Entry ensures g in Add(m, key, 1) <==> if g.key == key then g.amount == Get(m, key) + 1 else g in m {
          assert g in m <==> g == m[0] || g in m[1..];
          assert g in m[1..] ==> g.key != key;
        }
      } else {
        assert KeysOnce(m[1..]);
        AddOne(m[1..], key);
        var rest := Add(m[1..], key, 1);
        forall i | 0 <= i < |rest| ensures rest[i].key != m[0].key {
          assert rest[i] in rest;
          if rest[i].key != key {
            assert rest[i] in m[1..];
          }
        }
      }
    }
  }

  lemma {:induction false} GetEntry(m: Ledger, key: nat)
    requires KeysOnce(m)
    ensures forall g: Entry :: g in m && g.key == key ==> Get(m, key) == g.amount
    ensures (forall g: Entry :: g in m ==> g.key != key) ==> Get(m, key) == 0
  {
    if m != [] {
      assert KeysOnce(m[1..]);
      GetEntry(m[1..], key);
    }
  }

  lemma {:induction false} RanksAreCounted(ranks: seq<nat>)
    ensures Counts(RankCounts(ranks), ranks)
  {
    if ranks != [] {
      var init, last := ranks[..|ranks| - 1], ranks[|ranks| - 1];
      assert ranks == init + [last];
      RanksAreCounted(init);
      var m := RankCounts(init);
      AddOne(m, last);
      GetEntry(m, last);
      assert Get(m, last) == multiset(init)[last] by {
        if last in init {
          assert Entry(last, multiset(init)[last]) in m;
        }
      }
      assert multiset(ranks) == multiset(init) + multiset{last};
    }
  }

  ghost predicate Ordered(groups: Ledger) {
    forall i, j :: 0 <= i < j < |groups| ==> Before(groups[i], groups[j])
  }

  lemma {:induction false} InsertOrdered(g: Entry, groups: Ledger)
    requires Ordered(groups) && forall i :: 0 <= i < |groups| ==> groups[i].key != g.key
    ensures Ordered(InsertGroup(g, groups))
    ensures forall e: Entry :: e in InsertGroup(g, groups) <==> e == g || e in groups
  {
    if groups != [] && !Before(g, groups[0]) {
      assert Ordered(groups[1..]);
      InsertOrdered(g, groups[1..]);
      var rest := InsertGroup(g, groups[1..]);
      forall i | 0 <= i < |rest| ensures Before(groups[0], rest[i]) {
        assert rest[i] in rest;
      }
    }
  }

  lemma {:induction false} GroupsAreOrdered(m: Ledger)
    requires KeysOnce(m)
    ensures Ordered(SortGroups(m)) && forall e: Entry :: e in SortGroups(m) <==> e in m
  {
    if m != [] {
      assert KeysOnce(m[1..]);
      GroupsAreOrdered(m[1..]);
      var rest := SortGroups(m[1..]);
      forall i | 0 <= i < |rest| ensures rest[i].key != m[0].key {
        assert rest[i] in rest;
        var j :| 0 <= j < |m[1..]| && m[1..][j] == rest[i];
        assert m[j + 1].key != m[0].key;
      }
      InsertOrdered(m[0], rest);
    }
  }

  lemma {:induction false} OrderedUnique(a: Ledger, b: Ledger)
    requires Ordered(a) && Ordered(b) && forall e: Entry :: e in a <==> e in b
    ensures a == b
  {
    if a == [] {
      NoEntries(b);
    } else {
      SameFirst(a, b);
      forall e: Entry ensures e in a[1..] <==> e in b[1..] {
        TailMembers(a, e);
        TailMembers(b, e);
      }
      OrderedUnique(a[1..], b[1..]);
      assert a == [a[0]] + a[1..] && b == [b[0]] + b[1..];
    }
  }

  lemma {:induction false} NoEntries(b: Ledger)
    requires forall e: Entry :: e !in b
    ensures b == []
  {
    HasEntry(b);
  }

  lemma {:induction false} HasEntry(b: Ledger)
    ensures b == [] || exists e: Entry :: e in b
  {
    if b != [] {
      assert b[0] in b;
    }
  }

  lemma {:induction false} SameFirst(a: Ledger, b: Ledger)
    requires Ordered(a) && Ordered(b) && a != [] && forall e: Entry :: e in a <==> e in b
    ensures b != [] && a[0] == b[0]
  {
    assert a[0] in a;
    assert a[0] in b;
    assert b[0] in b;
    var i :| 0 <= i < |b| && b[i] == a[0];
    var j :| 0 <= j < |a| && a[j] == b[0];
  }

  lemma {:induction false} TailMembers(a: Ledger, e: Entry)
    requires a != [] && Ordered(a)
    ensures e in a[1..] <==> e in a && e != a[0]
  {
    if e in a && e != a[0] {
      var i :| 0 <= i < |a| && a[i] == e;
      assert a[1..][i - 1] == e;
    }
    if e in a[1..] {
      var i :| 0 <= i < |a[1..]| && a[1..][i] == e;
      assert a[i + 1] == e && Before(a[0], a[i + 1]);
    }
  }

  lemma {:induction false} GroupsIgnoreOrder(xs: seq<nat>, ys: seq<nat>)
    requires multiset(xs) == multiset(ys)
    ensures SortGroups(RankCounts(xs)) == SortGroups(RankCounts(ys))
  {
    RanksAreCounted(xs);
    RanksAreCounted(ys);
    GroupsAreOrdered(RankCounts(xs));
    GroupsAreOrdered(RankCounts(ys));
    forall g: Entry ensures g in RankCounts(xs) <==> g in RankCounts(ys) {
      assert g.key in xs <==> g.key in multiset(xs);
      assert g.key in ys <==> g.key in multiset(ys);
    }
    OrderedUnique(SortGroups(RankCounts(xs)), SortGroups(RankCounts(ys)));
  }

  // ----- The score ignores card order -----

  lemma {:induction false} MapCons(x: int, xs: seq<int>)
    ensures multiset(Map(RankOf, [x] + xs)) == multiset{RankOf(x)} + multiset(Map(RankOf, xs))
  {
    assert ([x] + xs)[1..] == xs;
  }

  lemma {:induction false} InsertKeepsRanks(x: int, xs: seq<int>)
    ensures multiset(Map(RankOf, InsertDescending(x, xs))) == multiset{RankOf(x)} + multiset(Map(RankOf, xs))
  {
    hide RankOf, Map;
    if xs == [] || x >= xs[0] {
      MapCons(x, xs);
    } else {
      InsertKeepsRanks(x, xs[1..]);
      MapCons(xs[0], InsertDescending(x, xs[1..]));
      MapCons(xs[0], xs[1..]);
      assert xs == [xs[0]] + xs[1..];
    }
  }

  lemma {:induction false} SortKeepsRanks(xs: seq<int>)
    ensures multiset(Map(RankOf, SortDescending(xs))) == multiset(Map(RankOf, xs))
  {
    if xs != [] {
      SortKeepsRanks(xs[1..]);
      InsertKeepsRanks(xs[0], SortDescending(xs[1..]));
      MapCons(xs[0], xs[1..]);
      assert xs == [xs[0]] + xs[1..];
    }
  }

  lemma {:induction false} RanksIgnoreOrder(a: seq<int>, b: seq<int>)
    requires multiset(a) == multiset(b)
    ensures multiset(Map(RankOf, a)) == multiset(Map(RankOf, b))
  {
    SortIgnoresOrder(a, b);
    SortKeepsRanks(a);
    SortKeepsRanks(b);
  }

  lemma {:induction false} StraightIgnoresOrder(xs: seq<int>, ys: seq<int>, high: int)
    requires forall r: int :: r in xs <==> r in ys
    ensures StraightFrom(xs, high) == StraightFrom(ys, high)
    decreases high
  {
    assert Run(xs, high) == Run(ys, high) && Wheel(xs) == Wheel(ys);
    if high >= 4 {
      StraightIgnoresOrder(xs, ys, high - 1);
    }
  }

  lemma {:induction false} SameMembers(a: seq<int>, b: seq<int>)
    requires multiset(a) == multiset(b)
    ensures forall c :: c in a <==> c in b
  {
    forall c ensures c in a <==> c in b {
      assert c in a <==> c in multiset(a);
      assert c in b <==> c in multiset(b);
    }
  }

  lemma {:induction false} SameSuit(a: seq<int>, c: int, d: int)
    requires Flush(a) && c in a && d in a
    ensures SuitOf(c) == SuitOf(d)
  {
    var k :| 0 <= k < |a| && a[k] == c;
    var l :| 0 <= l < |a| && a[l] == d;
    assert k == l || k < l || l < k;
  }

  lemma {:induction false} FlushIgnoresOrder(a: seq<int>, b: seq<int>)
    requires forall c :: c in a <==> c in b
    ensures Flush(a) ==> Flush(b)
  {
    if Flush(a) {
      forall i, j | 0 <= i < j < |b| ensures SuitOf(b[i]) == SuitOf(b[j]) {
        assert b[i] in b && b[j] in b;
        SameSuit(a, b[i], b[j]);
      }
    }
  }

  /** The category and tiebreak of five cards do not depend on the order they are listed in. */
  lemma {:induction false} ScoreIgnoresOrder(a: seq<int>, b: seq<int>)
    requires multiset(a) == multiset(b)
    ensures Score(a) == Score(b)
  {
    var x, y := Map(RankOf, a), Map(RankOf, b);
    RanksIgnoreOrder(a, b);
    SameMembers(a, b);
    SameMembers(x, y);
    GroupsIgnoreOrder(x, y);
    SortIgnoresOrder(x, y);
    StraightIgnoresOrder(x, y, 12);
    FlushIgnoresOrder(a, b);
    FlushIgnoresOrder(b, a);
  }

  // ----- Any five of the available cards are among the candidates -----

  /** Ascending positions of the items that belong to `wanted`, from position `i` on. */
  function PositionsOf(items: seq<int>, wanted: seq<int>, i: nat): seq<int>
    requires i <= |items|
    decreases |items| - i
  {
    if i == |items| then []
    else (if items[i] in wanted then [i] else []) + PositionsOf(items, wanted, i + 1)
  }

  lemma {:induction false} PositionsIncrease(items: seq<int>, wanted: seq<int>, i: nat)
    requires i <= |items|
    ensures Increasing(PositionsOf(items, wanted, i), i, |items|)
    ensures forall k :: i <= k < |items| && items[k] in wanted ==> k in PositionsOf(items, wanted, i)
    ensures forall k :: k in PositionsOf(items, wanted, i) ==> i <= k < |items| && items[k] in wanted
    decreases |items| - i
  {
    if i < |items| {
      PositionsIncrease(items, wanted, i + 1);
    }
  }

  lemma {:induction false} DistinctSame(a: seq<int>, b: seq<int>)
    requires Distinct(a) && Distinct(b) && forall c :: c in a <==> c in b
    ensures multiset(a) == multiset(b)
  {
    forall c ensures multiset(a)[c] == multiset(b)[c] {
      DistinctCount(a, c);
      DistinctCount(b, c);
    }
  }

  /** Distinct wanted cards are, up to order, one of the selections of their number. */
  lemma {:induction false} SomeSelection(items: seq<int>, wanted: seq<int>) returns (k: nat)
    requires Distinct(items) && Distinct(wanted) && forall c :: c in wanted ==> c in items
    ensures k < |Combinations.Combinations(items, |wanted|)|
    ensures multiset(Combinations.Combinations(items, |wanted|)[k]) == multiset(wanted)
  {
    var chosen := PositionsOf(items, wanted, 0);
    PositionsIncrease(items, wanted, 0);
    var picked := Select(items, chosen);
    forall c ensures c in picked <==> c in wanted {
      if c in wanted {
        var j :| 0 <= j < |items| && items[j] == c;
        var i :| 0 <= i < |chosen| && chosen[i] == j;
        assert picked[i] == c;
      }
      if c in picked {
        var i :| 0 <= i < |picked| && picked[i] == c;
        assert chosen[i] in chosen;
      }
    }
    DistinctSame(picked, wanted);
    assert |multiset(picked)| == |picked| && |multiset(wanted)| == |wanted|;
    CombinationsAreComplete(items, |wanted|);
    var places := Combinations.Combinations(Positions(|items|), |wanted|);
    assert chosen in places;
    k :| 0 <= k < |places| && places[k] == chosen;
  }

  lemma {:induction false} SelectionIsValid(items: seq<int>, count: nat, k: nat)
    requires ValidCards(items) && k < |Combinations.Combinations(items, count)|
    ensures var five := Combinations.Combinations(items, count)[k];
      && |five| == count && ValidCards(five) && forall c :: c in five ==> c in items
  {
    CombinationsAreComplete(items, count);
    var places := Combinations.Combinations(Positions(|items|), count);
    assert places[k] in places;
  }

  // ----- The best of a list -----

  lemma {:induction false} BestIsGreatest(current: Evaluation, evaluations: seq<Evaluation>)
    ensures var best := BestFrom(current, evaluations);
      && (best == current || best in evaluations)
      && Compare(best, current) >= 0
      && forall e :: e in evaluations ==> Compare(best, e) >= 0
    decreases |evaluations|
  {
    if evaluations == [] {
      CompareIsTotalPreorder(current, current, current);
    } else {
      var next := if Compare(evaluations[0], current) > 0 then evaluations[0] else current;
      BestIsGreatest(next, evaluations[1..]);
      var best := BestFrom(current, evaluations);
      CompareIsTotalPreorder(best, next, current);
      CompareIsTotalPreorder(best, next, evaluations[0]);
      CompareIsTotalPreorder(evaluations[0], current, current);
    }
  }

  lemma {:induction false} AllEvaluated(hands: seq<seq<int>>)
    requires forall k :: 0 <= k < |hands| ==> |hands[k]| == 5 && ValidCards(hands[k])
    ensures EvaluateAll(hands).Ok? && |EvaluateAll(hands).value| == |hands|
    ensures forall k :: 0 <= k < |hands| ==>
              EvaluateFive(hands[k]).Ok? && EvaluateAll(hands).value[k] == EvaluateFive(hands[k]).value
  {
    if hands != [] {
      AllEvaluated(hands[1..]);
    }
  }

  lemma {:induction false} BestOfAll(evaluations: seq<Evaluation>) returns (k: nat)
    requires evaluations != []
    ensures k < |evaluations| && evaluations[k] == BestFrom(evaluations[0], evaluations[1..])
    ensures forall j :: 0 <= j < |evaluations| ==> Compare(evaluations[k], evaluations[j]) >= 0
  {
    BestIsGreatest(evaluations[0], evaluations[1..]);
    var best := BestFrom(evaluations[0], evaluations[1..]);
    assert best in evaluations;
    k :| 0 <= k < |evaluations| && evaluations[k] == best;
    forall j | 0 <= j < |evaluations| ensures Compare(best, evaluations[j]) >= 0 {
      HeadOrTail(evaluations, j);
    }
  }

  /** A best evaluation exists, belongs to one of the hands, and no hand beats it. */
  lemma {:induction false} BestOfHands(hole: seq<int>, board: seq<int>, holeCards: nat, hands: seq<seq<int>>)
    requires |hole| == holeCards && |board| == 5 && ValidCards(hole + board) && hands != []
    requires forall k :: 0 <= k < |hands| ==> |hands[k]| == 5 && ValidCards(hands[k])
    ensures EvaluateBest(hole, board, holeCards, hands).Ok?
    ensures var best := EvaluateBest(hole, board, holeCards, hands).value;
      && (exists k :: 0 <= k < |hands| && EvaluateFive(hands[k]) == Ok(best))
      && forall k :: 0 <= k < |hands| ==>
           EvaluateFive(hands[k]).Ok? && Compare(best, EvaluateFive(hands[k]).value) >= 0
  {
    SplitValid(hole, board);
    AllEvaluated(hands);
    var k := BestOfAll(EvaluateAll(hands).value);
    assert EvaluateFive(hands[k]).Ok?;
  }

  lemma {:induction false} HeadOrTail<T>(xs: seq<T>, i: nat)
    requires i < |xs|
    ensures xs[i] == xs[0] || xs[i] in xs[1..]
  {
    assert i > 0 ==> xs[i] == xs[1..][i - 1];
  }

  lemma {:induction false} SplitValid(hole: seq<int>, board: seq<int>)
    requires ValidCards(hole + board)
    ensures ValidCards(hole) && ValidCards(board)
    ensures forall c :: c in hole ==> c !in board
  {
    var all := hole + board;
    assert forall i :: 0 <= i < |hole| ==> all[i] == hole[i];
    assert forall i :: 0 <= i < |board| ==> all[|hole| + i] == board[i];
  }

  /** Beating is decided by category and tiebreak alone. */
  lemma {:induction false} SameScoreCompares(a: Evaluation, b: Evaluation, c: Evaluation)
    requires a.category == b.category && a.tiebreak == b.tiebreak
    ensures Compare(c, a) == Compare(c, b)
  {
  }

  // ----- Hold'em: any five of the seven -----

  lemma {:induction false} HoldemHandsAreValid(hole: seq<int>, board: seq<int>)
    requires |hole| == 2 && |board| == 5 && ValidCards(hole + board)
    ensures HoldemHands(hole, board) != []
    ensures forall k :: 0 <= k < |HoldemHands(hole, board)| ==>
              |HoldemHands(hole, board)[k]| == 5 && ValidCards(HoldemHands(hole, board)[k])
              && forall c :: c in HoldemHands(hole, board)[k] ==> c in hole + board
  {
    SplitValid(hole, board);
    assert forall c :: c in board ==> c in hole + board;
    var k := SomeSelection(hole + board, board);
    forall k | 0 <= k < |HoldemHands(hole, board)|
      ensures |HoldemHands(hole, board)[k]| == 5 && ValidCards(HoldemHands(hole, board)[k])
        && forall c :: c in HoldemHands(hole, board)[k] ==> c in hole + board
    {
      SelectionIsValid(hole + board, 5, k);
    }
  }

  /**
   * Hold'em evaluation always succeeds on seven different cards; its result is the evaluation of
   * five of them, and no five of them, in any order, beat it.
   */
  lemma {:induction false} HoldemIsBest(hole: seq<int>, board: seq<int>)
    requires |hole| == 2 && |board| == 5 && ValidCards(hole + board)
    ensures EvaluateHoldem(hole, board).Ok?
    ensures var best := EvaluateHoldem(hole, board).value;
      && |best.cards| == 5 && EvaluateFive(best.cards) == Ok(best) && (forall c :: c in best.cards ==>
        c in hole + board)
      && forall five :: |five| == 5 && Distinct(five) && (forall c :: c in five ==> c in hole + board)
           ==> EvaluateFive(five).Ok? && Compare(best, EvaluateFive(five).value) >= 0
  {
    var hands := HoldemHands(hole, board);
    HoldemHandsAreValid(hole, board);
    BestOfHands(hole, board, 2, hands);
    var best := EvaluateHoldem(hole, board).value;
    var k :| 0 <= k < |hands| && EvaluateFive(hands[k]) == Ok(best);
    forall five | |five| == 5 && Distinct(five) && (forall c :: c in five ==> c in hole + board)
      ensures EvaluateFive(five).Ok? && Compare(best, EvaluateFive(five).value) >= 0
    {
      var j := SomeSelection(hole + board, five);
      FiveIsValid(hole + board, five);
      ScoreIgnoresOrder(hands[j], five);
      SameScoreCompares(EvaluateFive(hands[j]).value, EvaluateFive(five).value, best);
    }
  }

  lemma {:induction false} FiveIsValid(items: seq<int>, five: seq<int>)
    requires ValidCards(items) && |five| == 5 && Distinct(five) && forall c :: c in five ==> c in items
    ensures ValidCards(five) && EvaluateFive(five).Ok?
  {
    forall i | 0 <= i < |five| ensures 0 <= five[i] < 52 {
      assert five[i] in five;
      var k :| 0 <= k < |items| && items[k] == five[i];
    }
  }

  // ----- Omaha: exactly two of the hole cards and three of the board -----

  lemma {:induction false} JoinIs(first: seq<int>, seconds: seq<seq<int>>)
    ensures |Join(first, seconds)| == |seconds|
    ensures forall k :: 0 <= k < |seconds| ==> Join(first, seconds)[k] == first + seconds[k]
  {
    if seconds != [] {
      JoinIs(first, seconds[1..]);
    }
  }

  lemma {:induction false} JoinAllMembers(firsts: seq<seq<int>>, seconds: seq<seq<int>>, hand: seq<int>)
    ensures hand in JoinAll(firsts, seconds) <==>
      exists i, j :: 0 <= i < |firsts| && 0 <= j < |seconds| && hand == firsts[i] + seconds[j]
  {
    if firsts != [] {
      JoinIs(firsts[0], seconds);
      JoinAllMembers(firsts[1..], seconds, hand);
      if i, j :| 0 <= i < |firsts| && 0 <= j < |seconds| && hand == firsts[i] + seconds[j] {
        if i == 0 {
          assert Join(firsts[0], seconds)[j] == hand;
        } else {
          assert firsts[1..][i - 1] == firsts[i];
        }
      }
      if i, j :| 0 <= i < |firsts[1..]| && 0 <= j < |seconds| && hand == firsts[1..][i] + seconds[j] {
        assert firsts[i + 1] == firsts[1..][i];
      }
      if hand in Join(firsts[0], seconds) {
        var j :| 0 <= j < |seconds| && Join(firsts[0], seconds)[j] == hand;
        assert hand == firsts[0] + seconds[j];
      }
    }
  }

  lemma {:induction false} OmahaHand(hole: seq<int>, board: seq<int>, i: nat, j: nat)
    requires ValidCards(hole + board)
    requires i < |Combinations.Combinations(hole, 2)| && j < |Combinations.Combinations(board, 3)|
    ensures var hand := Combinations.Combinations(hole, 2)[i] + Combinations.Combinations(board, 3)[j];
      |hand| == 5 && ValidCards(hand)
  {
    SplitValid(hole, board);
    SelectionIsValid(hole, 2, i);
    SelectionIsValid(board, 3, j);
    var two, three := Combinations.Combinations(hole, 2)[i], Combinations.Combinations(board, 3)[j];
    forall a, b | 0 <= a < 2 && 0 <= b < 3 ensures two[a] != three[b] {
      assert two[a] in hole && three[b] in board;
    }
  }

  lemma {:induction false} OmahaHandsAreValid(hole: seq<int>, board: seq<int>)
    requires |hole| == 4 && |board| == 5 && ValidCards(hole + board)
    ensures OmahaHands(hole, board) != []
    ensures forall k :: 0 <= k < |OmahaHands(hole, board)| ==>
              |OmahaHands(hole, board)[k]| == 5 && ValidCards(OmahaHands(hole, board)[k])
  {
    SplitValid(hole, board);
    var two, three := Combinations.Combinations(hole, 2), Combinations.Combinations(board, 3);
    var i := SomeSelection(hole, hole[..2]);
    var j := SomeSelection(board, board[..3]);
    JoinAllMembers(two, three, two[i] + three[j]);
    forall k | 0 <= k < |OmahaHands(hole, board)|
      ensures |OmahaHands(hole, board)[k]| == 5 && ValidCards(OmahaHands(hole, board)[k])
    {
      var hand := OmahaHands(hole, board)[k];
      assert hand in OmahaHands(hole, board);
      JoinAllMembers(two, three, hand);
      var a, b :| 0 <= a < |two| && 0 <= b < |three| && hand == two[a] + three[b];
      OmahaHand(hole, board, a, b);
    }
  }

  /**
   * Omaha evaluation always succeeds on nine different cards; no two hole cards with three board
   * cards, in any order, beat its result, which is the evaluation of such a hand.
   */
  lemma {:induction false} OmahaIsBest(hole: seq<int>, board: seq<int>)
    requires |hole| == 4 && |board| == 5 && ValidCards(hole + board)
    ensures EvaluateOmaha4(hole, board).Ok?
    ensures var best := EvaluateOmaha4(hole, board).value;
      && best.cards in OmahaHands(hole, board) && EvaluateFive(best.cards) == Ok(best)
      && forall two, three :: |two| == 2 && |three| == 3 && Distinct(two) && Distinct(three)
           && (forall c :: c in two ==> c in hole) && (forall c :: c in three ==> c in board)
           ==> EvaluateFive(two + three).Ok? && Compare(best, EvaluateFive(two + three).value) >= 0
  {
    var hands := OmahaHands(hole, board);
    OmahaHandsAreValid(hole, board);
    BestOfHands(hole, board, 4, hands);
    var best := EvaluateOmaha4(hole, board).value;
    var k :| 0 <= k < |hands| && EvaluateFive(hands[k]) == Ok(best);
    assert hands[k] in hands;
    forall two, three | |two| == 2 && |three| == 3 && Distinct(two) && Distinct(three)
        && (forall c :: c in two ==> c in hole) && (forall c :: c in three ==> c in board)
      ensures EvaluateFive(two + three).Ok? && Compare(best, EvaluateFive(two + three).value) >= 0
    {
      BeatsOmaha(hole, board, best, two, three);
    }
  }

  lemma {:induction false} BeatsOmaha(hole: seq<int>, board: seq<int>, best: Evaluation, two: seq<int>, three: seq<int>)
    requires |hole| == 4 && |board| == 5 && ValidCards(hole + board)
    requires forall k :: 0 <= k < |OmahaHands(hole, board)| ==>
      EvaluateFive(OmahaHands(hole, board)[k]).Ok? && Compare(best, EvaluateFive(OmahaHands(hole, board)[k]).value) >= 0
    requires |two| == 2 && |three| == 3 && Distinct(two) && Distinct(three)
    requires (forall c :: c in two ==> c in hole) && (forall c :: c in three ==> c in board)
    ensures EvaluateFive(two + three).Ok? && Compare(best, EvaluateFive(two + three).value) >= 0
  {
    SplitValid(hole, board);
    var i := SomeSelection(hole, two);
    var j := SomeSelection(board, three);
    var hand := Combinations.Combinations(hole, 2)[i] + Combinations.Combinations(board, 3)[j];
    JoinAllMembers(Combinations.Combinations(hole, 2), Combinations.Combinations(board, 3), hand);
    var k :| 0 <= k < |OmahaHands(hole, board)| && OmahaHands(hole, board)[k] == hand;
    forall a, b | 0 <= a < 2 && 0 <= b < 3 ensures two[a] != three[b] {
      assert two[a] in hole && three[b] in board;
    }
    assert Distinct(two + three);
    FiveIsValid(hole + board, two + three);
    assert multiset(hand) == multiset(two + three);
    ScoreIgnoresOrder(hand, two + three);
    SameScoreCompares(EvaluateFive(hand).value, EvaluateFive(two + three).value, best);
  }

  /** Dealing the same cards in another order yields an equally strong hand. */
  lemma {:induction false} HoldemIgnoresOrder(hole: seq<int>, board: seq<int>, hole': seq<int>, board': seq<int>)
    requires |hole| == 2 && |board| == 5 && ValidCards(hole + board)
    requires |hole'| == 2 && |board'| == 5 && ValidCards(hole' + board')
    requires forall c :: c in hole + board <==> c in hole' + board'
    ensures EvaluateHoldem(hole, board).Ok? && EvaluateHoldem(hole', board').Ok?
    ensures Compare(EvaluateHoldem(hole, board).value, EvaluateHoldem(hole', board').value) == 0
  {
    HoldemIsBest(hole, board);
    HoldemIsBest(hole', board');
    var best, best' := EvaluateHoldem(hole, board).value, EvaluateHoldem(hole', board').value;
    CompareIsTotalPreorder(best, best', best);
  }

  lemma {:induction false} OmahaDominates(hole: seq<int>, board: seq<int>, hole': seq<int>, board': seq<int>)
    requires |hole| == 4 && |board| == 5 && ValidCards(hole + board)
    requires |hole'| == 4 && |board'| == 5 && ValidCards(hole' + board')
    requires (forall c :: c in hole' ==> c in hole) && (forall c :: c in board' ==> c in board)
    ensures EvaluateOmaha4(hole, board).Ok? && EvaluateOmaha4(hole', board').Ok?
    ensures Compare(EvaluateOmaha4(hole, board).value, EvaluateOmaha4(hole', board').value) >= 0
  {
    hide EvaluateOmaha4, EvaluateFive, Compare, OmahaHands, ValidCards;
    OmahaIsBest(hole, board);
    OmahaIsBest(hole', board');
    var best' := EvaluateOmaha4(hole', board').value;
    var two, three := OmahaParts(hole', board', best'.cards);
    assert forall c :: c in two ==> c in hole;
    assert forall c :: c in three ==> c in board;
  }

  lemma {:induction false} OmahaParts(hole: seq<int>, board: seq<int>, hand: seq<int>)
    returns (two: seq<int>, three: seq<int>)
    requires ValidCards(hole + board) && hand in OmahaHands(hole, board)
    ensures hand == two + three && |two| == 2 && |three| == 3 && Distinct(two) && Distinct(three)
    ensures (forall c :: c in two ==> c in hole) && (forall c :: c in three ==> c in board)
  {
    SplitValid(hole, board);
    var twos, threes := Combinations.Combinations(hole, 2), Combinations.Combinations(board, 3);
    JoinAllMembers(twos, threes, hand);
    var a, b :| 0 <= a < |twos| && 0 <= b < |threes| && hand == twos[a] + threes[b];
    SelectionIsValid(hole, 2, a);
    SelectionIsValid(board, 3, b);
    two, three := twos[a], threes[b];
  }

  /** In Omaha the order of the hole cards, and of the board, makes no difference either. */
  lemma {:induction false} OmahaIgnoresOrder(hole: seq<int>, board: seq<int>, hole': seq<int>, board': seq<int>)
    requires |hole| == 4 && |board| == 5 && ValidCards(hole + board)
    requires |hole'| == 4 && |board'| == 5 && ValidCards(hole' + board')
    requires (forall c :: c in hole <==> c in hole') && (forall c :: c in board <==> c in board')
    ensures EvaluateOmaha4(hole, board).Ok? && EvaluateOmaha4(hole', board').Ok?
    ensures Compare(EvaluateOmaha4(hole, board).value, EvaluateOmaha4(hole', board').value) == 0
  {
    hide EvaluateOmaha4, ValidCards;
    OmahaDominates(hole, board, hole', board');
    OmahaDominates(hole', board', hole, board);
    var best, best' := EvaluateOmaha4(hole, board).value, EvaluateOmaha4(hole', board').value;
    CompareIsTotalPreorder(best, best', best);
  }
}
