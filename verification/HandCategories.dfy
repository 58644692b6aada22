/** The category assigned to five cards against the rules of poker stated on rank counts. */
module HandCategories {
  import opened Wrappers
  import opened Seqs
  import opened Ledgers
  import opened Evaluator
  import opened BestHand

  function Ranks(cards: seq<int>): seq<nat> { Map(RankOf, cards) }

  /** How many of the cards have this rank. */
  function Times(cards: seq<int>, rank: nat): nat { multiset(Ranks(cards))[rank] }

  ghost predicate SomeRank(cards: seq<int>, times: nat) {
    exists rank: nat :: Times(cards, rank) == times
  }

  ghost predicate TwoPairs(cards: seq<int>) {
    exists high: nat, low: nat :: high != low && Times(cards, high) == 2 && Times(cards, low) == 2
  }

  ghost predicate Straight(cards: seq<int>) {
    Wheel(Ranks(cards)) || exists high :: 4 <= high <= 12 && Run(Ranks(cards), high)
  }

  /** The category by the rules, strongest first. */
  ghost function Category(cards: seq<int>): int {
    if Flush(cards) && Straight(cards) then 8
    else if SomeRank(cards, 4) then 7
    else if SomeRank(cards, 3) && SomeRank(cards, 2) then 6
    else if Flush(cards) then 5
    else if Straight(cards) then 4
    else if SomeRank(cards, 3) then 3
    else if TwoPairs(cards) then 2
    else if SomeRank(cards, 2) then 1
    else 0
  }

  lemma {:induction false} StraightIsFound(ranks: seq<int>, high: int)
    ensures StraightFrom(ranks, high).Some? <==> Wheel(ranks) || exists h :: 4 <= h <= high && Run(ranks, h)
    ensures StraightFrom(ranks, high).Some? ==>
      var top := StraightFrom(ranks, high).value;
      && (if top == 3 then Wheel(ranks) else 4 <= top <= high && Run(ranks, top))
      && forall h :: 4 <= h <= high && Run(ranks, h) ==> h <= top
    decreases high
  {
    if high >= 4 && !Run(ranks, high) {
      StraightIsFound(ranks, high - 1);
    }
  }

  lemma {:induction false} CountsTotal(ranks: seq<nat>)
    ensures Total(RankCounts(ranks)) == |ranks|
  {
    if ranks != [] {
      CountsTotal(ranks[..|ranks| - 1]);
      AddChangesOne(RankCounts(ranks[..|ranks| - 1]), ranks[|ranks| - 1], 1);
    }
  }

  lemma {:induction false} InsertTotal(g: Entry, groups: Ledger)
    ensures Total(InsertGroup(g, groups)) == g.amount + Total(groups)
  {
    if groups != [] && !Before(g, groups[0]) {
      InsertTotal(g, groups[1..]);
    }
  }

  lemma {:induction false} SortTotal(groups: Ledger)
    ensures Total(SortGroups(groups)) == Total(groups)
  {
    if groups != [] {
      SortTotal(groups[1..]);
      InsertTotal(groups[0], SortGroups(groups[1..]));
    }
  }

  lemma {:induction false} OccursAtMost(xs: seq<nat>, x: nat, i: nat)
    requires i < |xs| && xs[i] != x
    ensures multiset(xs)[x] < |xs|
  {
    assert xs == xs[..i] + ([xs[i]] + xs[i + 1..]);
    assert |multiset(xs[..i])| == i && |multiset(xs[i + 1..])| == |xs| - i - 1;
    AtMostSize(multiset(xs[..i]), x);
    AtMostSize(multiset(xs[i + 1..]), x);
  }

  lemma {:induction false} AtMostSize(m: multiset<nat>, x: nat)
    ensures m[x] <= |m|
  {
    var rest := m[x := 0];
    assert m == rest + multiset{}[x := m[x]];
  }

  lemma {:induction false} FiveInFour(a: int, b: int, c: int, d: int, e: int)
    requires 0 <= a < 4 && 0 <= b < 4 && 0 <= c < 4 && 0 <= d < 4 && 0 <= e < 4
    ensures a == b || a == c || a == d || a == e || b == c || b == d || b == e || c == d || c == e || d == e
  {
  }

  /** Different cards of one rank come from different suits, so there are at most four. */
  lemma {:induction false} AtMostFour(cards: seq<int>, rank: nat)
    requires |cards| == 5 && ValidCards(cards)
    ensures Times(cards, rank) <= 4
  {
    var ranks := Ranks(cards);
    var i, j := SameSuitTwice(cards);
    SameSuitOtherRank(cards, i, j);
    OccursAtMost(ranks, rank, if ranks[i] != rank then i else j);
  }

  lemma {:induction false} SameSuitTwice(cards: seq<int>) returns (i: nat, j: nat)
    requires |cards| == 5 && ValidCards(cards)
    ensures i < j < 5 && SuitOf(cards[i]) == SuitOf(cards[j])
  {
    FiveInFour(SuitOf(cards[0]), SuitOf(cards[1]), SuitOf(cards[2]), SuitOf(cards[3]), SuitOf(cards[4]));
    i, j :| 0 <= i < j < 5 && SuitOf(cards[i]) == SuitOf(cards[j]);
  }

  lemma {:induction false} SameSuitOtherRank(cards: seq<int>, i: nat, j: nat)
    requires |cards| == 5 && ValidCards(cards) && i < j < 5 && SuitOf(cards[i]) == SuitOf(cards[j])
    ensures Ranks(cards)[i] != Ranks(cards)[j]
  {
    assert cards[i] != cards[j];
    assert cards[i] == 13 * SuitOf(cards[i]) + RankOf(cards[i]) && cards[j] == 13 * SuitOf(cards[j]) + RankOf(cards[j]);
  }

  /** The groups of five valid cards: which ranks, how often, in order, five cards in all. */
  ghost predicate GroupsOf(cards: seq<int>, groups: Ledger) {
    && BestHand.Ordered(groups)
    && (forall g: Entry :: g in groups <==> g.amount > 0 && g.amount == Times(cards, g.key))
    && (forall i :: 0 <= i < |groups| ==> 1 <= groups[i].amount <= 4)
    && Total(groups) == 5
  }

  lemma {:induction false} GroupsAre(cards: seq<int>)
    requires |cards| == 5 && ValidCards(cards)
    ensures GroupsOf(cards, SortGroups(RankCounts(Ranks(cards))))
  {
    var ranks := Ranks(cards);
    var groups := SortGroups(RankCounts(ranks));
    RanksAreCounted(ranks);
    GroupsAreOrdered(RankCounts(ranks));
    CountsTotal(ranks);
    SortTotal(RankCounts(ranks));
    forall g: Entry ensures g in groups <==> g.amount > 0 && g.amount == Times(cards, g.key) {
      assert g.key in ranks <==> g.key in multiset(ranks);
    }
    forall i | 0 <= i < |groups| ensures 1 <= groups[i].amount <= 4 {
      assert groups[i] in groups;
      AtMostFour(cards, groups[i].key);
    }
  }

  lemma {:induction false} TotalAtLeast(groups: Ledger)
    requires forall i :: 0 <= i < |groups| ==> groups[i].amount >= 1
    ensures Total(groups) >= |groups|
  {
    if groups != [] {
      TotalAtLeast(groups[1..]);
    }
  }

  /** The sizes of the groups, zero beyond the last. */
  ghost predicate HasSizes(groups: Ledger, a: int, b: int, c: int, d: int, e: int) {
    && |groups| == (if b == 0 then 1 else if c == 0 then 2 else if d == 0 then 3 else if e == 0 then 4 else 5)
    && SizeAt(groups, 0) == a && SizeAt(groups, 1) == b && SizeAt(groups, 2) == c
    && SizeAt(groups, 3) == d && SizeAt(groups, 4) == e
  }

  /** The six ways five cards can group by rank. */
  lemma {:induction false} Patterns(groups: Ledger)
    requires BestHand.Ordered(groups) && Total(groups) == 5
    requires forall i :: 0 <= i < |groups| ==> 1 <= groups[i].amount <= 4
    ensures HasSizes(groups, 4, 1, 0, 0, 0) || HasSizes(groups, 3, 2, 0, 0, 0) || HasSizes(groups, 3, 1, 1, 0, 0)
         || HasSizes(groups, 2, 2, 1, 0, 0) || HasSizes(groups, 2, 1, 1, 1, 0) || HasSizes(groups, 1, 1, 1, 1, 1)
  {
    TotalAtLeast(groups);
    OfFive(groups, 2);
    assert forall i :: 0 <= i < |groups| - 1 ==> Before(groups[i], groups[i + 1]);
  }

  function Is(size: int, wanted: int): int { if size == wanted then 1 else 0 }

  lemma {:induction false} OfFive(groups: Ledger, wanted: int)
    requires |groups| <= 5 && wanted != 0
    ensures Total(groups)
        == SizeAt(groups, 0) + SizeAt(groups, 1) + SizeAt(groups, 2) + SizeAt(groups, 3) + SizeAt(groups, 4)
    ensures |RanksOfSize(groups, wanted)| == Is(SizeAt(groups, 0), wanted) + Is(SizeAt(groups, 1), wanted)
      + Is(SizeAt(groups, 2), wanted) + Is(SizeAt(groups, 3), wanted) + Is(SizeAt(groups, 4), wanted)
  {
    if |groups| > 0 { OfFour(groups[1..], wanted); }
  }

  lemma {:induction false} OfFour(groups: Ledger, wanted: int)
    requires |groups| <= 4 && wanted != 0
    ensures Total(groups) == SizeAt(groups, 0) + SizeAt(groups, 1) + SizeAt(groups, 2) + SizeAt(groups, 3)
    ensures |RanksOfSize(groups, wanted)| == Is(SizeAt(groups, 0), wanted) + Is(SizeAt(groups, 1), wanted)
      + Is(SizeAt(groups, 2), wanted) + Is(SizeAt(groups, 3), wanted)
  {
    if |groups| > 0 { OfTwoMore(groups[1..], wanted); }
  }

  lemma {:induction false} OfTwoMore(groups: Ledger, wanted: int)
    requires |groups| <= 3 && wanted != 0
    ensures Total(groups) == SizeAt(groups, 0) + SizeAt(groups, 1) + SizeAt(groups, 2)
    ensures |RanksOfSize(groups, wanted)| == Is(SizeAt(groups, 0), wanted) + Is(SizeAt(groups, 1), wanted)
      + Is(SizeAt(groups, 2), wanted)
  {
    if |groups| > 1 {
      assert Total(groups[1..][1..]) == SizeAt(groups, 2);
      assert |RanksOfSize(groups[1..][1..], wanted)| == Is(SizeAt(groups, 2), wanted);
    }
  }

  /** A group of a given size exists exactly when some rank occurs that often. */
  lemma {:induction false} SizeMeansRank(cards: seq<int>, groups: Ledger, times: nat)
    requires GroupsOf(cards, groups) && times > 0
    ensures SomeRank(cards, times) <==> exists i :: 0 <= i < |groups| && groups[i].amount == times
  {
    if rank: nat :| Times(cards, rank) == times {
      assert Entry(rank, times) in groups;
      var i :| 0 <= i < |groups| && groups[i] == Entry(rank, times);
    }
    if i :| 0 <= i < |groups| && groups[i].amount == times {
      assert groups[i] in groups;
      assert Times(cards, groups[i].key) == times;
    }
  }

  lemma {:induction false} TwoPairsMeansGroups(cards: seq<int>, groups: Ledger)
    requires GroupsOf(cards, groups)
    ensures TwoPairs(cards) <==> exists i, j :: 0 <= i < j < |groups| && groups[i].amount == 2 && groups[j].amount == 2
  {
    if high: nat, low: nat :| high != low && Times(cards, high) == 2 && Times(cards, low) == 2 {
      assert Entry(high, 2) in groups && Entry(low, 2) in groups;
      var i :| 0 <= i < |groups| && groups[i] == Entry(high, 2);
      var j :| 0 <= j < |groups| && groups[j] == Entry(low, 2);
      assert i < j || j < i;
    }
    if i, j :| 0 <= i < j < |groups| && groups[i].amount == 2 && groups[j].amount == 2 {
      assert groups[i] in groups && groups[j] in groups;
      assert Before(groups[i], groups[j]);
      assert Times(cards, groups[i].key) == 2 && Times(cards, groups[j].key) == 2;
    }
  }

  /** Every five different cards get the category the rules of poker give them. */
  lemma {:induction false} CategoryIsRight(cards: seq<int>)
    requires |cards| == 5 && ValidCards(cards)
    ensures Score(cards).0 == Category(cards)
  {
    hide Total, TwoPairs, Add, First, Times;
    var groups := SortGroups(RankCounts(Ranks(cards)));
    GroupsAre(cards);
    StraightIsFound(Ranks(cards), 12);
    SizeMeansRank(cards, groups, 4);
    SizeMeansRank(cards, groups, 3);
    SizeMeansRank(cards, groups, 2);
    TwoPairsMeansGroups(cards, groups);
    ClassifyIsRight(groups, SortDescending(Ranks(cards)), StraightFrom(Ranks(cards), 12), Flush(cards));
  }

  ghost predicate HasSize(groups: Ledger, size: int) {
    exists i :: 0 <= i < |groups| && groups[i].amount == size
  }

  ghost predicate HasTwoPairs(groups: Ledger) {
    exists i, j :: 0 <= i < j < |groups| && groups[i].amount == 2 && groups[j].amount == 2
  }

  lemma {:induction false} ClassifyIsRight(groups: Ledger, sortedRanks: seq<int>, straight: Option<int>, flush: bool)
    requires BestHand.Ordered(groups) && Total(groups) == 5
    requires forall i :: 0 <= i < |groups| ==> 1 <= groups[i].amount <= 4
    ensures Classify(groups, sortedRanks, straight, flush).0 ==
      if flush && straight.Some? then 8
      else if HasSize(groups, 4) then 7
      else if HasSize(groups, 3) && HasSize(groups, 2) then 6
      else if flush then 5
      else if straight.Some? then 4
      else if HasSize(groups, 3) then 3
      else if HasTwoPairs(groups) then 2
      else if HasSize(groups, 2) then 1
      else 0
  {
    Patterns(groups);
    TotalAtLeast(groups);
    OfFive(groups, 2);
    SortKeepsLength(RanksOfSize(groups, 2));
    assert HasSize(groups, SizeAt(groups, 0)) && HasSize(groups, SizeAt(groups, 1));
    if HasSizes(groups, 2, 2, 1, 0, 0) {
      assert groups[0].amount == 2 && groups[1].amount == 2;
    }
  }

  lemma {:induction false} SortKeepsLength(xs: seq<int>)
    ensures |SortDescending(xs)| == |xs|
  {
    SortSorts(xs);
    assert |multiset(SortDescending(xs))| == |SortDescending(xs)| && |multiset(xs)| == |xs|;
  }

  // ----- Tiebreaks -----

  function KeyOf(g: Entry): int { g.key }

  function Keys(groups: Ledger): seq<int> { Map(KeyOf, groups) }

  /** When the groups from `k` to `m` are the ones of this size, their ranks are their keys. */
  lemma {:induction false} RanksOfSlice(groups: Ledger, size: int, k: nat, m: nat)
    requires k <= m <= |groups|
    requires forall i :: 0 <= i < |groups| ==> (groups[i].amount == size <==> k <= i < m)
    ensures RanksOfSize(groups, size) == Keys(groups)[k..m]
  {
    if groups != [] {
      var tail := groups[1..];
      assert Keys(groups) == [KeyOf(groups[0])] + Keys(tail);
      if m == 0 {
        assert forall i :: 0 <= i < |tail| ==> tail[i].amount != size;
        RanksOfSlice(tail, size, 0, 0);
      } else if k == 0 {
        assert groups[0].amount == size;
        RanksOfSlice(tail, size, 0, m - 1);
        assert Keys(groups)[0..m] == [KeyOf(groups[0])] + Keys(tail)[0..m - 1];
      } else {
        assert groups[0].amount != size;
        RanksOfSlice(tail, size, k - 1, m - 1);
        assert Keys(groups)[k..m] == Keys(tail)[k - 1..m - 1];
      }
    }
  }

  /** Ranks of equally large groups are already in descending order. */
  lemma {:induction false} SliceIsSorted(groups: Ledger, size: int, k: nat, m: nat)
    requires BestHand.Ordered(groups) && k <= m <= |groups|
    requires forall i :: k <= i < m ==> groups[i].amount == size
    ensures SortDescending(Keys(groups)[k..m]) == Keys(groups)[k..m]
  {
    var slice: seq<int> := Keys(groups)[k..m];
    forall i, j | 0 <= i < j < |slice| ensures slice[i] >= slice[j] {
      assert Before(groups[k + i], groups[k + j]);
    }
    SortSorts(slice);
    SortedUnique(SortDescending(slice), slice);
  }

  lemma {:induction false} SizedSlice(groups: Ledger, size: int, k: nat, m: nat)
    requires BestHand.Ordered(groups) && k <= m <= |groups|
    requires forall i :: 0 <= i < |groups| ==> (groups[i].amount == size <==> k <= i < m)
    ensures RanksOfSize(groups, size) == Keys(groups)[k..m]
    ensures SortDescending(RanksOfSize(groups, size)) == Keys(groups)[k..m]
  {
    RanksOfSlice(groups, size, k, m);
    SliceIsSorted(groups, size, k, m);
  }

  lemma {:induction false} TiebreakOfPair(groups: Ledger, sortedRanks: seq<int>)
    requires BestHand.Ordered(groups) && HasSizes(groups, 2, 1, 1, 1, 0)
    ensures Classify(groups, sortedRanks, None, false).1 == Keys(groups)
  {
    assert groups[0].amount == 2 && groups[1].amount == 1 && groups[2].amount == 1 && groups[3].amount == 1;
    SizedSlice(groups, 2, 0, 1);
    SizedSlice(groups, 1, 1, 4);
  }

  lemma {:induction false} TiebreakOfTwoPairs(groups: Ledger, sortedRanks: seq<int>)
    requires BestHand.Ordered(groups) && HasSizes(groups, 2, 2, 1, 0, 0)
    ensures Classify(groups, sortedRanks, None, false).1 == Keys(groups)
  {
    assert groups[0].amount == 2 && groups[1].amount == 2 && groups[2].amount == 1;
    SizedSlice(groups, 2, 0, 2);
    SizedSlice(groups, 1, 2, 3);
  }

  lemma {:induction false} TiebreakOfThree(groups: Ledger, sortedRanks: seq<int>)
    requires BestHand.Ordered(groups) && HasSizes(groups, 3, 1, 1, 0, 0)
    ensures Classify(groups, sortedRanks, None, false).1 == Keys(groups)
  {
    assert groups[0].amount == 3 && groups[1].amount == 1 && groups[2].amount == 1;
    SizedSlice(groups, 1, 1, 3);
  }

  lemma {:induction false} TiebreakOfFour(groups: Ledger, sortedRanks: seq<int>)
    requires BestHand.Ordered(groups) && HasSizes(groups, 4, 1, 0, 0, 0)
    ensures Classify(groups, sortedRanks, None, false).1 == Keys(groups)
  {
    assert groups[0].amount == 4 && groups[1].amount == 1;
    SizedSlice(groups, 1, 1, 2);
  }

  lemma {:induction false} TiebreakOfSingles(groups: Ledger, sortedRanks: seq<int>, flush: bool)
    requires BestHand.Ordered(groups) && HasSizes(groups, 1, 1, 1, 1, 1)
    ensures Classify(groups, sortedRanks, None, flush).1 == sortedRanks
    ensures forall i :: 0 <= i < |groups| ==> groups[i].amount == 1
  {
    assert groups[0].amount == 1 && groups[1].amount == 1 && groups[2].amount == 1
        && groups[3].amount == 1 && groups[4].amount == 1;
    SizedSlice(groups, 2, 0, 0);
  }

  /** Without a straight the tiebreak lists the groups' ranks in the groups' own order. */
  lemma {:induction false} TiebreakIsKeys(groups: Ledger, sortedRanks: seq<int>, flush: bool)
    requires BestHand.Ordered(groups) && Total(groups) == 5
    requires forall i :: 0 <= i < |groups| ==> 1 <= groups[i].amount <= 4
    requires flush ==> forall i :: 0 <= i < |groups| ==> groups[i].amount == 1
    requires (forall i :: 0 <= i < |groups| ==> groups[i].amount == 1) ==> sortedRanks == Keys(groups)
    ensures Classify(groups, sortedRanks, None, flush).1 == Keys(groups)
  {
    Patterns(groups);
    assert groups[0].amount == SizeAt(groups, 0);
    if HasSizes(groups, 4, 1, 0, 0, 0) {
      TiebreakOfFour(groups, sortedRanks);
    } else if HasSizes(groups, 3, 2, 0, 0, 0) {
      assert groups[1].amount == 2 && Keys(groups) == [KeyAt(groups, 0), KeyAt(groups, 1)];
    } else if HasSizes(groups, 3, 1, 1, 0, 0) {
      TiebreakOfThree(groups, sortedRanks);
    } else if HasSizes(groups, 2, 2, 1, 0, 0) {
      TiebreakOfTwoPairs(groups, sortedRanks);
    } else if HasSizes(groups, 2, 1, 1, 1, 0) {
      TiebreakOfPair(groups, sortedRanks);
    } else {
      TiebreakOfSingles(groups, sortedRanks, flush);
    }
  }

  lemma {:induction false} FlushIsSingles(cards: seq<int>, groups: Ledger)
    requires |cards| == 5 && ValidCards(cards) && Flush(cards) && GroupsOf(cards, groups)
    ensures forall i :: 0 <= i < |groups| ==> groups[i].amount == 1
  {
    var ranks := Ranks(cards);
    forall i | 0 <= i < |groups| ensures groups[i].amount == 1 {
      assert groups[i] in groups;
      forall a, b | 0 <= a < b < 5 ensures ranks[a] != ranks[b] {
        assert cards[a] == 13 * SuitOf(cards[a]) + ranks[a] && cards[b] == 13 * SuitOf(cards[b]) + ranks[b];
      }
      DistinctOnce(ranks, groups[i].key);
    }
  }

  lemma {:induction false} DistinctOnce(xs: seq<nat>, x: nat)
    requires Distinct(xs)
    ensures multiset(xs)[x] <= 1
  {
    if xs != [] {
      assert xs == [xs[0]] + xs[1..];
      DistinctOnce(xs[1..], x);
      assert xs[0] !in xs[1..];
    }
  }

  lemma {:induction false} RanksAreKeys(cards: seq<int>, groups: Ledger, r: int)
    requires |cards| == 5 && ValidCards(cards) && GroupsOf(cards, groups)
    ensures r in Ranks(cards) <==> r in Keys(groups)
  {
    var ranks: seq<int>, keys := Ranks(cards), Keys(groups);
    assert r in ranks <==> r in multiset(ranks);
    if r in ranks {
      assert Entry(r, Times(cards, r)) in groups;
      var i :| 0 <= i < |groups| && groups[i] == Entry(r, Times(cards, r));
      assert keys[i] == r;
    }
    if r in keys {
      var i :| 0 <= i < |keys| && keys[i] == r;
      assert groups[i] in groups;
    }
  }

  lemma {:induction false} SingleTimes(cards: seq<int>, groups: Ledger, r: int)
    requires |cards| == 5 && ValidCards(cards) && GroupsOf(cards, groups)
    requires forall i :: 0 <= i < |groups| ==> groups[i].amount == 1
    ensures var ranks: seq<int> := Ranks(cards); multiset(ranks)[r] == if r in ranks then 1 else 0
  {
    var ranks: seq<int> := Ranks(cards);
    if r in ranks {
      assert r in multiset(ranks);
      assert Entry(r, Times(cards, r)) in groups;
      var i :| 0 <= i < |groups| && groups[i] == Entry(r, Times(cards, r));
    }
  }

  lemma {:induction false} SinglesAreSorted(cards: seq<int>, groups: Ledger)
    requires |cards| == 5 && ValidCards(cards) && GroupsOf(cards, groups)
    requires forall i :: 0 <= i < |groups| ==> groups[i].amount == 1
    ensures SortDescending(Ranks(cards)) == Keys(groups)
  {
    var ranks: seq<int>, keys := Ranks(cards), Keys(groups);
    forall i, j | 0 <= i < j < |keys| ensures keys[i] > keys[j] {
      assert Before(groups[i], groups[j]);
    }
    forall r: int ensures multiset(ranks)[r] == multiset(keys)[r] {
      SingleTimes(cards, groups, r);
      RanksAreKeys(cards, groups, r);
      KeysOccurOnce(keys, r);
    }
    assert multiset(ranks) == multiset(keys);
    SortSorts(ranks);
    SortedUnique(SortDescending(ranks), keys);
  }

  lemma {:induction false} KeysOccurOnce(keys: seq<int>, r: int)
    requires forall i, j :: 0 <= i < j < |keys| ==> keys[i] > keys[j]
    ensures multiset(keys)[r] == if r in keys then 1 else 0
  {
    if keys != [] {
      assert keys == [keys[0]] + keys[1..];
      KeysOccurOnce(keys[1..], r);
      assert keys[0] !in keys[1..];
    }
  }

  /** The ranks in play, each once, more frequent ranks first and higher ranks first among those. */
  ghost predicate RanksByImportance(cards: seq<int>, tiebreak: seq<int>) {
    && (forall rank: nat :: rank in tiebreak <==> Times(cards, rank) > 0)
    && (forall i :: 0 <= i < |tiebreak| ==> tiebreak[i] >= 0)
    && forall i, j :: 0 <= i < j < |tiebreak| ==>
         || Times(cards, tiebreak[i]) > Times(cards, tiebreak[j])
         || (Times(cards, tiebreak[i]) == Times(cards, tiebreak[j]) && tiebreak[i] > tiebreak[j])
  }

  /**
   * Ties are broken by the rules: a straight by its highest card, the wheel lowest; anything else
   * by the ranks in play, more frequent first, then higher first.
   */
  lemma {:induction false} TiebreakIsRight(cards: seq<int>)
    requires |cards| == 5 && ValidCards(cards)
    ensures var (category, tiebreak) := Score(cards);
      && (category in {4, 8} ==>
            && |tiebreak| == 1
            && (if tiebreak[0] == 3 then Wheel(Ranks(cards))
                else 4 <= tiebreak[0] <= 12 && Run(Ranks(cards), tiebreak[0]))
            && forall high :: 4 <= high <= 12 && Run(Ranks(cards), high) ==> high <= tiebreak[0])
      && (category !in {4, 8} ==> RanksByImportance(cards, tiebreak))
  {
    var groups := SortGroups(RankCounts(Ranks(cards)));
    GroupsAre(cards);
    StraightIsFound(Ranks(cards), 12);
    if Flush(cards) {
      FlushIsSingles(cards, groups);
    }
    if forall i :: 0 <= i < |groups| ==> groups[i].amount == 1 {
      SinglesAreSorted(cards, groups);
    }
    var straight := StraightFrom(Ranks(cards), 12);
    ClassifyIsRight(groups, SortDescending(Ranks(cards)), straight, Flush(cards));
    if Score(cards).0 !in {4, 8} {
      WithoutStraight(groups, SortDescending(Ranks(cards)), straight, Flush(cards));
      TiebreakIsKeys(groups, SortDescending(Ranks(cards)), Flush(cards));
      KeysByImportance(cards, groups);
    }
  }

  lemma {:induction false} WithoutStraight(groups: Ledger, sortedRanks: seq<int>, straight: Option<int>, flush: bool)
    requires Classify(groups, sortedRanks, straight, flush).0 !in {4, 8}
    ensures Classify(groups, sortedRanks, straight, flush) == Classify(groups, sortedRanks, None, flush)
  {
  }

  lemma {:induction false} KeysByImportance(cards: seq<int>, groups: Ledger)
    requires GroupsOf(cards, groups)
    ensures RanksByImportance(cards, Keys(groups))
  {
    var keys := Keys(groups);
    forall rank: nat ensures rank in keys <==> Times(cards, rank) > 0 {
      if rank in keys {
        var i :| 0 <= i < |keys| && keys[i] == rank;
        assert groups[i] in groups;
      }
      if Times(cards, rank) > 0 {
        assert Entry(rank, Times(cards, rank)) in groups;
        var i :| 0 <= i < |groups| && groups[i] == Entry(rank, Times(cards, rank));
        assert keys[i] == rank;
      }
    }
    forall i, j | 0 <= i < j < |keys|
      ensures Times(cards, keys[i]) > Times(cards, keys[j])
           || (Times(cards, keys[i]) == Times(cards, keys[j]) && keys[i] > keys[j])
    {
      assert groups[i] in groups && groups[j] in groups;
      assert Before(groups[i], groups[j]);
    }
  }
}
