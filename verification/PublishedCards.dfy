/**
 * The evaluator ranks card ids; the dealer publishes ranks and suits for the same ids
 * (cardFromId of fairness/protocol.js). Both mean the same cards, and the strength of hands is the usual
 * one on the published characters.
 */
module PublishedCards {
  import opened Evaluator
  import opened Evaluations
  import opened HandCategories
  import D = DeckMerkle

  /** The ranks from the lowest to the highest, as printed on the cards. */
  const ORDER := "23456789TJQKA"

  /** The ranks as they can follow each other in a straight; the ace is below the deuce as well. */
  const LADDER := "A23456789TJQKA"

  predicate CardId(id: int) { 0 <= id < 52 }

  function RankChar(id: int): char
    requires CardId(id)
  {
    D.CardFromId(id).value.rank
  }

  function SuitName(id: int): string
    requires CardId(id)
  {
    D.CardFromId(id).value.suit
  }

  /** Where a rank stands in the order. */
  ghost predicate Stands(rank: char, place: int) { 0 <= place < 13 && ORDER[place] == rank }

  ghost predicate Earlier(a: char, b: char) {
    exists i, j :: Stands(a, i) && Stands(b, j) && i < j
  }

  // ----- The same cards -----

  lemma {:induction false} RankStands(id: int)
    requires CardId(id)
    ensures Stands(RankChar(id), RankOf(id))
    ensures forall i :: Stands(RankChar(id), i) ==> i == RankOf(id)
  {
    assert ORDER == D.RANKS;
    PlacesDiffer(RankOf(id));
  }

  lemma {:induction false} PlacesDiffer(place: int)
    requires 0 <= place < 13
    ensures forall i :: 0 <= i < 13 && ORDER[i] == ORDER[place] ==> i == place
  {
  }

  lemma {:induction false} SuitsDiffer(a: int, b: int)
    requires 0 <= a < 4 && 0 <= b < 4 && a != b
    ensures D.SUITS[a] != D.SUITS[b]
  {
    assert D.SUITS[0][0] == 'c' && D.SUITS[1][0] == 'd' && D.SUITS[2][0] == 'h' && D.SUITS[3][0] == 's';
    assert D.SUITS[a][0] != D.SUITS[b][0];
  }

  /** The evaluator's rank is lower exactly if the published one comes earlier, and the suits agree. */
  lemma {:induction false} RanksArePublished(a: int, b: int)
    requires CardId(a) && CardId(b)
    ensures RankOf(a) < RankOf(b) <==> Earlier(RankChar(a), RankChar(b))
    ensures RankOf(a) == RankOf(b) <==> RankChar(a) == RankChar(b)
    ensures SuitOf(a) == SuitOf(b) <==> SuitName(a) == SuitName(b)
  {
    RankStands(a);
    RankStands(b);
    if a / 13 != b / 13 {
      SuitsDiffer(a / 13, b / 13);
    }
  }

  // ----- Straights and flushes on the published cards -----

  ghost predicate ShowsRank(cards: seq<int>, rank: char) {
    exists i :: 0 <= i < |cards| && CardId(cards[i]) && RankChar(cards[i]) == rank
  }

  /** Five ranks in a row of the ladder, from the given rung on. */
  ghost predicate ShowsRow(cards: seq<int>, rung: nat)
    requires rung <= 9
  {
    && ShowsRank(cards, LADDER[rung]) && ShowsRank(cards, LADDER[rung + 1]) && ShowsRank(cards, LADDER[rung + 2])
    && ShowsRank(cards, LADDER[rung + 3]) && ShowsRank(cards, LADDER[rung + 4])
  }

  ghost predicate OneSuit(cards: seq<int>) {
    forall i, j :: 0 <= i < j < |cards| && CardId(cards[i]) && CardId(cards[j]) ==>
      SuitName(cards[i]) == SuitName(cards[j])
  }

  lemma {:induction false} ShowsIsRank(cards: seq<int>, place: nat)
    requires ValidCards(cards) && place < 13
    ensures ShowsRank(cards, ORDER[place]) <==> place in Ranks(cards)
  {
    if ShowsRank(cards, ORDER[place]) {
      var i :| 0 <= i < |cards| && CardId(cards[i]) && RankChar(cards[i]) == ORDER[place];
      RankStands(cards[i]);
      assert Stands(RankChar(cards[i]), place);
      assert Ranks(cards)[i] == place;
    }
    if place in Ranks(cards) {
      var i :| 0 <= i < |cards| && Ranks(cards)[i] == place;
      RankStands(cards[i]);
    }
  }

  lemma {:induction false} LadderIsOrder(rung: nat)
    requires rung < 14
    ensures LADDER[rung] == if rung == 0 then ORDER[12] else ORDER[rung - 1]
  {
  }

  lemma {:induction false} RungIsShown(cards: seq<int>, rung: nat)
    requires ValidCards(cards) && rung < 14
    ensures ShowsRank(cards, LADDER[rung]) <==> (if rung == 0 then 12 else rung - 1) in Ranks(cards)
  {
    LadderIsOrder(rung);
    ShowsIsRank(cards, if rung == 0 then 12 else rung - 1);
  }

  /** A row ends at the rank four above its start; the lowest is ace to five. */
  lemma {:induction false} RowIsRun(cards: seq<int>, rung: nat)
    requires ValidCards(cards) && rung <= 9
    ensures ShowsRow(cards, rung) <==> if rung == 0 then Wheel(Ranks(cards)) else Run(Ranks(cards), rung + 3)
  {
    hide ShowsRank, Ranks;
    RungIsShown(cards, rung);
    RungIsShown(cards, rung + 1);
    RungIsShown(cards, rung + 2);
    RungIsShown(cards, rung + 3);
    RungIsShown(cards, rung + 4);
  }

  lemma {:induction false} SuitIsFlush(cards: seq<int>)
    requires ValidCards(cards)
    ensures OneSuit(cards) <==> Flush(cards)
  {
    forall i, j | 0 <= i < j < |cards|
      ensures SuitName(cards[i]) == SuitName(cards[j]) <==> SuitOf(cards[i]) == SuitOf(cards[j])
    {
      RanksArePublished(cards[i], cards[j]);
    }
  }

  // ----- Kinds of hands on the published cards -----

  /** The published ranks of the cards. */
  function RankChars(cards: seq<int>): (r: string)
    requires forall i :: 0 <= i < |cards| ==> CardId(cards[i])
    ensures |r| == |cards|
  {
    seq(|cards|, i requires 0 <= i < |cards| => RankChar(cards[i]))
  }

  /** How many of the cards show the rank. */
  function Shown(cards: seq<int>, rank: char): nat
    requires forall i :: 0 <= i < |cards| ==> CardId(cards[i])
  {
    multiset(RankChars(cards))[rank]
  }

  /** Two sequences with the marked elements at the same places have equally many. */
  lemma {:induction false} SameCount(s: string, c: char, ranks: seq<nat>, r: nat)
    requires |s| == |ranks| && forall i :: 0 <= i < |s| ==> (s[i] == c <==> ranks[i] == r)
    ensures multiset(s)[c] == multiset(ranks)[r]
  {
    if s != [] {
      var n := |s| - 1;
      SameCount(s[..n], c, ranks[..n], r);
      assert s == s[..n] + [s[n]] && ranks == ranks[..n] + [ranks[n]];
    }
  }

  lemma {:induction false} ShownIsTimes(cards: seq<int>, place: nat)
    requires (forall i :: 0 <= i < |cards| ==> CardId(cards[i])) && place < 13
    ensures Shown(cards, ORDER[place]) == Times(cards, place)
  {
    forall i | 0 <= i < |cards| ensures RankChars(cards)[i] == ORDER[place] <==> Ranks(cards)[i] == place {
      RankStands(cards[i]);
      assert RankChar(cards[i]) == ORDER[place] ==> Stands(RankChar(cards[i]), place);
    }
    SameCount(RankChars(cards), ORDER[place], Ranks(cards), place);
  }

  ghost predicate SomeShown(cards: seq<int>, times: nat)
    requires forall i :: 0 <= i < |cards| ==> CardId(cards[i])
  {
    exists rank :: Shown(cards, rank) == times
  }

  ghost predicate TwoShownTwice(cards: seq<int>)
    requires forall i :: 0 <= i < |cards| ==> CardId(cards[i])
  {
    exists one, other :: one != other && Shown(cards, one) == 2 && Shown(cards, other) == 2
  }

  ghost predicate SomeRow(cards: seq<int>) { exists rung: nat :: rung <= 9 && ShowsRow(cards, rung) }

  /** The kinds of hands from straight flush and four of a kind down to the high card. */
  ghost function Kind(cards: seq<int>): int
    requires forall i :: 0 <= i < |cards| ==> CardId(cards[i])
  {
    if OneSuit(cards) && SomeRow(cards) then 8
    else if SomeShown(cards, 4) then 7
    else if SomeShown(cards, 3) && SomeShown(cards, 2) then 6
    else if OneSuit(cards) then 5
    else if SomeRow(cards) then 4
    else if SomeShown(cards, 3) then 3
    else if TwoShownTwice(cards) then 2
    else if SomeShown(cards, 2) then 1
    else 0
  }

  /** Only published ranks are shown. */
  lemma {:induction false} ShownHasPlace(cards: seq<int>, rank: char) returns (place: nat)
    requires (forall i :: 0 <= i < |cards| ==> CardId(cards[i])) && Shown(cards, rank) > 0
    ensures place < 13 && ORDER[place] == rank && Times(cards, place) == Shown(cards, rank)
  {
    assert rank in RankChars(cards);
    var i :| 0 <= i < |cards| && RankChars(cards)[i] == rank;
    RankStands(cards[i]);
    place := RankOf(cards[i]);
    ShownIsTimes(cards, place);
  }

  lemma {:induction false} TimesHasPlace(cards: seq<int>, rank: nat)
    requires (forall i :: 0 <= i < |cards| ==> CardId(cards[i])) && Times(cards, rank) > 0
    ensures rank < 13 && Shown(cards, ORDER[rank]) == Times(cards, rank)
  {
    assert rank in Ranks(cards);
    var i :| 0 <= i < |cards| && Ranks(cards)[i] == rank;
    ShownIsTimes(cards, rank);
  }

  lemma {:induction false} SomeShownIsRank(cards: seq<int>, times: nat)
    requires (forall i :: 0 <= i < |cards| ==> CardId(cards[i])) && times > 0
    ensures SomeShown(cards, times) <==> SomeRank(cards, times)
  {
    if SomeShown(cards, times) {
      var rank :| Shown(cards, rank) == times;
      var place := ShownHasPlace(cards, rank);
    }
    if SomeRank(cards, times) {
      var rank: nat :| Times(cards, rank) == times;
      TimesHasPlace(cards, rank);
    }
  }

  lemma {:induction false} TwoShownIsPairs(cards: seq<int>)
    requires forall i :: 0 <= i < |cards| ==> CardId(cards[i])
    ensures TwoShownTwice(cards) <==> TwoPairs(cards)
  {
    hide Shown, Times;
    if TwoShownTwice(cards) {
      var one, other :| one != other && Shown(cards, one) == 2 && Shown(cards, other) == 2;
      var place := ShownHasPlace(cards, one);
      var place' := ShownHasPlace(cards, other);
    }
    if TwoPairs(cards) {
      var high: nat, low: nat :| high != low && Times(cards, high) == 2 && Times(cards, low) == 2;
      TimesHasPlace(cards, high);
      TimesHasPlace(cards, low);
      PlacesDiffer(high);
    }
  }

  lemma {:induction false} RowIsStraight(cards: seq<int>)
    requires ValidCards(cards)
    ensures SomeRow(cards) <==> Straight(cards)
  {
    hide ShowsRow, Run, Wheel, Ranks;
    forall rung: nat | rung <= 9
      ensures ShowsRow(cards, rung) <==> if rung == 0 then Wheel(Ranks(cards)) else Run(Ranks(cards), rung + 3)
    {
      RowIsRun(cards, rung);
    }
    if Wheel(Ranks(cards)) {
      assert ShowsRow(cards, 0);
    } else if high :| 4 <= high <= 12 && Run(Ranks(cards), high) {
      assert ShowsRow(cards, high - 3);
    }
  }

  /** The evaluator's category is the kind of the published cards. */
  lemma {:induction false} CategoryIsPublished(cards: seq<int>)
    requires |cards| == 5 && ValidCards(cards)
    ensures EvaluateFive(cards).Ok? && EvaluateFive(cards).value.category == Kind(cards)
  {
    hide Score, Straight, SomeRow, OneSuit, Flush, SomeShown, SomeRank, TwoPairs, TwoShownTwice;
    CategoryIsRight(cards);
    RowIsStraight(cards);
    SuitIsFlush(cards);
    SomeShownIsRank(cards, 4);
    SomeShownIsRank(cards, 3);
    SomeShownIsRank(cards, 2);
    TwoShownIsPairs(cards);
  }

  // ----- Which of two hands wins -----

  ghost function Contest(a: seq<int>, b: seq<int>): int
    requires EvaluateFive(a).Ok? && EvaluateFive(b).Ok?
  {
    Compare(EvaluateFive(a).value, EvaluateFive(b).value)
  }

  /** The better kind wins. */
  lemma {:induction false} BetterKindWins(a: seq<int>, b: seq<int>)
    requires |a| == |b| == 5 && ValidCards(a) && ValidCards(b) && Kind(a) > Kind(b)
    ensures EvaluateFive(a).Ok? && EvaluateFive(b).Ok? && Contest(a, b) == 1 && Contest(b, a) == -1
  {
    hide EvaluateFive, Kind;
    CategoryIsPublished(a);
    CategoryIsPublished(b);
  }

  lemma {:induction false} RanksBound(ranks: seq<nat>, some: set<nat>)
    requires forall r :: r in some ==> r in ranks
    ensures |some| <= |ranks|
  {
    if ranks == [] {
      assert some == {};
    } else {
      var last, front := ranks[|ranks| - 1], ranks[..|ranks| - 1];
      forall r | r in some - {last} ensures r in front {
        var i :| 0 <= i < |ranks| && ranks[i] == r;
        assert front[i] == r;
      }
      RanksBound(front, some - {last});
    }
  }

  function PlaceOfRung(rung: nat): nat { if rung == 0 then 12 else rung - 1 }

  /** Five cards show one row only. */
  lemma {:induction false} OneRow(cards: seq<int>, rung: nat, other: nat)
    requires |cards| == 5 && ValidCards(cards) && rung <= 9 && other <= 9
    requires ShowsRow(cards, rung) && ShowsRow(cards, other)
    ensures rung == other
  {
    hide ShowsRank, Ranks;
    if rung < other {
      RowsClash(cards, rung, other);
    } else if other < rung {
      RowsClash(cards, other, rung);
    }
  }

  lemma {:induction false} RowsClash(cards: seq<int>, low: nat, high: nat)
    requires |cards| == 5 && ValidCards(cards) && low < high <= 9 && ShowsRow(cards, low)
    ensures !ShowsRow(cards, high)
  {
    hide ShowsRank, ShowsRow, ValidCards, RowRanks;
    if ShowsRow(cards, high) {
      RowIsRanked(cards, low);
      RowIsRanked(cards, high);
      var extra := OneMore(low, high);
      RanksBound(Ranks(cards), RowRanks(low) + {extra});
    }
  }

  /** The evaluator's ranks of a row. */
  function RowRanks(rung: nat): set<nat> { {PlaceOfRung(rung), rung, rung + 1, rung + 2, rung + 3} }

  lemma {:induction false} RowIsRanked(cards: seq<int>, rung: nat)
    requires ValidCards(cards) && rung <= 9 && ShowsRow(cards, rung)
    ensures |RowRanks(rung)| == 5 && forall r :: r in RowRanks(rung) ==> r in Ranks(cards)
  {
    hide ShowsRank, Ranks, ValidCards;
    RungIsShown(cards, rung);
    RungIsShown(cards, rung + 1);
    RungIsShown(cards, rung + 2);
    RungIsShown(cards, rung + 3);
    RungIsShown(cards, rung + 4);
  }

  /** A higher row has a rank the lower one lacks. */
  lemma {:induction false} OneMore(low: nat, high: nat) returns (extra: nat)
    requires low < high <= 9
    ensures extra in RowRanks(high) && extra !in RowRanks(low)
  {
    extra := if low == 0 && high == 9 then 11 else high + 3;
  }

  /** The tiebreak of a straight is the row it shows. */
  lemma {:induction false} StraightTiebreak(cards: seq<int>, rung: nat)
    requires |cards| == 5 && ValidCards(cards) && rung <= 9 && ShowsRow(cards, rung)
    ensures Kind(cards) in {4, 8} ==> EvaluateFive(cards).Ok? && EvaluateFive(cards).value.tiebreak == [rung + 3]
  {
    hide ShowsRow, Run, Wheel, Ranks, Kind, OneSuit;
    CategoryIsPublished(cards);
    TiebreakIsRight(cards);
    if Kind(cards) in {4, 8} {
      var top := Score(cards).1[0];
      RowIsRun(cards, top - 3);
      OneRow(cards, rung, top - 3);
    }
  }

  /** Straights of the same kind are decided by where their rows lie, so ace to five is the lowest. */
  lemma {:induction false} StraightsByRow(a: seq<int>, b: seq<int>, rung: nat, other: nat)
    requires |a| == |b| == 5 && ValidCards(a) && ValidCards(b) && rung <= 9 && other <= 9
    requires ShowsRow(a, rung) && ShowsRow(b, other) && (OneSuit(a) <==> OneSuit(b))
    ensures EvaluateFive(a).Ok? && EvaluateFive(b).Ok? && Contest(a, b) == Sign(rung - other)
  {
    hide ShowsRow, OneSuit, EvaluateFive;
    RowKind(a, rung);
    RowKind(b, other);
    CategoryIsPublished(a);
    CategoryIsPublished(b);
    StraightTiebreak(a, rung);
    StraightTiebreak(b, other);
    CompareSingles(rung + 3, other + 3);
  }

  lemma {:induction false} CompareSingles(a: int, b: int)
    ensures CompareFrom([a], [b], 0) == Sign(a - b)
  {
    assert CompareFrom([a], [b], 1) == 0;
  }

  lemma {:induction false} RowKind(cards: seq<int>, rung: nat)
    requires |cards| == 5 && ValidCards(cards) && rung <= 9 && ShowsRow(cards, rung)
    ensures Kind(cards) == if OneSuit(cards) then 8 else 4
  {
    hide ShowsRow, OneSuit, SomeShown, TwoShownTwice;
    assert SomeRow(cards);
    NoRepeats(cards, rung, 4);
    NoRepeats(cards, rung, 3);
  }

  /** A row shows five different ranks, so none of them repeatedly. */
  lemma {:induction false} NoRepeats(cards: seq<int>, rung: nat, times: nat)
    requires |cards| == 5 && ValidCards(cards) && rung <= 9 && ShowsRow(cards, rung) && times >= 2
    ensures !SomeShown(cards, times)
  {
    if SomeShown(cards, times) {
      var rank :| Shown(cards, rank) == times;
      var i, j := Twice(RankChars(cards), rank);
      FourRanks(cards, rung, i, j);
    }
  }

  lemma {:induction false} Twice(s: string, c: char) returns (i: nat, j: nat)
    requires multiset(s)[c] >= 2
    ensures i < j < |s| && s[i] == s[j] == c
  {
    assert c in s;
    i :| 0 <= i < |s| && s[i] == c;
    var rest := s[..i] + s[i + 1..];
    assert s == s[..i] + [s[i]] + s[i + 1..];
    assert multiset(s) == multiset(rest) + multiset{c};
    assert c in rest;
    var k :| 0 <= k < |rest| && rest[k] == c;
    if k < i {
      i, j := k, i;
    } else {
      j := k + 1;
    }
  }

  lemma {:induction false} FourRanks(cards: seq<int>, rung: nat, i: nat, j: nat)
    requires |cards| == 5 && ValidCards(cards) && rung <= 9 && ShowsRow(cards, rung)
    requires i < j < 5
    ensures RankChar(cards[i]) != RankChar(cards[j])
  {
    hide ShowsRank, ShowsRow, RowRanks;
    RanksArePublished(cards[i], cards[j]);
    RowIsRanked(cards, rung);
    FiveNeedFive(Ranks(cards), RowRanks(rung), i, j);
  }

  lemma {:induction false} FiveNeedFive(ranks: seq<nat>, five: set<nat>, i: nat, j: nat)
    requires |ranks| == 5 && |five| == 5 && forall r :: r in five ==> r in ranks
    requires i < j < 5
    ensures ranks[i] != ranks[j]
  {
    if ranks[i] == ranks[j] {
      var fewer := ranks[..j] + ranks[j + 1..];
      forall r | r in five ensures r in fewer {
        var k :| 0 <= k < 5 && ranks[k] == r;
        var k' := if k == j then i else k;
        assert fewer[if k' < j then k' else k' - 1] == r;
      }
      RanksBound(fewer, five);
    }
  }

  /** Nothing beats five cards of one suit from ten to ace. */
  lemma {:induction false} RoyalFlushIsUnbeaten(royal: seq<int>, other: seq<int>)
    requires |royal| == |other| == 5 && ValidCards(royal) && ValidCards(other)
    requires OneSuit(royal) && ShowsRow(royal, 9)
    ensures EvaluateFive(royal).Ok? && EvaluateFive(other).Ok? && Contest(royal, other) >= 0
  {
    hide ShowsRow, OneSuit, EvaluateFive;
    RowKind(royal, 9);
    CategoryIsPublished(royal);
    CategoryIsPublished(other);
    if Kind(other) == 8 {
      var rung: nat :| rung <= 9 && ShowsRow(other, rung);
      StraightsByRow(royal, other, 9, rung);
    }
  }

  // ----- Kickers -----

  /** The published ranks in play, each once: more frequent ranks first, later ranks first among those. */
  ghost predicate ByImportance(cards: seq<int>, list: string)
    requires forall i :: 0 <= i < |cards| ==> CardId(cards[i])
  {
    && (forall rank :: rank in list <==> Shown(cards, rank) > 0)
    && forall i, j :: 0 <= i < j < |list| ==>
      || Shown(cards, list[i]) > Shown(cards, list[j])
      || (Shown(cards, list[i]) == Shown(cards, list[j]) && Earlier(list[j], list[i]))
  }

  lemma {:induction false} EarlierIsLess(a: nat, b: nat)
    requires a < 13 && b < 13
    ensures Earlier(ORDER[a], ORDER[b]) <==> a < b
  {
    PlacesDiffer(a);
    PlacesDiffer(b);
    assert Stands(ORDER[a], a) && Stands(ORDER[b], b);
  }

  /** The tiebreak of any other hand, as characters, is its list of ranks by importance. */
  lemma {:induction false} TiebreakIsList(cards: seq<int>, list: string)
    requires |cards| == 5 && ValidCards(cards) && Kind(cards) !in {4, 8} && ByImportance(cards, list)
    ensures EvaluateFive(cards).Ok?
    ensures var tiebreak := EvaluateFive(cards).value.tiebreak;
      |tiebreak| == |list| && forall i :: 0 <= i < |list| ==> 0 <= tiebreak[i] < 13 && ORDER[tiebreak[i]] == list[i]
  {
    hide Kind, Shown, Times, Earlier, Score;
    CategoryIsPublished(cards);
    TiebreakIsRight(cards);
    var tiebreak := Score(cards).1;
    var places := PlacesOf(cards, list);
    PlacesByImportance(cards, list, places);
    SameOrder(cards, tiebreak, places);
  }

  lemma {:induction false} PlacesOf(cards: seq<int>, list: string) returns (places: seq<int>)
    requires forall i :: 0 <= i < |cards| ==> CardId(cards[i])
    requires forall i :: 0 <= i < |list| ==> Shown(cards, list[i]) > 0
    ensures |places| == |list|
    ensures forall i :: 0 <= i < |list| ==>
      0 <= places[i] < 13 && ORDER[places[i]] == list[i] && Times(cards, places[i]) == Shown(cards, list[i])
  {
    hide Shown, Times;
    if list == [] {
      places := [];
    } else {
      var front := PlacesOf(cards, list[..|list| - 1]);
      var place := ShownHasPlace(cards, list[|list| - 1]);
      places := front + [place];
    }
  }

  lemma {:induction false} PlacesByImportance(cards: seq<int>, list: string, places: seq<int>)
    requires ValidCards(cards) && ByImportance(cards, list) && |places| == |list|
    requires forall i :: 0 <= i < |list| ==>
      0 <= places[i] < 13 && ORDER[places[i]] == list[i] && Times(cards, places[i]) == Shown(cards, list[i])
    ensures RanksByImportance(cards, places)
  {
    hide Shown, Times, Earlier;
    forall rank: nat ensures rank in places <==> Times(cards, rank) > 0 {
      if rank in places {
        var i :| 0 <= i < |places| && places[i] == rank;
        assert list[i] in list;
      }
      if Times(cards, rank) > 0 {
        TimesHasPlace(cards, rank);
        assert ORDER[rank] in list;
        var i :| 0 <= i < |list| && list[i] == ORDER[rank];
        PlacesDiffer(rank);
        assert places[i] == rank;
      }
    }
    forall i, j | 0 <= i < j < |places|
      ensures Times(cards, places[i]) > Times(cards, places[j])
           || (Times(cards, places[i]) == Times(cards, places[j]) && places[i] > places[j])
    {
      EarlierIsLess(places[j], places[i]);
    }
  }

  /** There is only one order by importance. */
  lemma {:induction false} SameOrder(cards: seq<int>, a: seq<int>, b: seq<int>)
    requires RanksByImportance(cards, a) && RanksByImportance(cards, b)
    ensures a == b
  {
    hide Times;
    SameFrom(cards, a, b, 0);
  }

  lemma {:induction false} SameFrom(cards: seq<int>, a: seq<int>, b: seq<int>, k: nat)
    requires RanksByImportance(cards, a) && RanksByImportance(cards, b)
    requires k <= |a| && k <= |b| && a[..k] == b[..k]
    ensures a == b
    decreases |a| - k
  {
    hide Times;
    if k < |a| && k < |b| {
      FirstIsShared(cards, a, b, k);
      FirstIsShared(cards, b, a, k);
      SameFrom(cards, a, b, k + 1);
    } else if k < |a| {
      NothingLeft(cards, b, a, k);
    } else if k < |b| {
      NothingLeft(cards, a, b, k);
    } else {
      assert a == a[..k] && b == b[..k];
    }
  }

  /** The next rank of one list comes no earlier in the other. */
  lemma {:induction false} FirstIsShared(cards: seq<int>, a: seq<int>, b: seq<int>, k: nat)
    requires RanksByImportance(cards, a) && RanksByImportance(cards, b)
    requires k < |a| && k < |b| && a[..k] == b[..k]
    ensures a[k] == b[k] || Times(cards, b[k]) > Times(cards, a[k])
      || (Times(cards, b[k]) == Times(cards, a[k]) && b[k] > a[k])
  {
    hide Times;
    var j := Listed(cards, b, a, k);
    if j < k {
      SharedAt(a, b, k, j);
    }
  }

  lemma {:induction false} SharedAt(a: seq<int>, b: seq<int>, k: nat, j: nat)
    requires j < k <= |a| && k <= |b| && a[..k] == b[..k]
    ensures a[j] == b[j]
  {
    assert a[j] == a[..k][j] && b[j] == b[..k][j];
  }

  lemma {:induction false} Listed(cards: seq<int>, b: seq<int>, a: seq<int>, k: nat) returns (j: nat)
    requires RanksByImportance(cards, a) && RanksByImportance(cards, b) && k < |a|
    ensures j < |b| && b[j] == a[k]
  {
    hide Times;
    var rank: nat := a[k];
    assert rank in a;
    assert rank in b;
    j :| 0 <= j < |b| && b[j] == rank;
  }

  lemma {:induction false} NothingLeft(cards: seq<int>, short: seq<int>, long: seq<int>, k: nat)
    requires RanksByImportance(cards, short) && RanksByImportance(cards, long)
    requires k == |short| < |long|
    ensures short[..k] != long[..k]
  {
    hide Times;
    if short[..k] == long[..k] {
      var j := Listed(cards, short, long, k);
      SharedAt(short, long, k, j);
    }
  }

  lemma {:induction false} CompareAt(a: seq<int>, b: seq<int>, i: nat, k: nat)
    requires i <= k < |a| && k < |b| && (forall j :: i <= j < k ==> a[j] == b[j]) && a[k] != b[k]
    ensures CompareFrom(a, b, i) == Sign(a[k] - b[k])
    decreases k - i
  {
    if i < k {
      CompareAt(a, b, i + 1, k);
    }
  }

  lemma {:induction false} CompareSame(a: seq<int>, i: nat)
    ensures CompareFrom(a, a, i) == 0
    decreases |a| - i
  {
    if i < |a| {
      CompareSame(a, i + 1);
    }
  }

  /**
   * Hands of one kind that are not straights are decided by the first published rank in which their lists
   * by importance differ, the later rank winning; with the same list they split.
   */
  lemma {:induction false} KickersDecide(a: seq<int>, b: seq<int>, listA: string, listB: string)
    requires |a| == |b| == 5 && ValidCards(a) && ValidCards(b) && Kind(a) == Kind(b) && Kind(a) !in {4, 8}
    requires ByImportance(a, listA) && ByImportance(b, listB)
    ensures EvaluateFive(a).Ok? && EvaluateFive(b).Ok?
    ensures listA == listB ==> Contest(a, b) == 0
    ensures forall k :: 0 <= k < |listA| && k < |listB| && listA[..k] == listB[..k] && Earlier(listB[k], listA[k]) ==>
      Contest(a, b) == 1
  {
    hide Kind, Shown, ByImportance, EvaluateFive, Earlier;
    CategoryIsPublished(a);
    CategoryIsPublished(b);
    TiebreakIsList(a, listA);
    TiebreakIsList(b, listB);
    var left, right := EvaluateFive(a).value.tiebreak, EvaluateFive(b).value.tiebreak;
    if listA == listB {
      SameTiebreaks(left, right, listA);
      CompareSame(left, 0);
    }
    forall k | 0 <= k < |listA| && k < |listB| && listA[..k] == listB[..k] && Earlier(listB[k], listA[k])
      ensures Contest(a, b) == 1
    {
      forall j | 0 <= j < k ensures left[j] == right[j] {
        assert listA[j] == listA[..k][j] == listB[..k][j] == listB[j];
        PlacesDiffer(left[j]);
      }
      EarlierIsLess(right[k], left[k]);
      CompareAt(left, right, 0, k);
    }
  }

  lemma {:induction false} SameTiebreaks(a: seq<int>, b: seq<int>, list: string)
    requires |a| == |b| == |list|
    requires forall i :: 0 <= i < |list| ==> 0 <= a[i] < 13 && ORDER[a[i]] == list[i]
    requires forall i :: 0 <= i < |list| ==> 0 <= b[i] < 13 && ORDER[b[i]] == list[i]
    ensures a == b
  {
    forall i | 0 <= i < |list| ensures a[i] == b[i] {
      PlacesDiffer(a[i]);
    }
  }
}
