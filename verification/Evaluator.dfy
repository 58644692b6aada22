/** Five-card evaluation and best-hand selection: server/poker/evaluator.js. */
module Evaluator {
  import opened Wrappers
  import opened Seqs
  import opened Ledgers
  import opened Evaluations
  import opened Combinations

  datatype Error = WrongCardCount | InvalidCard | DuplicateCard

  predicate ValidCards(cards: seq<int>) {
    (forall i :: 0 <= i < |cards| ==> 0 <= cards[i] < 52) && Distinct(cards)
  }

  function CheckCards(cards: seq<int>, expected: nat): Result<(), Error> {
    if |cards| != expected then Err(WrongCardCount)
    else if exists i :: 0 <= i < |cards| && !(0 <= cards[i] < 52) then Err(InvalidCard)
    else if !Distinct(cards) then Err(DuplicateCard)
    else Ok(())
  }

  function RankOf(card: int): nat { card % 13 }

  function SuitOf(card: int): int { card / 13 }

  // ----- Groups of equal ranks -----

  /** How often each rank occurs, in order of first occurrence. */
  function RankCounts(ranks: seq<nat>): Ledger {
    if ranks == [] then []
    else Add(RankCounts(ranks[..|ranks| - 1]), ranks[|ranks| - 1], 1)
  }

  /** The counting pass over the ranks of a hand. */
  method CountRanks(ranks: seq<nat>) returns (counts: Ledger)
    ensures counts == RankCounts(ranks)
  {
    counts := [];
    for k := 0 to |ranks|
      invariant counts == RankCounts(ranks[..k])
    {
      assert ranks[..k + 1][..k] == ranks[..k];
      counts := Add(counts, ranks[k], 1);
    }
    assert ranks[..|ranks|] == ranks;
  }

  /** The passes of the five-card evaluation: check, count, look for a straight, classify. */
  method EvaluateHand(cards: seq<int>) returns (r: Result<Evaluation, Error>)
    ensures r == EvaluateFive(cards)
  {
    var checked := CheckCards(cards, 5);
    if checked.Err? {
      return Err(checked.error);
    }
    var ranks := Map(RankOf, cards);
    var counts := CountRanks(ranks);
    var highStraight := StraightHigh(ranks);
    var score := Classify(SortGroups(counts), SortDescending(ranks), highStraight, Flush(cards));
    return Ok(Evaluation(score.0, score.1, cards));
  }

  /** Larger groups first, higher ranks first among equal groups. */
  predicate Before(a: Entry, b: Entry) {
    a.amount > b.amount || (a.amount == b.amount && a.key > b.key)
  }

  function InsertGroup(g: Entry, groups: Ledger): Ledger {
    if groups == [] || Before(g, groups[0]) then [g] + groups
    else [groups[0]] + InsertGroup(g, groups[1..])
  }

  function SortGroups(groups: Ledger): Ledger {
    if groups == [] then [] else InsertGroup(groups[0], SortGroups(groups[1..]))
  }

  function InsertDescending(x: int, xs: seq<int>): seq<int> {
    if xs == [] || x >= xs[0] then [x] + xs else [xs[0]] + InsertDescending(x, xs[1..])
  }

  function SortDescending(xs: seq<int>): seq<int> {
    if xs == [] then [] else InsertDescending(xs[0], SortDescending(xs[1..]))
  }

  function RanksOfSize(groups: Ledger, size: int): seq<int> {
    if groups == [] then []
    else (if groups[0].amount == size then [groups[0].key] else []) + RanksOfSize(groups[1..], size)
  }

  predicate Run(ranks: seq<int>, high: int) {
    high in ranks && high - 1 in ranks && high - 2 in ranks && high - 3 in ranks && high - 4 in ranks
  }

  predicate Wheel(ranks: seq<int>) {
    12 in ranks && 0 in ranks && 1 in ranks && 2 in ranks && 3 in ranks
  }

  /** The highest run ending at `high` or below, the wheel last. */
  function StraightFrom(ranks: seq<int>, high: int): Option<int>
    decreases high
  {
    if high < 4 then (if Wheel(ranks) then Some(3) else None)
    else if Run(ranks, high) then Some(high)
    else StraightFrom(ranks, high - 1)
  }

  method StraightHigh(ranks: seq<int>) returns (r: Option<int>)
    ensures r == StraightFrom(ranks, 12)
  {
    var high := 12;
    while high >= 4
      invariant 3 <= high <= 12
      invariant StraightFrom(ranks, 12) == StraightFrom(ranks, high)
    {
      if Run(ranks, high) {
        return Some(high);
      }
      high := high - 1;
    }
    return if Wheel(ranks) then Some(3) else None;
  }

  predicate Flush(cards: seq<int>) {
    forall i, j :: 0 <= i < j < |cards| ==> SuitOf(cards[i]) == SuitOf(cards[j])
  }

  function SizeAt(groups: Ledger, i: nat): int { if i < |groups| then groups[i].amount else 0 }

  function KeyAt(groups: Ledger, i: nat): int { if i < |groups| then groups[i].key else 0 }

  function First(xs: seq<int>): int { if xs == [] then 0 else xs[0] }

  function Second(xs: seq<int>): int { if |xs| < 2 then 0 else xs[1] }

  /** Category and tiebreak from the sorted groups, the sorted ranks, the straight and the flush. */
  function Classify(groups: Ledger, sortedRanks: seq<int>, straight: Option<int>, flush: bool): (int, seq<int>) {
    var singles := SortDescending(RanksOfSize(groups, 1));
    var pairs := SortDescending(RanksOfSize(groups, 2));
    if flush && straight.Some? then (8, [straight.value])
    else if SizeAt(groups, 0) == 4 then (7, [KeyAt(groups, 0), First(RanksOfSize(groups, 1))])
    else if SizeAt(groups, 0) == 3 && SizeAt(groups, 1) == 2 then (6, [KeyAt(groups, 0), KeyAt(groups, 1)])
    else if flush then (5, sortedRanks)
    else if straight.Some? then (4, [straight.value])
    else if SizeAt(groups, 0) == 3 then (3, [KeyAt(groups, 0)] + singles)
    else if |pairs| == 2 then (2, [First(pairs), Second(pairs), First(RanksOfSize(groups, 1))])
    else if |pairs| == 1 then (1, [First(pairs)] + singles)
    else (0, sortedRanks)
  }

  function Score(cards: seq<int>): (int, seq<int>) {
    var ranks := Map(RankOf, cards);
    Classify(SortGroups(RankCounts(ranks)), SortDescending(ranks), StraightFrom(ranks, 12), Flush(cards))
  }

  function EvaluateFive(cards: seq<int>): Result<Evaluation, Error> {
    var _ :- CheckCards(cards, 5);
    var score := Score(cards);
    Ok(Evaluation(score.0, score.1, cards))
  }

  // ----- The best of many -----

  function EvaluateAll(hands: seq<seq<int>>): Result<seq<Evaluation>, Error> {
    if hands == [] then Ok([])
    else
      var first :- EvaluateFive(hands[0]);
      var rest :- EvaluateAll(hands[1..]);
      Ok([first] + rest)
  }

  function BestFrom(current: Evaluation, evaluations: seq<Evaluation>): Evaluation
    decreases |evaluations|
  {
    if evaluations == [] then current
    else BestFrom(if Compare(evaluations[0], current) > 0 then evaluations[0] else current, evaluations[1..])
  }

  function Best(evaluations: seq<Evaluation>): Option<Evaluation> {
    if evaluations == [] then None else Some(BestFrom(evaluations[0], evaluations[1..]))
  }

  /** The reducing pass of best. */
  method BestOf(evaluations: seq<Evaluation>) returns (r: Option<Evaluation>)
    ensures r == Best(evaluations)
  {
    r := None;
    for i := 0 to |evaluations|
      invariant i == 0 ==> r == None
      invariant i > 0 ==> r.Some? && Best(evaluations) == Some(BestFrom(r.value, evaluations[i..]))
    {
      assert i > 0 ==> evaluations[i..][1..] == evaluations[i + 1..];
      if r.None? {
        r := Some(evaluations[i]);
      } else {
        var order := CompareEvaluations(evaluations[i], r.value);
        if order > 0 {
          r := Some(evaluations[i]);
        }
      }
    }
  }

  function HoldemHands(hole: seq<int>, board: seq<int>): seq<seq<int>> {
    Combinations.Combinations(hole + board, 5)
  }

  function Join(first: seq<int>, seconds: seq<seq<int>>): seq<seq<int>> {
    if seconds == [] then [] else [first + seconds[0]] + Join(first, seconds[1..])
  }

  function JoinAll(firsts: seq<seq<int>>, seconds: seq<seq<int>>): seq<seq<int>> {
    if firsts == [] then [] else Join(firsts[0], seconds) + JoinAll(firsts[1..], seconds)
  }

  function OmahaHands(hole: seq<int>, board: seq<int>): seq<seq<int>> {
    JoinAll(Combinations.Combinations(hole, 2), Combinations.Combinations(board, 3))
  }

  function EvaluateBest(hole: seq<int>, board: seq<int>, holeCards: nat,
      hands: seq<seq<int>>): Result<Evaluation, Error> {
    var _ :- CheckCards(hole, holeCards);
    var _ :- CheckCards(board, 5);
    if !Distinct(hole + board) then Err(DuplicateCard)
    else
      var evaluations :- EvaluateAll(hands);
      match Best(evaluations) case Some(e) => Ok(e) case None => Err(WrongCardCount)
  }

  function EvaluateHoldem(hole: seq<int>, board: seq<int>): Result<Evaluation, Error> {
    EvaluateBest(hole, board, 2, HoldemHands(hole, board))
  }

  function EvaluateOmaha4(hole: seq<int>, board: seq<int>): Result<Evaluation, Error> {
    EvaluateBest(hole, board, 4, OmahaHands(hole, board))
  }
}
