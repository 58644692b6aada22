/** What rake takes and what each pot pays whom, and why the conservation checks never fire. */
module Payouts {
  import opened Seqs
  import opened Ledgers
  import opened Evaluations
  import opened Pots

  // ----- Rake -----

  ghost predicate NonNegative(pots: seq<Pot>) {
    forall pot :: pot in pots ==> pot.amount >= 0
  }

  lemma {:induction false} RakeIsTaken(pots: seq<Pot>, remaining: int)
    requires NonNegative(pots) && remaining >= 0
    ensures SumOf(RakeOf, TakeRake(pots, remaining)) == Min(remaining, SumOf(AmountOf, pots))
    ensures SumOf(NetOf, TakeRake(pots, remaining)) == SumOf(AmountOf, pots) - Min(remaining, SumOf(AmountOf, pots))
  {
    SumOfNonNegative(AmountOf, pots);
    if pots != [] {
      RakeIsTaken(pots[1..], remaining - Min(remaining, pots[0].amount));
      SumOfNonNegative(AmountOf, pots[1..]);
    }
  }

  ghost predicate IsRaked(pot: Pot, raked: Pot) {
    && raked == pot.(rake := raked.rake, net := pot.amount - raked.rake)
    && 0 <= raked.rake <= pot.amount
  }

  /** Rake changes only the rake and net of a pot and never exceeds it. */
  lemma {:induction false} RakeKeepsPots(pots: seq<Pot>, remaining: int)
    requires NonNegative(pots) && remaining >= 0
    ensures forall k :: 0 <= k < |pots| ==> IsRaked(pots[k], TakeRake(pots, remaining)[k])
    ensures remaining == 0 ==> forall k :: 0 <= k < |pots| ==> TakeRake(pots, remaining)[k].rake == 0
  {
    if pots != [] {
      assert pots[0] in pots;
      RakeKeepsPots(pots[1..], remaining - Min(remaining, pots[0].amount));
    }
  }

  ghost predicate MainPotFirst(pots: seq<Pot>, raked: seq<Pot>) {
    && |raked| == |pots|
    && forall j, k :: 0 <= j < k < |pots| && raked[k].rake > 0 ==> raked[j].rake == pots[j].amount
  }

  /** The main pot is raked first: a later pot pays only once every earlier one is used up. */
  lemma {:induction false} RakeIsMainPotFirst(pots: seq<Pot>, remaining: int)
    requires NonNegative(pots) && remaining >= 0
    ensures MainPotFirst(pots, TakeRake(pots, remaining))
  {
    if pots != [] {
      assert pots[0] in pots;
      var rest := remaining - Min(remaining, pots[0].amount);
      RakeIsMainPotFirst(pots[1..], rest);
      RakeKeepsPots(pots[1..], rest);
      var r, tail := TakeRake(pots, remaining), TakeRake(pots[1..], rest);
      forall j, k | 0 <= j < k < |pots| && r[k].rake > 0 ensures r[j].rake == pots[j].amount {
        assert r[k] == tail[k - 1];
        if j > 0 {
          assert r[j] == tail[j - 1] && pots[j] == pots[1..][j - 1];
        }
      }
    }
  }

  lemma {:induction false} FloorBelow(gross: int, bps: int)
    requires 0 <= gross && 0 <= bps <= 10000
    ensures 0 <= gross * bps / 10000 <= gross
  {
    assert 0 <= gross * bps <= gross * 10000;
  }

  /**
   * Exact rake: the percentage of the called pots rounded down, at most the cap, nothing without a
   * flop; applying it to valid terms never fails.
   */
  lemma {:induction false} RakeIsExact(pots: seq<Pot>, bps: int, cap: int, flopDealt: bool)
    requires NonNegative(pots)
    ensures ApplyRake(pots, bps, cap, flopDealt).Ok? <==> 0 <= bps <= 10000 && cap >= 0
    ensures ApplyRake(pots, bps, cap, flopDealt).Ok? ==>
      var r := ApplyRake(pots, bps, cap, flopDealt).value;
      && r.totalRake == (if flopDealt then Min(SumOf(AmountOf, pots) * bps / 10000, cap) else 0)
      && SumOf(NetOf, r.pots) + r.totalRake == SumOf(AmountOf, pots)
      && 0 <= r.totalRake
  {
    if 0 <= bps <= 10000 && cap >= 0 {
      SumOfNonNegative(AmountOf, pots);
      FloorBelow(SumOf(AmountOf, pots), bps);
      RakeIsTaken(pots, RakeTarget(pots, bps, cap, flopDealt));
    }
  }

  // ----- Winners -----

  ghost predicate Ranked(eligible: seq<PlayerId>, ranks: Rankings) {
    |eligible| == 1 || forall p :: p in eligible ==> p in ranks
  }

  lemma {:induction false} TiedDistinct(eligible: seq<PlayerId>, ranks: Rankings, best: PlayerId)
    requires best in ranks && forall p :: p in eligible ==> p in ranks
    requires Distinct(eligible)
    ensures Distinct(FilterTied(eligible, ranks, best))
  {
    if eligible != [] {
      assert forall k :: 0 <= k < |eligible[1..]| ==> eligible[1..][k] == eligible[k + 1];
      TiedDistinct(eligible[1..], ranks, best);
      TiedMembers(eligible[1..], ranks, best);
      var rest := FilterTied(eligible[1..], ranks, best);
      forall k | 0 <= k < |rest| ensures rest[k] != eligible[0] {
        assert rest[k] in rest;
      }
    }
  }

  /** The winners are exactly the eligible players nobody eligible beats. */
  lemma {:induction false} WinnersAreBest(eligible: seq<PlayerId>, ranks: Rankings)
    requires eligible != [] && Distinct(eligible) && Ranked(eligible, ranks)
    ensures Winners(eligible, ranks).Ok?
    ensures var winners := Winners(eligible, ranks).value;
      && winners != [] && Distinct(winners)
      && (forall w :: w in winners ==> w in eligible)
      && (|eligible| > 1 ==> (forall w :: w in winners <==>
            (w in eligible && forall p :: p in eligible ==> Compare(ranks[w], ranks[p]) >= 0)))
  {
    WinnersExist(eligible, ranks);
    if |eligible| > 1 {
      assert eligible[0] in eligible;
      var best := BestSoFar(eligible[1..], ranks, eligible[0]);
      BestIsTied(eligible[1..], ranks, eligible[0]);
      TiedMembers(eligible, ranks, best);
      TiedDistinct(eligible, ranks, best);
      forall p | p in eligible ensures Compare(ranks[best], ranks[p]) >= 0 {
        assert p == eligible[0] || p in eligible[1..];
      }
      forall w | w in eligible
        ensures Compare(ranks[w], ranks[best]) == 0
          <==> forall p :: p in eligible ==> Compare(ranks[w], ranks[p]) >= 0
      {
        TiedWithBest(eligible, ranks, best, w);
      }
    }
  }

  lemma {:induction false} TiedWithBest(eligible: seq<PlayerId>, ranks: Rankings, best: PlayerId, w: PlayerId)
    requires forall p :: p in eligible ==> p in ranks
    requires best in eligible && w in eligible
    requires forall p :: p in eligible ==> Compare(ranks[best], ranks[p]) >= 0
    ensures Compare(ranks[w], ranks[best]) == 0
      <==> forall p :: p in eligible ==> Compare(ranks[w], ranks[p]) >= 0
  {
    CompareIsTotalPreorder(ranks[w], ranks[best], ranks[w]);
    forall p | p in eligible && Compare(ranks[w], ranks[best]) == 0
      ensures Compare(ranks[w], ranks[p]) >= 0
    {
      CompareIsTotalPreorder(ranks[w], ranks[best], ranks[p]);
    }
  }

  // ----- One board -----

  function BoardShare(amount: int, winners: seq<PlayerId>, order: seq<PlayerId>, p: PlayerId): int
    requires winners != []
  {
    var ordered := Ordered(winners, order);
    var odd := amount % |winners|;
    if p !in winners then 0
    else amount / |winners| + (if odd <= |ordered| && p in ordered[..odd] then 1 else 0)
  }

  lemma {:induction false} AddEachSums(awards: Ledger, players: seq<PlayerId>, amount: int)
    requires Distinct(players)
    ensures forall q: nat :: Get(AddEach(awards, players, amount), q)
              == Get(awards, q) + (if q in players then amount else 0)
    ensures Total(AddEach(awards, players, amount)) == Total(awards) + amount * |players|
    decreases |players|
  {
    if players != [] {
      AddChangesOne(awards, players[0], amount);
      AddEachSums(Add(awards, players[0], amount), players[1..], amount);
      assert amount * |players| == amount * |players[1..]| + amount;
    }
  }

  lemma {:induction false} FilterDistinct<T(!new)>(p: T -> bool, xs: seq<T>)
    requires Distinct(xs)
    ensures Distinct(Filter(p, xs))
  {
    if xs != [] {
      assert forall k :: 0 <= k < |xs[1..]| ==> xs[1..][k] == xs[k + 1];
      FilterDistinct(p, xs[1..]);
      var rest := Filter(p, xs[1..]);
      forall k | 0 <= k < |rest| ensures rest[k] != xs[0] {
        assert rest[k] in rest;
      }
    }
  }

  function Elements(xs: seq<PlayerId>): set<PlayerId> { set x | x in xs }

  lemma {:induction false} DistinctSize(xs: seq<PlayerId>)
    requires Distinct(xs)
    ensures |Elements(xs)| == |xs|
  {
    if xs != [] {
      assert forall k :: 0 <= k < |xs[1..]| ==> xs[1..][k] == xs[k + 1];
      DistinctSize(xs[1..]);
      assert xs[0] !in Elements(xs[1..]);
      assert Elements(xs) == {xs[0]} + Elements(xs[1..]);
    }
  }

  /** Every winner appears once in the odd-chip order. */
  lemma {:induction false} OrderedIsComplete(winners: seq<PlayerId>, order: seq<PlayerId>)
    requires Distinct(winners) && Distinct(order) && forall w :: w in winners ==> w in order
    ensures |Ordered(winners, order)| == |winners|
    ensures Distinct(Ordered(winners, order))
  {
    var ordered := Ordered(winners, order);
    FilterDistinct((p: PlayerId) => p in winners, order);
    DistinctSize(winners);
    DistinctSize(ordered);
    assert Elements(ordered) == Elements(winners);
  }

  lemma {:induction false} Division(amount: int, n: nat)
    requires n > 0
    ensures amount / n * n + amount % n == amount && 0 <= amount % n < n
  {
  }

  /** A board's amount is paid out in full, and each player gets exactly the board share. */
  lemma {:induction false} BoardIsExact(awards: Ledger, winners: seq<PlayerId>, order: seq<PlayerId>, amount: int)
    requires winners != [] && Distinct(winners) && Distinct(order) && forall w :: w in winners ==> w in order
    ensures AwardBoard(awards, winners, order, amount).Ok?
    ensures var r := AwardBoard(awards, winners, order, amount).value;
      && Total(r) == Total(awards) + amount
      && forall q: nat :: Get(r, q) == Get(awards, q) + BoardShare(amount, winners, order, q)
  {
    OrderedIsComplete(winners, order);
    Division(amount, |winners|);
    SharesAndOddChips(awards, winners, order, amount / |winners|, amount % |winners|);
  }

  lemma {:induction false} SharesAndOddChips(awards: Ledger, winners: seq<PlayerId>, order: seq<PlayerId>, share: int,
      odd: nat)
    requires Distinct(winners) && Distinct(Ordered(winners, order))
    requires odd <= |Ordered(winners, order)|
    ensures var r := AddEach(AddEach(awards, winners, share), Ordered(winners, order)[..odd], 1);
      && Total(r) == Total(awards) + share * |winners| + odd
      && forall q: nat :: Get(r, q) == Get(awards, q)
           + if q !in winners then 0 else share + if q in Ordered(winners, order)[..odd] then 1 else 0
  {
    var ordered := Ordered(winners, order);
    AddEachSums(awards, winners, share);
    AddEachSums(AddEach(awards, winners, share), ordered[..odd], 1);
    forall q: nat | q in ordered[..odd] ensures q in winners {
      assert q in ordered;
    }
  }

  /** Winners' shares of a board differ by at most one chip, and the extra chips go to the first in order. */
  lemma {:induction false} BoardSharesAreFair(amount: int, winners: seq<PlayerId>, order: seq<PlayerId>, i: nat, j: nat)
    requires winners != [] && Distinct(winners) && Distinct(order) && forall w :: w in winners ==> w in order
    requires i < j < |Ordered(winners, order)|
    ensures var ordered := Ordered(winners, order);
      var first, later := BoardShare(amount, winners, order, ordered[i]),
        BoardShare(amount, winners, order, ordered[j]);
      && later <= first <= later + 1
      && (first == later + 1 <==> i < amount % |winners| <= j)
  {
    OrderedIsComplete(winners, order);
    var ordered := Ordered(winners, order);
    var odd := amount % |winners|;
    assert ordered[i] in ordered && ordered[j] in ordered;
    assert ordered[i] in ordered[..odd] <==> i < odd by {
      if i < odd { assert ordered[..odd][i] == ordered[i]; }
    }
    assert ordered[j] in ordered[..odd] <==> j < odd by {
      if j < odd { assert ordered[..odd][j] == ordered[j]; }
    }
  }

  /** The odd chips of a board go one each to the first winners in the order. */
  lemma {:induction false} OddChipsInOrder(amount: int, winners: seq<PlayerId>, order: seq<PlayerId>, i: nat)
    requires winners != [] && Distinct(winners) && Distinct(order) && forall w :: w in winners ==> w in order
    requires i < |order| && order[i] in winners
    ensures BoardShare(amount, winners, order, order[i])
      == amount / |winners|
         + if Count((p: PlayerId) => p in winners, order[..i]) < amount % |winners| then 1 else 0
  {
    OrderedIsComplete(winners, order);
    var ordered, odd := Ordered(winners, order), amount % |winners|;
    var k := RankInFilter((p: PlayerId) => p in winners, order, i);
    assert ordered[k] in ordered[..odd] <==> k < odd by {
      if k < odd { assert ordered[..odd][k] == ordered[k]; }
    }
  }

  /** What passes a filter comes out after as many as passed before it. */
  lemma {:induction false} RankInFilter<T(!new)>(p: T -> bool, xs: seq<T>, i: nat) returns (k: nat)
    requires i < |xs| && p(xs[i])
    ensures k == Count(p, xs[..i]) && k < |Filter(p, xs)| && Filter(p, xs)[k] == xs[i]
  {
    if i == 0 {
      k := 0;
    } else {
      var rest := RankInFilter(p, xs[1..], i - 1);
      assert xs[..i][1..] == xs[1..][..i - 1];
      k := if p(xs[0]) then rest + 1 else rest;
    }
  }

  // ----- All pots -----

  /** Everything an award needs: owners in the odd-chip order and a rank for each contested one. */
  ghost predicate Awardable(pot: Pot, rankings: seq<Rankings>, order: seq<PlayerId>) {
    && pot.eligible != [] && Distinct(pot.eligible)
    && (forall p :: p in pot.eligible ==> p in order)
    && forall b :: 0 <= b < |rankings| ==> Ranked(pot.eligible, rankings[b])
  }

  ghost predicate AllAwardable(pots: seq<Pot>, rankings: seq<Rankings>, order: seq<PlayerId>) {
    forall k :: 0 <= k < |pots| ==> Awardable(pots[k], rankings, order)
  }

  /** A player's awards from one pot on the boards from `board` on. */
  ghost function PotAward(pot: Pot, rankings: seq<Rankings>, order: seq<PlayerId>, board: nat, p: PlayerId): int
    requires board <= |rankings| && Awardable(pot, rankings, order)
    decreases |rankings| - board
  {
    if board == |rankings| then 0
    else
      WinnersAreBest(pot.eligible, rankings[board]);
      BoardShare(BoardAmount(pot.net, |rankings|, board), Winners(pot.eligible, rankings[board]).value, order, p)
        + PotAward(pot, rankings, order, board + 1, p)
  }

  function BoardsFrom(net: int, boards: nat, board: nat): int
    requires board <= boards && boards > 0
    decreases boards - board
  {
    if board == boards then 0 else BoardAmount(net, boards, board) + BoardsFrom(net, boards, board + 1)
  }

  lemma {:induction false} BoardsAddUp(net: int, boards: nat, board: nat)
    requires board <= boards && boards > 0
    ensures BoardsFrom(net, boards, board)
         == net / boards * (boards - board) + (if board < net % boards then net % boards - board else 0)
    decreases boards - board
  {
    if board < boards {
      BoardsAddUp(net, boards, board + 1);
      assert net / boards * (boards - board) == net / boards * (boards - (board + 1)) + net / boards;
    }
  }

  lemma {:induction false} PotIsPaidOut(net: int, boards: nat)
    requires boards > 0
    ensures BoardsFrom(net, boards, 0) == net
  {
    BoardsAddUp(net, boards, 0);
    Division(net, boards);
  }

  lemma {:induction false} PotIsExact(acc: Settlement, pot: Pot, rankings: seq<Rankings>, order: seq<PlayerId>,
      board: nat)
    requires board <= |rankings| && rankings != [] && Awardable(pot, rankings, order) && Distinct(order)
    ensures AwardPot(acc, pot, rankings, order, board).Ok?
    ensures var r := AwardPot(acc, pot, rankings, order, board).value;
      && Total(r.awards) == Total(acc.awards) + BoardsFrom(pot.net, |rankings|, board)
      && forall q: nat :: Get(r.awards, q) == Get(acc.awards, q) + PotAward(pot, rankings, order, board, q)
    decreases |rankings| - board
  {
    if board < |rankings| {
      var amount := BoardAmount(pot.net, |rankings|, board);
      WinnersAreBest(pot.eligible, rankings[board]);
      var winners := Winners(pot.eligible, rankings[board]).value;
      BoardIsExact(acc.awards, winners, order, amount);
      var next := Settlement(AwardBoard(acc.awards, winners, order, amount).value,
                             acc.details + [Detail(pot.index, board + 1, amount, winners)]);
      PotIsExact(next, pot, rankings, order, board + 1);
    }
  }

  ghost function PotAwards(pots: seq<Pot>, rankings: seq<Rankings>, order: seq<PlayerId>, p: PlayerId): int
    requires AllAwardable(pots, rankings, order)
  {
    if pots == [] then 0
    else PotAward(pots[0], rankings, order, 0, p) + PotAwards(pots[1..], rankings, order, p)
  }

  lemma {:induction false} PotsAreExact(acc: Settlement, pots: seq<Pot>, rankings: seq<Rankings>, order: seq<PlayerId>)
    requires rankings != [] && Distinct(order) && AllAwardable(pots, rankings, order)
    ensures AwardPots(acc, pots, rankings, order).Ok?
    ensures var r := AwardPots(acc, pots, rankings, order).value;
      && Total(r.awards) == Total(acc.awards) + SumOf(NetOf, pots)
      && forall q: nat :: Get(r.awards, q) == Get(acc.awards, q) + PotAwards(pots, rankings, order, q)
    decreases |pots|
  {
    if pots != [] {
      assert AllAwardable(pots[1..], rankings, order);
      PotIsExact(acc, pots[0], rankings, order, 0);
      PotIsPaidOut(pots[0].net, |rankings|);
      PotsAreExact(AwardPot(acc, pots[0], rankings, order, 0).value, pots[1..], rankings, order);
    }
  }

  /**
   * Settling awardable pots never fails: it pays every player exactly the board shares of the pots
   * won, and pays out the whole net amount.
   */
  lemma {:induction false} SettlementIsExact(pots: seq<Pot>, rankings: seq<Rankings>, order: seq<PlayerId>)
    requires pots != [] && 1 <= |rankings| <= 2 && Distinct(order)
    requires AllAwardable(pots, rankings, order)
    ensures SettlePots(pots, rankings, order).Ok?
    ensures var r := SettlePots(pots, rankings, order).value;
      && Total(r.awards) == SumOf(NetOf, pots)
      && forall q: nat :: Get(r.awards, q) == PotAwards(pots, rankings, order, q)
  {
    PotsAreExact(Settlement([], []), pots, rankings, order);
  }

  // ----- Nobody is paid a negative amount -----

  lemma {:induction false} ShareNotNegative(amount: int, winners: seq<PlayerId>, order: seq<PlayerId>, p: PlayerId)
    requires winners != [] && amount >= 0
    ensures BoardShare(amount, winners, order, p) >= 0
  {
  }

  lemma {:induction false} PotAwardNotNegative(pot: Pot, rankings: seq<Rankings>, order: seq<PlayerId>, board: nat,
      p: PlayerId)
    requires board <= |rankings| && Awardable(pot, rankings, order) && pot.net >= 0
    ensures PotAward(pot, rankings, order, board, p) >= 0
    decreases |rankings| - board
  {
    if board < |rankings| {
      WinnersAreBest(pot.eligible, rankings[board]);
      ShareNotNegative(BoardAmount(pot.net, |rankings|, board), Winners(pot.eligible, rankings[board]).value, order, p);
      PotAwardNotNegative(pot, rankings, order, board + 1, p);
    }
  }

  lemma {:induction false} AwardsNotNegative(pots: seq<Pot>, rankings: seq<Rankings>, order: seq<PlayerId>, p: PlayerId)
    requires AllAwardable(pots, rankings, order) && forall k :: 0 <= k < |pots| ==> pots[k].net >= 0
    ensures PotAwards(pots, rankings, order, p) >= 0
  {
    if pots != [] {
      PotAwardNotNegative(pots[0], rankings, order, 0, p);
      AwardsNotNegative(pots[1..], rankings, order, p);
    }
  }

  // ----- Nobody but the players is paid -----

  lemma {:induction false} AddEachStaysWithin(awards: Ledger, players: seq<PlayerId>, amount: int, ids: seq<PlayerId>)
    requires Within(awards, ids) && forall p :: p in players ==> p in ids
    ensures Within(AddEach(awards, players, amount), ids)
    decreases |players|
  {
    if players != [] {
      AddStaysWithin(awards, players[0], amount, ids);
      AddEachStaysWithin(Add(awards, players[0], amount), players[1..], amount, ids);
    }
  }

  lemma {:induction false} BoardStaysWithin(awards: Ledger, winners: seq<PlayerId>, order: seq<PlayerId>, amount: int)
    requires winners != [] && (forall w :: w in winners ==> w in order) && Within(awards, order)
    requires AwardBoard(awards, winners, order, amount).Ok?
    ensures Within(AwardBoard(awards, winners, order, amount).value, order)
  {
    var first := Ordered(winners, order)[..amount % |winners|];
    forall p | p in first ensures p in order {
      assert p in Ordered(winners, order);
    }
    AddEachStaysWithin(awards, winners, amount / |winners|, order);
    AddEachStaysWithin(AddEach(awards, winners, amount / |winners|), first, 1, order);
  }

  lemma {:induction false} PotStaysWithin(acc: Settlement, pot: Pot, rankings: seq<Rankings>, order: seq<PlayerId>,
      board: nat)
    requires board <= |rankings| && rankings != [] && Awardable(pot, rankings, order) && Distinct(order)
    requires Within(acc.awards, order)
    ensures AwardPot(acc, pot, rankings, order, board).Ok?
    ensures Within(AwardPot(acc, pot, rankings, order, board).value.awards, order)
    decreases |rankings| - board
  {
    if board < |rankings| {
      var amount := BoardAmount(pot.net, |rankings|, board);
      WinnersAreBest(pot.eligible, rankings[board]);
      var winners := Winners(pot.eligible, rankings[board]).value;
      BoardIsExact(acc.awards, winners, order, amount);
      BoardStaysWithin(acc.awards, winners, order, amount);
      var next := Settlement(AwardBoard(acc.awards, winners, order, amount).value,
                             acc.details + [Detail(pot.index, board + 1, amount, winners)]);
      PotStaysWithin(next, pot, rankings, order, board + 1);
    }
  }

  lemma {:induction false} PotsStayWithin(acc: Settlement, pots: seq<Pot>, rankings: seq<Rankings>,
      order: seq<PlayerId>)
    requires rankings != [] && Distinct(order) && AllAwardable(pots, rankings, order)
    requires Within(acc.awards, order)
    ensures AwardPots(acc, pots, rankings, order).Ok?
    ensures Within(AwardPots(acc, pots, rankings, order).value.awards, order)
    decreases |pots|
  {
    if pots != [] {
      assert AllAwardable(pots[1..], rankings, order);
      PotStaysWithin(acc, pots[0], rankings, order, 0);
      PotsStayWithin(AwardPot(acc, pots[0], rankings, order, 0).value, pots[1..], rankings, order);
    }
  }
}
