/** Settlement succeeds on dealt players with owned pots, and pays each player an exact amount. */
module ShowdownTheorems {
  import opened Wrappers
  import opened Seqs
  import opened Seats
  import opened Games
  import opened Ledgers
  import Evaluator
  import BestHand
  import opened Pots
  import opened SidePots
  import opened Payouts
  import opened Showdown

  /** Settlement terms a table may have: the rake is a percentage and the cap is not negative. */
  predicate Terms(rakeBps: int, rakeCap: int) { 0 <= rakeBps <= 10000 && rakeCap >= 0 }

  /** Distinct players whose stakes can be layered into at least one pot. */
  ghost predicate Settleable(players: seq<Contender>) {
    && BuildPots(Stakes(players)).Ok?
    && BuildPots(Stakes(players)).value.pots != []
  }

  /** Every unfolded player holds the game's number of hole cards, all different from the board. */
  ghost predicate Dealt(game: Game, players: seq<Contender>, board: seq<int>) {
    && |board| == 5
    && forall p :: p in players && Live(p) ==>
         |p.holeCards| == HoleCount(game) && Evaluator.ValidCards(p.holeCards + board)
  }

  // ----- The odd-chip order -----

  /** No two players share an id. */
  ghost predicate OwnIds(players: seq<Contender>) {
    forall i, j :: 0 <= i < j < |players| ==> players[i].playerId != players[j].playerId
  }

  lemma {:induction false} ValidHasOwnIds(players: seq<Contender>)
    requires Valid(Stakes(players))
    ensures OwnIds(players)
  {
    var stakes := Stakes(players);
    forall i, j | 0 <= i < j < |players| ensures players[i].playerId != players[j].playerId {
      assert stakes[i].playerId != stakes[j].playerId;
    }
  }

  lemma {:induction false} PositionOf<T>(xs: seq<T>, x: T) returns (i: nat)
    requires x in xs
    ensures i < |xs| && xs[i] == x
  {
    i :| 0 <= i < |xs| && xs[i] == x;
  }

  lemma {:induction false} SamePlayer(players: seq<Contender>, p: Contender, q: Contender)
    requires OwnIds(players) && p in players && q in players && p.playerId == q.playerId
    ensures p == q
  {
    var a := PositionOf(players, p);
    var b := PositionOf(players, q);
    assert a == b;
  }

  lemma {:induction false} PermutedIds(players: seq<Contender>, around: seq<Contender>)
    requires OwnIds(players) && Distinct(around) && forall p :: p in around ==> p in players
    ensures Distinct(Map(Identity, around))
  {
    forall i, j | 0 <= i < j < |around| ensures around[i].playerId != around[j].playerId {
      assert around[i] in around && around[j] in around && around[i] != around[j];
      if around[i].playerId == around[j].playerId {
        SamePlayer(players, around[i], around[j]);
      }
    }
  }

  lemma {:induction false} MappedId(around: seq<Contender>, p: Contender)
    requires p in around
    ensures p.playerId in Map(Identity, around)
  {
    var k := PositionOf(around, p);
    assert Map(Identity, around)[k] == p.playerId;
  }

  lemma {:induction false} OrderIsComplete(players: seq<Contender>, buttonSeat: int)
    requires Valid(Stakes(players))
    ensures Distinct(OddChipOrder(players, buttonSeat))
    ensures forall i :: 0 <= i < |players| ==> players[i].playerId in OddChipOrder(players, buttonSeat)
  {
    var around := Clockwise(SeatOf, players, buttonSeat);
    ClockwiseKeepsMembers(SeatOf, players, buttonSeat);
    ValidHasOwnIds(players);
    assert Distinct(players);
    PermutedDistinct(players, around);
    PermutedIds(players, around);
    forall i | 0 <= i < |players| ensures players[i].playerId in OddChipOrder(players, buttonSeat) {
      assert players[i] in players;
      MappedId(around, players[i]);
    }
  }

  lemma {:induction false} PermutedDistinct(xs: seq<Contender>, ys: seq<Contender>)
    requires Distinct(xs) && multiset(xs) == multiset(ys)
    ensures Distinct(ys)
  {
    forall i, j | 0 <= i < j < |ys| ensures ys[i] != ys[j] {
      if ys[i] == ys[j] {
        TwiceInMultiset(ys, i, j);
        OnceInMultiset(xs, ys[i]);
      }
    }
  }

  lemma {:induction false} OnceInMultiset(xs: seq<Contender>, x: Contender)
    requires Distinct(xs)
    ensures multiset(xs)[x] <= 1
  {
    if xs != [] {
      assert xs == [xs[0]] + xs[1..];
      OnceInMultiset(xs[1..], x);
      assert xs[0] !in xs[1..];
    }
  }

  lemma {:induction false} TwiceInMultiset(xs: seq<Contender>, i: nat, j: nat)
    requires i < j < |xs| && xs[i] == xs[j]
    ensures multiset(xs)[xs[i]] >= 2
  {
    assert xs == xs[..i] + ([xs[i]] + (xs[i + 1..j] + ([xs[j]] + xs[j + 1..])));
  }

  /** The first odd chip goes to the first winner after the button, clockwise. */
  lemma {:induction false} OrderIsClockwise(players: seq<Contender>, buttonSeat: int)
    requires 0 <= buttonSeat <= 8 && forall p :: p in players ==> 0 <= p.seat <= 8
    ensures |OddChipOrder(players, buttonSeat)| == |Clockwise(SeatOf, players, buttonSeat)|
    ensures var around := Clockwise(SeatOf, players, buttonSeat);
      && (forall k :: 0 <= k < |around| ==> OddChipOrder(players, buttonSeat)[k] == around[k].playerId)
      && forall i, j :: 0 <= i < j < |around| ==>
           Distance(buttonSeat, around[i].seat) <= Distance(buttonSeat, around[j].seat)
  {
    ClockwiseByDistance(SeatOf, players, buttonSeat);
  }

  // ----- Rankings -----

  lemma {:induction false} EvaluateSucceeds(game: Game, holeCards: seq<int>, board: seq<int>)
    requires |board| == 5 && |holeCards| == HoleCount(game) && Evaluator.ValidCards(holeCards + board)
    ensures Evaluate(game, holeCards, board).Ok?
  {
    if game == NLH { BestHand.HoldemIsBest(holeCards, board); } else { BestHand.OmahaIsBest(holeCards, board); }
  }

  lemma {:induction false} BoardIsRanked(game: Game, players: seq<Contender>, board: seq<int>)
    requires Dealt(game, players, board)
    ensures RankBoard(game, players, board).Ok?
    ensures forall i :: 0 <= i < |players| && Live(players[i])
              ==> players[i].playerId in RankBoard(game, players, board).value
  {
    if players != [] {
      assert Dealt(game, players[1..], board);
      BoardIsRanked(game, players[1..], board);
      if Live(players[0]) {
        EvaluateSucceeds(game, players[0].holeCards, board);
      }
    }
  }

  /** With distinct players, each one's ranking is the evaluation of the player's own cards. */
  lemma {:induction false} RanksAreOwn(game: Game, players: seq<Contender>, board: seq<int>, i: nat)
    requires Dealt(game, players, board) && i < |players| && Live(players[i])
    requires forall a, b :: 0 <= a < b < |players| ==> players[a].playerId != players[b].playerId
    ensures RankBoard(game, players, board).Ok? && players[i].playerId in RankBoard(game, players, board).value
    ensures Evaluate(game, players[i].holeCards, board)
        == Ok(RankBoard(game, players, board).value[players[i].playerId])
  {
    BoardIsRanked(game, players, board);
    assert Dealt(game, players[1..], board);
    BoardIsRanked(game, players[1..], board);
    if i > 0 {
      RanksAreOwn(game, players[1..], board, i - 1);
    }
  }

  lemma {:induction false} BoardsAreRanked(game: Game, players: seq<Contender>, boards: seq<seq<int>>)
    requires forall k :: 0 <= k < |boards| ==> Dealt(game, players, boards[k])
    ensures RankBoards(game, players, boards).Ok? && |RankBoards(game, players, boards).value| == |boards|
    ensures forall k :: 0 <= k < |boards| ==>
              RankBoard(game, players, boards[k]) == Ok(RankBoards(game, players, boards).value[k])
  {
    if boards != [] {
      BoardIsRanked(game, players, boards[0]);
      BoardsAreRanked(game, players, boards[1..]);
    }
  }

  // ----- Pots of contenders can be awarded -----

  lemma {:induction false} EligibleAreLive(players: seq<Contender>, level: int, p: PlayerId) returns (i: nat)
    requires p in Map(IdOf, Unfolded(Participants(Stakes(players), level)))
    ensures i < |players| && Live(players[i]) && players[i].playerId == p
  {
    var eligible := Unfolded(Participants(Stakes(players), level));
    var k :| 0 <= k < |eligible| && Map(IdOf, eligible)[k] == p;
    assert eligible[k] in eligible && eligible[k] in Stakes(players);
    i :| 0 <= i < |players| && Stakes(players)[i] == eligible[k];
  }

  lemma {:induction false} EligibleDistinct(stakes: seq<Stake>, level: int)
    requires Valid(stakes)
    ensures Distinct(Map(IdOf, Unfolded(Participants(stakes, level))))
  {
    assert Distinct(stakes);
    FilterDistinct((s: Stake) => s.contributed >= level, stakes);
    FilterDistinct((s: Stake) => !s.folded, Participants(stakes, level));
    var eligible := Unfolded(Participants(stakes, level));
    forall i, j | 0 <= i < j < |eligible| ensures eligible[i].playerId != eligible[j].playerId {
      assert eligible[i] in eligible && eligible[j] in eligible;
      var a :| 0 <= a < |stakes| && stakes[a] == eligible[i];
      var b :| 0 <= b < |stakes| && stakes[b] == eligible[j];
    }
  }

  lemma {:induction false} OneLivePlayer(players: seq<Contender>, i: nat, j: nat)
    requires i < |players| && j < |players| && Live(players[i]) && Live(players[j]) && Count(Live, players) == 1
    ensures i == j
  {
    if i < j {
      CountAtLeastTwo(Live, players, i, j);
    } else if j < i {
      CountAtLeastTwo(Live, players, j, i);
    }
  }

  lemma {:induction false} PotIsAwardable(players: seq<Contender>, buttonSeat: int, rankings: seq<Rankings>, pot: Pot,
      raked: Pot)
    requires Valid(Stakes(players)) && PotOf(Stakes(players), pot) && IsRaked(pot, raked)
    requires Count(Live, players) == 1
          || forall b, i :: 0 <= b < |rankings| && 0 <= i < |players| && Live(players[i]) ==>
            players[i].playerId in rankings[b]
    ensures Awardable(raked, rankings, OddChipOrder(players, buttonSeat))
  {
    OrderIsComplete(players, buttonSeat);
    EligibleDistinct(Stakes(players), pot.cap);
    forall p | p in raked.eligible ensures p in OddChipOrder(players, buttonSeat) {
      var i := EligibleAreLive(players, pot.cap, p);
    }
    forall b | 0 <= b < |rankings| ensures Ranked(raked.eligible, rankings[b]) {
      if Count(Live, players) == 1 && |raked.eligible| > 1 {
        var i := EligibleAreLive(players, pot.cap, raked.eligible[0]);
        var j := EligibleAreLive(players, pot.cap, raked.eligible[1]);
        OneLivePlayer(players, i, j);
      } else if Count(Live, players) != 1 {
        forall p | p in raked.eligible ensures p in rankings[b] {
          var i := EligibleAreLive(players, pot.cap, p);
        }
      }
    }
  }

  lemma {:induction false} PotsAreAwardable(players: seq<Contender>, buttonSeat: int, rankings: seq<Rankings>,
      pots: seq<Pot>, raked: seq<Pot>)
    requires Valid(Stakes(players)) && |raked| == |pots|
    requires forall k :: 0 <= k < |pots| ==> PotOf(Stakes(players), pots[k]) && IsRaked(pots[k], raked[k])
    requires Count(Live, players) == 1
          || forall b, i :: 0 <= b < |rankings| && 0 <= i < |players| && Live(players[i]) ==>
            players[i].playerId in rankings[b]
    ensures AllAwardable(raked, rankings, OddChipOrder(players, buttonSeat))
  {
    forall k | 0 <= k < |raked| ensures Awardable(raked[k], rankings, OddChipOrder(players, buttonSeat)) {
      PotIsAwardable(players, buttonSeat, rankings, pots[k], raked[k]);
    }
  }

  // ----- The result -----

  /**
   * What a settlement pays: to every player the shares of the raked pots won on each board plus the
   * unmatched part of the player's own contribution, in all every chip but the rake.
   */
  ghost predicate PaysExactly(players: seq<Contender>, rankings: seq<Rankings>, buttonSeat: int,
                              rakeBps: int, rakeCap: int, flopDealt: bool, o: Outcome)
    requires BuildPots(Stakes(players)).Ok?
  {
    var built := BuildPots(Stakes(players)).value;
    var order := OddChipOrder(players, buttonSeat);
    && Distinct(order)
    && |o.pots| == |built.pots|
    && AllAwardable(o.pots, rankings, order)
    && Within(o.payouts, order)
    && (forall k :: 0 <= k < |o.pots| ==> IsRaked(built.pots[k], o.pots[k]))
    && o.totalRake == (if flopDealt then Min(SumOf(AmountOf, built.pots) * rakeBps / 10000, rakeCap) else 0)
    && Total(o.payouts) + o.totalRake == SumOf(Put, Stakes(players))
    && forall i :: 0 <= i < |players| ==>
         Get(o.payouts, players[i].playerId) == PotAwards(o.pots, rankings, order, players[i].playerId)
           + Positive(players[i].contributed - MaxOther(Stakes(players), players[i].playerId))
  }

  lemma {:induction false} BuiltPotsArePositive(players: seq<Contender>)
    requires Settleable(players)
    ensures var built := BuildPots(Stakes(players)).value;
      && NonNegative(built.pots)
      && (forall k :: 0 <= k < |built.pots| ==> PotOf(Stakes(players), built.pots[k]))
      && Valid(Stakes(players))
  {
    var stakes := Stakes(players);
    var built := BuildPots(stakes).value;
    PotsAreNested(stakes, built);
    BuiltByLayers(stakes, built);
    forall pot | pot in built.pots ensures pot.amount >= 0 {
      var k :| 0 <= k < |built.pots| && built.pots[k] == pot;
    }
  }

  lemma {:induction false} RefundsWithinOrder(players: seq<Contender>, buttonSeat: int, built: Layering)
    requires BuildPots(Stakes(players)) == Ok(built)
    ensures Within(built.refunds, OddChipOrder(players, buttonSeat))
  {
    var stakes := Stakes(players);
    BuiltByLayers(stakes, built);
    OrderIsComplete(players, buttonSeat);
    forall s | s in stakes ensures s.playerId in OddChipOrder(players, buttonSeat) {
      var i :| 0 <= i < |stakes| && stakes[i] == s;
      assert players[i].playerId == s.playerId;
    }
    RefundsStayWithin(stakes, Levels(stakes), 0, Layering([], []), OddChipOrder(players, buttonSeat));
  }

  lemma {:induction false} RakedPots(players: seq<Contender>, rankings: seq<Rankings>, buttonSeat: int,
                                     rakeBps: int, rakeCap: int, flopDealt: bool, built: Layering)
    requires Settleable(players) && Terms(rakeBps, rakeCap) && BuildPots(Stakes(players)) == Ok(built)
    requires Count(Live, players) == 1
          || forall b, i :: 0 <= b < |rankings| && 0 <= i < |players| && Live(players[i]) ==>
            players[i].playerId in rankings[b]
    ensures ApplyRake(built.pots, rakeBps, rakeCap, flopDealt).Ok?
    ensures var raked := ApplyRake(built.pots, rakeBps, rakeCap, flopDealt).value;
      && |raked.pots| == |built.pots| > 0
      && (forall k :: 0 <= k < |raked.pots| ==> IsRaked(built.pots[k], raked.pots[k]))
      && AllAwardable(raked.pots, rankings, OddChipOrder(players, buttonSeat))
      && raked.totalRake == (if flopDealt then Min(SumOf(AmountOf, built.pots) * rakeBps / 10000, rakeCap) else 0)
      && SumOf(NetOf, raked.pots) + raked.totalRake == SumOf(AmountOf, built.pots)
  {
    BuiltPotsArePositive(players);
    RakeIsExact(built.pots, rakeBps, rakeCap, flopDealt);
    var raked := ApplyRake(built.pots, rakeBps, rakeCap, flopDealt).value;
    TargetNotNegative(built.pots, rakeBps, rakeCap, flopDealt);
    RakeKeepsPots(built.pots, RakeTarget(built.pots, rakeBps, rakeCap, flopDealt));
    PotsAreAwardable(players, buttonSeat, rankings, built.pots, raked.pots);
  }

  lemma {:induction false} TargetNotNegative(pots: seq<Pot>, rakeBps: int, rakeCap: int, flopDealt: bool)
    requires NonNegative(pots) && Terms(rakeBps, rakeCap)
    ensures RakeTarget(pots, rakeBps, rakeCap, flopDealt) >= 0
  {
    SumOfNonNegative(AmountOf, pots);
    FloorBelow(SumOf(AmountOf, pots), rakeBps);
  }

  /** Awards and refunds added up: every balance, and the total. */
  lemma {:induction false} PaidOut(pots: seq<Pot>, rankings: seq<Rankings>, order: seq<PlayerId>, refunds: Ledger)
    requires pots != [] && 1 <= |rankings| <= 2 && Distinct(order) && AllAwardable(pots, rankings, order)
    requires Within(refunds, order)
    ensures SettlePots(pots, rankings, order).Ok?
    ensures var payouts := AddAll(SettlePots(pots, rankings, order).value.awards, refunds);
      && Within(payouts, order)
      && Total(payouts) == SumOf(NetOf, pots) + Total(refunds)
      && forall p: PlayerId :: Get(payouts, p) == PotAwards(pots, rankings, order, p) + Get(refunds, p)
  {
    SettlementIsExact(pots, rankings, order);
    var awards := SettlePots(pots, rankings, order).value.awards;
    AwardsStayWithin(pots, rankings, order);
    AddAllStaysWithin(awards, refunds, order);
    AddAllSums(awards, refunds);
  }

  lemma {:induction false} AwardsStayWithin(pots: seq<Pot>, rankings: seq<Rankings>, order: seq<PlayerId>)
    requires SettlePots(pots, rankings, order).Ok? && rankings != [] && Distinct(order)
        && AllAwardable(pots, rankings, order)
    ensures Within(SettlePots(pots, rankings, order).value.awards, order)
  {
    PotsStayWithin(Settlement([], []), pots, rankings, order);
  }

  /** Settling raked pots with rankings for every live player never throws and pays exactly. */
  lemma {:induction false} FinalizeIsExact(players: seq<Contender>, rankings: seq<Rankings>, buttonSeat: int,
                        rakeBps: int, rakeCap: int, flopDealt: bool)
    requires Settleable(players) && Terms(rakeBps, rakeCap) && 1 <= |rankings| <= 2
    requires Count(Live, players) == 1
          || forall b, i :: 0 <= b < |rankings| && 0 <= i < |players| && Live(players[i]) ==>
            players[i].playerId in rankings[b]
    ensures var built := BuildPots(Stakes(players)).value;
      var raked := ApplyRake(built.pots, rakeBps, rakeCap, flopDealt);
      && raked.Ok?
      && var o := Finalize(players, built.refunds, raked.value.pots, raked.value.totalRake, rankings, buttonSeat);
         o.Ok? && PaysExactly(players, rankings, buttonSeat, rakeBps, rakeCap, flopDealt, o.value)
  {
    hide BuildPots, ApplyRake, SettlePots, OddChipOrder, PotAwards, AllAwardable, IsRaked, Awardable, MaxOther;
    var stakes := Stakes(players);
    var built := BuildPots(stakes).value;
    var order := OddChipOrder(players, buttonSeat);
    RakedPots(players, rankings, buttonSeat, rakeBps, rakeCap, flopDealt, built);
    var raked := ApplyRake(built.pots, rakeBps, rakeCap, flopDealt).value;
    BuiltPotsArePositive(players);
    OrderIsComplete(players, buttonSeat);
    RefundsWithinOrder(players, buttonSeat, built);
    PaidOut(raked.pots, rankings, order, built.refunds);
    var settled := SettlePots(raked.pots, rankings, order).value;
    var o := Outcome(AddAll(settled.awards, built.refunds), built.refunds, raked.totalRake, raked.pots,
      settled.details);
    PaidInFull(stakes, built, raked, o.payouts);
    Finalized(players, built.refunds, raked, rankings, buttonSeat, settled);
    BalancesAreExact(players, built, raked.pots, rankings, order, o.payouts);
  }

  lemma {:induction false} Finalized(players: seq<Contender>, refunds: Ledger, raked: Raked, rankings: seq<Rankings>,
                                     buttonSeat: int, settled: Settlement)
    requires SettlePots(raked.pots, rankings, OddChipOrder(players, buttonSeat)) == Ok(settled)
    requires Total(AddAll(settled.awards, refunds)) + raked.totalRake == SumOf(Put, Stakes(players))
    ensures Finalize(players, refunds, raked.pots, raked.totalRake, rankings, buttonSeat)
         == Ok(Outcome(AddAll(settled.awards, refunds), refunds, raked.totalRake, raked.pots, settled.details))
  {
  }

  lemma {:induction false} PaidInFull(stakes: seq<Stake>, built: Layering, raked: Raked, payouts: Ledger)
    requires BuildPots(stakes) == Ok(built)
    requires SumOf(NetOf, raked.pots) + raked.totalRake == SumOf(AmountOf, built.pots)
    requires Total(payouts) == SumOf(NetOf, raked.pots) + Total(built.refunds)
    ensures Total(payouts) + raked.totalRake == SumOf(Put, stakes)
  {
    BuildPotsSucceedsIff(stakes);
  }

  lemma {:induction false} BalancesAreExact(players: seq<Contender>, built: Layering, pots: seq<Pot>,
      rankings: seq<Rankings>,
                                            order: seq<PlayerId>, payouts: Ledger)
    requires BuildPots(Stakes(players)) == Ok(built)
    requires Distinct(order) && AllAwardable(pots, rankings, order)
    requires forall p: PlayerId :: Get(payouts, p) == PotAwards(pots, rankings, order, p) + Get(built.refunds, p)
    ensures forall i :: 0 <= i < |players| ==>
         Get(payouts, players[i].playerId) == PotAwards(pots, rankings, order, players[i].playerId)
           + Positive(players[i].contributed - MaxOther(Stakes(players), players[i].playerId))
  {
    hide BuildPots;
    forall i | 0 <= i < |players|
      ensures Get(built.refunds, players[i].playerId)
           == Positive(players[i].contributed - MaxOther(Stakes(players), players[i].playerId))
    {
      RefundIsExcess(Stakes(players), built, i);
    }
  }

  /** A hand everybody but one folded settles without any card, and exactly. */
  lemma {:induction false} UncontestedSettles(players: seq<Contender>, buttonSeat: int, flopDealt: bool, rakeBps: int,
      rakeCap: int)
    requires Settleable(players) && Terms(rakeBps, rakeCap) && Count(Live, players) == 1
    ensures var r := SettleUncontested(players, buttonSeat, flopDealt, rakeBps, rakeCap);
      r.Ok? && PaysExactly(players, [map[]], buttonSeat, rakeBps, rakeCap, flopDealt, r.value)
  {
    FinalizeIsExact(players, [map[]], buttonSeat, rakeBps, rakeCap, flopDealt);
  }

  lemma {:induction false} ShowdownChecksPass(game: Game, players: seq<Contender>, boards: seq<seq<int>>)
    requires forall k :: 0 <= k < |boards| ==> Dealt(game, players, boards[k])
    requires boards != []
    ensures forall b :: b in boards ==> |b| == 5
    ensures forall p :: p in players && !p.folded ==> |p.holeCards| == HoleCount(game)
  {
    assert Dealt(game, players, boards[0]);
  }

  lemma {:induction false} AllAreRanked(game: Game, players: seq<Contender>, boards: seq<seq<int>>)
    requires forall k :: 0 <= k < |boards| ==> Dealt(game, players, boards[k])
    ensures RankBoards(game, players, boards).Ok?
    ensures var rankings := RankBoards(game, players, boards).value;
      && |rankings| == |boards|
      && forall b, i :: 0 <= b < |rankings| && 0 <= i < |players| && Live(players[i]) ==>
        players[i].playerId in rankings[b]
  {
    BoardsAreRanked(game, players, boards);
    var rankings := RankBoards(game, players, boards).value;
    forall b, i | 0 <= b < |rankings| && 0 <= i < |players| && Live(players[i])
      ensures players[i].playerId in rankings[b]
    {
      BoardIsRanked(game, players, boards[b]);
    }
  }

  /** On every board, a live player is ranked by the evaluation of the player's own cards. */
  ghost predicate RankedByCards(game: Game, players: seq<Contender>, boards: seq<seq<int>>, rankings: seq<Rankings>) {
    && |rankings| == |boards|
    && forall b, i :: 0 <= b < |boards| && 0 <= i < |players| && Live(players[i]) ==>
         && players[i].playerId in rankings[b]
         && Evaluate(game, players[i].holeCards, boards[b]) == Ok(rankings[b][players[i].playerId])
  }

  lemma {:induction false} RankingsAreOwn(game: Game, players: seq<Contender>, boards: seq<seq<int>>)
    requires Valid(Stakes(players)) && forall k :: 0 <= k < |boards| ==> Dealt(game, players, boards[k])
    ensures RankBoards(game, players, boards).Ok?
    ensures RankedByCards(game, players, boards, RankBoards(game, players, boards).value)
  {
    hide Evaluate, RankBoard, Dealt, Valid;
    BoardsAreRanked(game, players, boards);
    ValidHasOwnIds(players);
    var rankings := RankBoards(game, players, boards).value;
    forall b, i | 0 <= b < |boards| && 0 <= i < |players| && Live(players[i])
      ensures players[i].playerId in rankings[b]
      ensures Evaluate(game, players[i].holeCards, boards[b]) == Ok(rankings[b][players[i].playerId])
    {
      RanksAreOwn(game, players, boards[b], i);
    }
  }

  /** Once its checks pass, a showdown is the settlement of its raked pots with its rankings. */
  lemma {:induction false} ShowdownIsFinalized(game: Game, players: seq<Contender>, boards: seq<seq<int>>,
      buttonSeat: int,
                            rakeBps: int, rakeCap: int)
    requires 1 <= |boards| <= 2 && forall b :: b in boards ==> |b| == 5
    requires forall p :: p in players && !p.folded ==> |p.holeCards| == HoleCount(game)
    requires BuildPots(Stakes(players)).Ok? && RankBoards(game, players, boards).Ok?
    requires ApplyRake(BuildPots(Stakes(players)).value.pots, rakeBps, rakeCap, true).Ok?
    ensures var built := BuildPots(Stakes(players)).value;
      var raked := ApplyRake(built.pots, rakeBps, rakeCap, true).value;
      SettleShowdown(game, players, boards, buttonSeat, rakeBps, rakeCap)
        == Finalize(players, built.refunds, raked.pots, raked.totalRake, RankBoards(game, players, boards).value,
          buttonSeat)
  {
  }

  /** A showdown of properly dealt players settles on one or two boards, and exactly. */
  lemma {:induction false} ShowdownSettles(game: Game, players: seq<Contender>, boards: seq<seq<int>>, buttonSeat: int,
                        rakeBps: int, rakeCap: int)
    requires Settleable(players) && Terms(rakeBps, rakeCap) && 1 <= |boards| <= 2
    requires forall k :: 0 <= k < |boards| ==> Dealt(game, players, boards[k])
    ensures RankBoards(game, players, boards).Ok?
    ensures RankedByCards(game, players, boards, RankBoards(game, players, boards).value)
    ensures var r := SettleShowdown(game, players, boards, buttonSeat, rakeBps, rakeCap);
      && r.Ok?
      && PaysExactly(players, RankBoards(game, players, boards).value, buttonSeat, rakeBps, rakeCap, true, r.value)
  {
    ShowdownChecksPass(game, players, boards);
    AllAreRanked(game, players, boards);
    BuiltPotsArePositive(players);
    RankingsAreOwn(game, players, boards);
    FinalizeIsExact(players, RankBoards(game, players, boards).value, buttonSeat, rakeBps, rakeCap, true);
    ShowdownIsFinalized(game, players, boards, buttonSeat, rakeBps, rakeCap);
  }

  /** No player of a settled hand is paid a negative amount. */
  lemma {:induction false} PayoutsNotNegative(players: seq<Contender>, rankings: seq<Rankings>, buttonSeat: int,
                           rakeBps: int, rakeCap: int, flopDealt: bool, o: Outcome, i: nat)
    requires BuildPots(Stakes(players)).Ok?
        && PaysExactly(players, rankings, buttonSeat, rakeBps, rakeCap, flopDealt, o)
    requires i < |players|
    ensures Get(o.payouts, players[i].playerId) >= 0
  {
    var order := OddChipOrder(players, buttonSeat);
    forall k | 0 <= k < |o.pots| ensures o.pots[k].net >= 0 {
      assert IsRaked(BuildPots(Stakes(players)).value.pots[k], o.pots[k]);
    }
    AwardsNotNegative(o.pots, rankings, order, players[i].playerId);
  }
}
