/** Every finished hand of a sound opening settles, and the table keeps every chip but the rake. */
module FinishedHands {
  import opened Wrappers
  import opened Seqs
  import opened Ledgers
  import opened Betting
  import opened BettingInvariant
  import opened BettingOpening
  import opened BettingRuns
  import opened BettingProgress
  import opened Stranding
  import Seats
  import Payouts
  import Pots
  import SidePots
  import Showdown
  import opened ShowdownTheorems

  // ----- Somebody always contests the pot -----

  predicate Paid(p: Player) { p.contributed > 0 }

  ghost predicate Grows(ps: seq<Player>, ps': seq<Player>) {
    |ps'| == |ps| && forall i :: 0 <= i < |ps| ==> ps'[i].contributed >= ps[i].contributed
  }

  lemma {:induction false} MorePaid(ps: seq<Player>, ps': seq<Player>)
    requires Grows(ps, ps')
    ensures Count(Paid, ps') >= Count(Paid, ps)
  {
    if ps != [] {
      MorePaid(ps[1..], ps'[1..]);
    }
  }

  lemma {:induction false} ActionGrows(h: Hand, f: Floor, a: Action, h': Hand)
    requires Invariant(h, f) && ApplyAction(h, a) == Ok(h')
    ensures Grows(h.players, h'.players)
  {
    hide Enact, FinishOrAdvance, LegalFor, ApplyAction, Mid, Table, Chips, Covered;
    var i, enacted := ActionParts(h, a, h');
    ActorIsPending(h, f, i);
    MoveGrows(h, f, i, a.move, enacted);
    FinishSameHand(enacted.(version := h.version + 1), h.players[i].seat, h');
  }

  lemma {:induction false} MoveGrows(h: Hand, f: Floor, i: nat, move: Move, h': Hand)
    requires Mid(h, f) && ToAct(h, i) && Enact(h, LegalFor(h, i), move) == Ok(h')
    ensures Grows(h.players, h'.players)
  {
    assert ChipsOk(h.players[i]);
  }

  lemma {:induction false} StepGrows(h: Hand, f: Floor, s: Step, h': Hand)
    requires Invariant(h, f) && Apply(h, s) == Ok(h')
    ensures Grows(h.players, h'.players)
  {
    match s
    case Act(action) => ActionGrows(h, f, action, h');
    case TimeOut(playerId, version) =>
      var a := TimeoutIsAction(h, playerId, version, h');
      ActionGrows(h, f, a, h');
    case _ =>
  }

  lemma {:induction false} PlayGrows(h: Hand, f: Floor, steps: seq<Step>, h': Hand)
    requires Invariant(h, f) && Play(h, steps) == Ok(h')
    ensures Count(Paid, h'.players) >= Count(Paid, h.players)
    decreases |steps|
  {
    if steps != [] {
      var next := Apply(h, steps[0]).value;
      StepGrows(h, f, steps[0], next);
      MorePaid(h.players, next.players);
      var f' := StepKeeps(h, f, steps[0], next);
      PlayGrows(next, f', steps[1..], h');
    }
  }

  lemma {:induction false} PostingPays(c: Config, sb: nat, bb: nat, straddler: int, h: Hand)
    requires ValidConfig(c) && Posting(c, sb, bb, straddler, h)
    ensures Count(Paid, h.players) >= 2
  {
    if sb < bb {
      CountAtLeastTwo(Paid, h.players, sb, bb);
    } else {
      CountAtLeastTwo(Paid, h.players, bb, sb);
    }
  }

  lemma {:induction false} OpeningPays(c: Config, h: Hand)
    requires CreateBettingState(c) == Ok(h)
    ensures Count(Paid, h.players) >= 2
  {
    OpenedPlayers(c, h);
    CheckedConfig(c);
    AcceptedStraddle(c);
    var sb, bb, straddler := OpeningPosts(c);
    PostingPays(c, sb, bb, straddler, Opened(c));
  }

  lemma {:induction false} OpenedPlayers(c: Config, h: Hand)
    requires CreateBettingState(c) == Ok(h)
    ensures h.players == Opened(c).players && h.buttonSeat == c.buttonSeat && h.game == c.game
  {
    if FirstActor(Opened(c)).None? {
      FinishSameHand(Opened(c), Opened(c).bigBlindSeat, h);
    }
  }

  // ----- The hand as the settlement sees it -----

  function ContenderOf(p: Player, hole: seq<int>): Showdown.Contender {
    Showdown.Contender(p.playerId, p.seat, p.contributed, p.folded, hole)
  }

  function Contenders(ps: seq<Player>, holes: seq<seq<int>>): (r: seq<Showdown.Contender>)
    requires |holes| == |ps|
    ensures |r| == |ps|
  {
    seq(|ps|, i requires 0 <= i < |ps| => ContenderOf(ps[i], holes[i]))
  }

  /** How a finished hand is settled: by the last player left, or by showing cards on the board. */
  function SettleHand(h: Hand, holes: seq<seq<int>>, rakeBps: int,
      rakeCap: int): Result<Showdown.Outcome, Showdown.Failure>
    requires |holes| == |h.players|
  {
    var players := Contenders(h.players, holes);
    if h.status == Complete then
      Showdown.SettleUncontested(players, h.buttonSeat, |h.board| >= 3, rakeBps, rakeCap)
    else
      Showdown.SettleShowdown(h.game, players, [h.board], h.buttonSeat, rakeBps, rakeCap)
  }

  lemma {:induction false} SameStakes(h: Hand, holes: seq<seq<int>>)
    requires |holes| == |h.players|
    ensures Showdown.Stakes(Contenders(h.players, holes)) == HandStakes(h)
    ensures Count(Showdown.Live, Contenders(h.players, holes)) == Count(Active, h.players)
  {
    SameLive(h.players, holes);
  }

  lemma {:induction false} SameLive(ps: seq<Player>, holes: seq<seq<int>>)
    requires |holes| == |ps|
    ensures Count(Showdown.Live, Contenders(ps, holes)) == Count(Active, ps)
  {
    if ps != [] {
      SameLive(ps[1..], holes[1..]);
      assert Contenders(ps, holes)[1..] == Contenders(ps[1..], holes[1..]);
    }
  }

  lemma {:induction false} SamePaid(ps: seq<Player>)
    ensures Count((s: Pots.Stake) => s.contributed > 0, Map(StakeOf, ps)) == Count(Paid, ps)
  {
    if ps != [] {
      SamePaid(ps[1..]);
      assert Map(StakeOf, ps)[1..] == Map(StakeOf, ps[1..]);
    }
  }

  lemma {:induction false} FinishedIsSettleable(h: Hand, f: Floor, holes: seq<seq<int>>)
    requires Invariant(h, f) && Pots.BuildPots(HandStakes(h)).Ok? && Count(Paid, h.players) >= 2
        && |holes| == |h.players|
    ensures Settleable(Contenders(h.players, holes))
  {
    SameStakes(h, holes);
    SamePaid(h.players);
    SidePots.PotsAreNested(HandStakes(h), Pots.BuildPots(HandStakes(h)).value);
  }

  /** What a finished hand owes its settlement: sound terms, and real cards if they must be shown. */
  ghost predicate Fair(h: Hand, holes: seq<seq<int>>, rakeBps: int, rakeCap: int) {
    && |holes| == |h.players|
    && Terms(rakeBps, rakeCap)
    && (h.status == Betting.Showdown ==> Dealt(h.game, Contenders(h.players, holes), h.board))
  }

  /** What a settled hand pays: every chip in the pot but the rake, to its players, nobody negatively. */
  ghost predicate SettledExactly(h: Hand, holes: seq<seq<int>>, o: Showdown.Outcome)
    requires |holes| == |h.players|
  {
    && Total(o.payouts) + o.totalRake == PotSize(h.players)
    && Within(o.payouts, Showdown.OddChipOrder(Contenders(h.players, holes), h.buttonSeat))
    && (forall i :: 0 <= i < |h.players| ==> Get(o.payouts, h.players[i].playerId) >= 0)
    && o.totalRake >= 0
    && (|h.board| < 3 ==> o.totalRake == 0)
  }

  /** A finished hand whose pots can be built settles without any error; every safe hand's can. */
  lemma {:induction false} FinishedHandSettles(h: Hand, f: Floor, holes: seq<seq<int>>, rakeBps: int, rakeCap: int)
    requires Invariant(h, f) && Terminal(h) && Count(Paid, h.players) >= 2
    requires f.safe || Pots.BuildPots(HandStakes(h)).Ok?
    requires Fair(h, holes, rakeBps, rakeCap)
    ensures SettleHand(h, holes, rakeBps, rakeCap).Ok?
    ensures SettledExactly(h, holes, SettleHand(h, holes, rakeBps, rakeCap).value)
  {
    if f.safe {
      SafeHandsBuildPots(h, f);
    }
    FinishedIsSettleable(h, f, holes);
    if h.status == Complete {
      FoldedOut(h, holes, rakeBps, rakeCap);
    } else {
      ShownDown(h, holes, rakeBps, rakeCap);
    }
    BoardCounts(h, f);
  }

  lemma {:induction false} BoardCounts(h: Hand, f: Floor)
    requires Invariant(h, f) && Terminal(h)
    ensures h.status == Complete ==> Count(Active, h.players) == 1
    ensures h.status == Betting.Showdown ==> |h.board| == 5
  {
  }

  lemma {:induction false} FoldedOut(h: Hand, holes: seq<seq<int>>, rakeBps: int, rakeCap: int)
    requires |holes| == |h.players| && Settleable(Contenders(h.players, holes)) && Terms(rakeBps, rakeCap)
    requires h.status == Complete && Count(Active, h.players) == 1
    ensures SettleHand(h, holes, rakeBps, rakeCap).Ok?
    ensures SettledExactly(h, holes, SettleHand(h, holes, rakeBps, rakeCap).value)
  {
    var players := Contenders(h.players, holes);
    SameStakes(h, holes);
    ContributionsAreStakes(h.players);
    RakeNotNegative(HandStakes(h), rakeBps, rakeCap);
    UncontestedSettles(players, h.buttonSeat, |h.board| >= 3, rakeBps, rakeCap);
    PaysNobodyNegative(h, holes, [map[]], rakeBps, rakeCap, |h.board| >= 3,
      SettleHand(h, holes, rakeBps, rakeCap).value);
  }

  lemma {:induction false} ShownDown(h: Hand, holes: seq<seq<int>>, rakeBps: int, rakeCap: int)
    requires |holes| == |h.players| && Settleable(Contenders(h.players, holes)) && Terms(rakeBps, rakeCap)
    requires h.status == Betting.Showdown && Dealt(h.game, Contenders(h.players, holes), h.board)
    ensures SettleHand(h, holes, rakeBps, rakeCap).Ok?
    ensures SettledExactly(h, holes, SettleHand(h, holes, rakeBps, rakeCap).value)
  {
    var players := Contenders(h.players, holes);
    SameStakes(h, holes);
    ContributionsAreStakes(h.players);
    RakeNotNegative(HandStakes(h), rakeBps, rakeCap);
    ShowdownSettles(h.game, players, [h.board], h.buttonSeat, rakeBps, rakeCap);
    PaysNobodyNegative(h, holes, Showdown.RankBoards(h.game, players, [h.board]).value, rakeBps, rakeCap, true,
      SettleHand(h, holes, rakeBps, rakeCap).value);
  }

  lemma {:induction false} PaysNobodyNegative(h: Hand, holes: seq<seq<int>>, rankings: seq<Pots.Rankings>, rakeBps: int,
      rakeCap: int,
      flopDealt: bool, o: Showdown.Outcome)
    requires |holes| == |h.players|
    requires Pots.BuildPots(Showdown.Stakes(Contenders(h.players, holes))).Ok?
    requires PaysExactly(Contenders(h.players, holes), rankings, h.buttonSeat, rakeBps, rakeCap, flopDealt, o)
    ensures forall i :: 0 <= i < |h.players| ==> Get(o.payouts, h.players[i].playerId) >= 0
  {
    var players := Contenders(h.players, holes);
    forall i | 0 <= i < |h.players| ensures Get(o.payouts, h.players[i].playerId) >= 0 {
      assert players[i].playerId == h.players[i].playerId;
      PayoutsNotNegative(players, rankings, h.buttonSeat, rakeBps, rakeCap, flopDealt, o, i);
    }
  }

  lemma {:induction false} RakeNotNegative(stakes: seq<Pots.Stake>, rakeBps: int, rakeCap: int)
    requires Pots.BuildPots(stakes).Ok? && Terms(rakeBps, rakeCap)
    ensures Min(SumOf(Pots.AmountOf, Pots.BuildPots(stakes).value.pots) * rakeBps / 10000, rakeCap) >= 0
  {
    var built := Pots.BuildPots(stakes).value;
    SidePots.PotsAreNested(stakes, built);
    forall pot | pot in built.pots ensures Pots.AmountOf(pot) >= 0 {
      var k :| 0 <= k < |built.pots| && built.pots[k] == pot;
    }
    SumOfNonNegative(Pots.AmountOf, built.pots);
    Payouts.FloorBelow(SumOf(Pots.AmountOf, built.pots), rakeBps);
  }

  lemma {:induction false} ContributionsAreStakes(ps: seq<Player>)
    ensures SumOf(Pots.Put, Map(StakeOf, ps)) == PotSize(ps)
  {
    if ps != [] {
      ContributionsAreStakes(ps[1..]);
      assert Map(StakeOf, ps)[1..] == Map(StakeOf, ps[1..]);
    }
  }

  /**
   * The payouts of a finished hand in full: the rake of the called pots at the table's rate, every raked
   * pot to its winners by their own cards, and the unmatched part of a contribution back to its player.
   */
  lemma {:induction false} FinishedHandPays(h: Hand, f: Floor, holes: seq<seq<int>>, rakeBps: int, rakeCap: int)
    returns (rankings: seq<Pots.Rankings>)
    requires Invariant(h, f) && Terminal(h) && Count(Paid, h.players) >= 2
    requires Pots.BuildPots(HandStakes(h)).Ok? && Fair(h, holes, rakeBps, rakeCap)
    ensures SettleHand(h, holes, rakeBps, rakeCap).Ok?
    ensures Pots.BuildPots(Showdown.Stakes(Contenders(h.players, holes))).Ok?
    ensures PaysExactly(Contenders(h.players, holes), rankings, h.buttonSeat, rakeBps, rakeCap, |h.board| >= 3,
      SettleHand(h, holes, rakeBps, rakeCap).value)
    ensures h.status == Betting.Showdown ==>
      RankedByCards(h.game, Contenders(h.players, holes), [h.board], rankings)
    ensures h.status == Complete ==> rankings == [map[]]
  {
    hide Invariant, PaysExactly, RankedByCards;
    FinishedIsSettleable(h, f, holes);
    BoardCounts(h, f);
    SameStakes(h, holes);
    var players := Contenders(h.players, holes);
    if h.status == Complete {
      UncontestedSettles(players, h.buttonSeat, |h.board| >= 3, rakeBps, rakeCap);
      rankings := [map[]];
    } else {
      ShowdownSettles(h.game, players, [h.board], h.buttonSeat, rakeBps, rakeCap);
      rankings := Showdown.RankBoards(h.game, players, [h.board]).value;
    }
  }

  // ----- Stacks after the hand -----

  function StackAfter(p: Player, payouts: Ledger): int { p.stack + Get(payouts, p.playerId) }

  function TotalAfter(ps: seq<Player>, payouts: Ledger): int {
    if ps == [] then 0 else StackAfter(ps[0], payouts) + TotalAfter(ps[1..], payouts)
  }

  function Ids(ps: seq<Player>): seq<nat> {
    if ps == [] then [] else [ps[0].playerId] + Ids(ps[1..])
  }

  lemma {:induction false} IdsAre(ps: seq<Player>)
    ensures |Ids(ps)| == |ps| && forall i :: 0 <= i < |ps| ==> Ids(ps)[i] == ps[i].playerId
  {
    if ps != [] {
      IdsAre(ps[1..]);
    }
  }

  lemma {:induction false} StacksPlusPayouts(ps: seq<Player>, payouts: Ledger)
    ensures TotalAfter(ps, payouts) == SumOf(StackOf, ps) + SumOver(payouts, Ids(ps))
  {
    if ps != [] {
      StacksPlusPayouts(ps[1..], payouts);
      assert Ids(ps)[1..] == Ids(ps[1..]);
    }
  }

  lemma {:induction false} ChipsSplit(ps: seq<Player>)
    ensures SumOf(ChipsOf, ps) == SumOf(StackOf, ps) + PotSize(ps)
  {
    if ps != [] {
      ChipsSplit(ps[1..]);
    }
  }

  lemma {:induction false} OrderWithinIds(ps: seq<Player>, holes: seq<seq<int>>, buttonSeat: int, payouts: Ledger)
    requires |holes| == |ps| && Within(payouts, Showdown.OddChipOrder(Contenders(ps, holes), buttonSeat))
    ensures Within(payouts, Ids(ps))
  {
    var players := Contenders(ps, holes);
    var around := Seats.Clockwise(Showdown.SeatOf, players, buttonSeat);
    var order := Showdown.OddChipOrder(players, buttonSeat);
    Seats.ClockwiseKeepsMembers(Showdown.SeatOf, players, buttonSeat);
    IdsAre(ps);
    forall i | 0 <= i < |payouts| ensures payouts[i].key in Ids(ps) {
      assert payouts[i].key in order;
      var k :| 0 <= k < |order| && order[k] == payouts[i].key;
      assert around[k] in around && around[k] in players;
      var j :| 0 <= j < |players| && players[j] == around[k];
      assert Ids(ps)[j] == payouts[i].key;
    }
  }

  /**
   * The end of every hand conserves chips: whatever the players did, new stacks and rake add up to
   * the chips the players sat down with.
   */
  lemma {:induction false} HandConservesChips(c: Config, steps: seq<Step>, h: Hand, holes: seq<seq<int>>, rakeBps: int,
      rakeCap: int)
    requires PlayFrom(c, steps) == Ok(h) && Terminal(h) && !StrandsPot(c)
    requires Fair(h, holes, rakeBps, rakeCap)
    ensures SettleHand(h, holes, rakeBps, rakeCap).Ok?
    ensures var o := SettleHand(h, holes, rakeBps, rakeCap).value;
      TotalAfter(h.players, o.payouts) + o.totalRake == SumOf(BroughtBy, c.players)
  {
    var start := CreateBettingState(c).value;
    OpeningHolds(c, start);
    OpeningPays(c, start);
    var f := PlayKeeps(start, Floor(c.ante, !StrandsPot(c)), steps, h);
    PlayGrows(start, Floor(c.ante, !StrandsPot(c)), steps, h);
    PlaySameHand(start, steps, h);
    SameChips(start, h);
    FinishedConserves(h, f, holes, rakeBps, rakeCap);
    OpeningChips(c, start);
  }

  lemma {:induction false} FinishedConserves(h: Hand, f: Floor, holes: seq<seq<int>>, rakeBps: int, rakeCap: int)
    requires Invariant(h, f) && Terminal(h) && Count(Paid, h.players) >= 2
    requires f.safe || Pots.BuildPots(HandStakes(h)).Ok?
    requires Fair(h, holes, rakeBps, rakeCap)
    ensures SettleHand(h, holes, rakeBps, rakeCap).Ok?
    ensures var o := SettleHand(h, holes, rakeBps, rakeCap).value;
      TotalAfter(h.players, o.payouts) + o.totalRake == AllChips(h)
  {
    FinishedHandSettles(h, f, holes, rakeBps, rakeCap);
    var o := SettleHand(h, holes, rakeBps, rakeCap).value;
    OrderWithinIds(h.players, holes, h.buttonSeat, o.payouts);
    IdsAre(h.players);
    BalancesAddUp(o.payouts, Ids(h.players));
    StacksPlusPayouts(h.players, o.payouts);
    ChipsSplit(h.players);
  }

  /** A hand settles only if its pots can be built. */
  lemma {:induction false} SettlingBuildsPots(h: Hand, holes: seq<seq<int>>, rakeBps: int, rakeCap: int)
    requires |holes| == |h.players| && SettleHand(h, holes, rakeBps, rakeCap).Ok?
    ensures Pots.BuildPots(HandStakes(h)).Ok?
  {
    SameStakes(h, holes);
  }

  /** An accepted opening puts every buy-in on the table and nothing else. */
  function BroughtBy(e: Entrant): int { e.stack }

  lemma {:induction false} OpeningChips(c: Config, h: Hand)
    requires CreateBettingState(c) == Ok(h)
    ensures AllChips(h) == SumOf(BroughtBy, c.players)
  {
    OpenedPlayers(c, h);
    CheckedConfig(c);
    AcceptedStraddle(c);
    var sb, bb, straddler := OpeningPosts(c);
    EntrantChips(c, sb, bb, straddler, c.players, h.players, 0);
    assert c.players[0..] == c.players && h.players[0..] == h.players;
  }

  /** Every player starts with the buy-in of its entrant, forced bets included. */
  lemma {:induction false} OpeningEntrants(c: Config, h: Hand)
    requires CreateBettingState(c) == Ok(h)
    ensures |h.players| == |c.players|
    ensures forall k :: 0 <= k < |h.players| ==>
      h.players[k].playerId == c.players[k].playerId && h.players[k].seat == c.players[k].seat
      && ChipsOf(h.players[k]) == c.players[k].stack
  {
    OpenedPlayers(c, h);
    CheckedConfig(c);
    AcceptedStraddle(c);
    var sb, bb, straddler := OpeningPosts(c);
    PostingEntrants(c, sb, bb, straddler, Opened(c));
  }

  lemma {:induction false} PostingEntrants(c: Config, sb: nat, bb: nat, straddler: int, h: Hand)
    requires Posting(c, sb, bb, straddler, h)
    ensures |h.players| == |c.players|
    ensures forall k :: 0 <= k < |h.players| ==>
      h.players[k].playerId == c.players[k].playerId && h.players[k].seat == c.players[k].seat
      && ChipsOf(h.players[k]) == c.players[k].stack
  {
  }

  lemma {:induction false} EntrantChips(c: Config, sb: nat, bb: nat, straddler: int, es: seq<Entrant>, ps: seq<Player>,
      i: nat)
    requires |ps| == |es| && i <= |ps|
    requires forall k :: 0 <= k < |ps| ==> ps[k] == Posted(c, es[k], Forced(c, sb, bb, straddler, k))
    ensures SumOf(ChipsOf, ps[i..]) == SumOf(BroughtBy, es[i..])
    decreases |ps| - i
  {
    if i < |ps| {
      EntrantChips(c, sb, bb, straddler, es, ps, i + 1);
      assert ps[i..][1..] == ps[i + 1..] && es[i..][1..] == es[i + 1..];
    }
  }
}
