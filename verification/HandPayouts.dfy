/**
 * What finishing a hand does at the table: which cards count, who is paid what, what the house takes, and
 * how every seat comes out of the hand (finishHand and HAND_FINISHED of server/table-coordinator.js).
 */
module HandPayouts {
  import opened Wrappers
  import opened Seqs
  import opened Ledgers
  import opened Tables
  import opened TableSeats
  import opened TableInvariant
  import opened TableFinish
  import B = Betting
  import BI = BettingInvariant
  import BettingProgress
  import D = DeckMerkle
  import DealMaps
  import Dealing
  import F = Fairness
  import FinishedHands
  import Pots
  import Showdown
  import ShowdownTheorems
  import Stranding

  // ----- Cards and contributions -----

  /** A player as the settlement sees it, holding the deck's cards at the positions of the player's turn. */
  ghost predicate Brings(c: Showdown.Contender, p: B.Player, order: seq<int>, positions: seq<int>) {
    && c.playerId == p.playerId && c.seat == p.seat && c.contributed == p.contributed && c.folded == p.folded
    && |c.holeCards| == |positions|
    && forall k :: 0 <= k < |positions| ==> 0 <= positions[k] < |order| && c.holeCards[k] == order[positions[k]]
  }

  /** Everybody brings the own contribution and the hole cards planned for as many players at lower seats. */
  ghost predicate AllBring(players: seq<Showdown.Contender>, ps: seq<B.Player>, order: seq<int>, plan: DealMaps.Plan) {
    && |players| == |ps|
    && forall i :: 0 <= i < |ps| ==>
         var turn := Count((p: B.Player) => p.seat < ps[i].seat, ps);
         turn in plan.holeCards && Brings(players[i], ps[i], order, plan.holeCards[turn])
  }

  lemma {:induction false} ContendersBring(h: B.Hand, order: seq<int>, plan: DealMaps.Plan)
    requires DeckCovers(order, plan, |h.players|)
    ensures AllBring(FinishedHands.Contenders(h.players, HolesOf(order, plan, h.players)), h.players, order, plan)
  {
    var players := FinishedHands.Contenders(h.players, HolesOf(order, plan, h.players));
    forall i | 0 <= i < |h.players|
      ensures var turn := Count((p: B.Player) => p.seat < h.players[i].seat, h.players);
        turn in plan.holeCards && Brings(players[i], h.players[i], order, plan.holeCards[turn])
    {
      Dealing.RankBelow(h.players, i);
      var turn := Dealing.SeatRank(h.players, h.players[i].seat);
      assert InDeck(plan.holeCards[turn], |order|);
    }
  }

  // ----- The payments -----

  /**
   * A finished hand pays by the rules of the table: the house takes the table's percentage of the called
   * pots up to its cap, if a flop was dealt; each pot goes to its eligible players with the best of their
   * own cards from the committed deck on the dealt board, odd chips clockwise of the button; what nobody
   * matched goes back; and every player's stack grows by exactly that.
   */
  lemma {:induction false} FinishPaysByTheRules(dealers: Dealers, s: State, record: F.PublicRecord, serverSeed: nat,
      seeds: seq<F.Seed>, deck: D.CommittedDeck, e: TableEvent)
    returns (players: seq<Showdown.Contender>, rankings: seq<Pots.Rankings>, o: Showdown.Outcome)
    requires TableOk(s) && Audited(dealers, s, record, serverSeed, seeds, deck)
    requires DecideFinish(dealers, s, record, serverSeed, seeds) == Some(e)
    ensures BettingProgress.Terminal(s.current.value.betting.hand) && PlanOf(s.current.value.fairness).Ok?
    ensures AllBring(players, s.current.value.betting.hand.players, deck.order, PlanOf(s.current.value.fairness).value)
    ensures Pots.BuildPots(Showdown.Stakes(players)).Ok?
    ensures var h, rules := s.current.value.betting.hand, s.rules.value;
      && ShowdownTheorems.PaysExactly(players, rankings, h.buttonSeat, rules.rakeBps, rules.rakeCap, |h.board| >= 3, o)
      && (h.status == B.Showdown ==> ShowdownTheorems.RankedByCards(h.game, players, [h.board], rankings))
      && (h.status == B.Complete ==> rankings == [map[]])
      && e.HandFinished? && e.rake == o.totalRake && |e.stacks| == |h.players|
      && forall i :: 0 <= i < |h.players| ==>
           e.stacks[i].playerId == h.players[i].playerId
           && e.stacks[i].stack == h.players[i].stack + Get(o.payouts, h.players[i].playerId)
  {
    hide F.VerifyAudit, DecideFinish, DeckCovers, Dealing.CommittedBoard, F.IsDeck, HandOk, SeatsOk, BoardOk, AllHeld,
         FinishedHands.SettleHand, FinishedHands.Fair, Pots.BuildPots, PlanOf, HolesOf, FinishedHands.TotalAfter, SumOf,
         AllBring, ShowdownTheorems.PaysExactly, ShowdownTheorems.RankedByCards, FinishedHands.Contenders;
    FinishIsTerminal(dealers, s, record, serverSeed, seeds);
    var hand, rules := s.current.value, s.rules.value;
    AuditFits(dealers, s, record, serverSeed, seeds, deck);
    FinishIsSettlement(dealers, s, record, serverSeed, seeds, deck);
    var plan, h := PlanOf(hand.fairness).value, hand.betting.hand;
    HandIsFair(s.seats, hand, deck.order, rules);
    var holes := HolesOf(deck.order, plan, h.players);
    players := FinishedHands.Contenders(h.players, holes);
    ContendersBring(h, deck.order, plan);
    FinishedHands.SettlingBuildsPots(h, holes, rules.rakeBps, rules.rakeCap);
    rankings := HandPaid(h, holes, rules.rakeBps, rules.rakeCap);
    o := FinishedHands.SettleHand(h, holes, rules.rakeBps, rules.rakeCap).value;
  }

  lemma {:induction false} HandPaid(h: B.Hand, holes: seq<seq<int>>, rakeBps: int, rakeCap: int)
    returns (rankings: seq<Pots.Rankings>)
    requires HandOk(h) && BettingProgress.Terminal(h) && FinishedHands.Fair(h, holes, rakeBps, rakeCap)
    requires Pots.BuildPots(Stranding.HandStakes(h)).Ok?
    ensures FinishedHands.SettleHand(h, holes, rakeBps, rakeCap).Ok?
    ensures Pots.BuildPots(Showdown.Stakes(FinishedHands.Contenders(h.players, holes))).Ok?
    ensures ShowdownTheorems.PaysExactly(FinishedHands.Contenders(h.players, holes), rankings, h.buttonSeat, rakeBps,
      rakeCap, |h.board| >= 3, FinishedHands.SettleHand(h, holes, rakeBps, rakeCap).value)
    ensures h.status == B.Showdown ==>
      ShowdownTheorems.RankedByCards(h.game, FinishedHands.Contenders(h.players, holes), [h.board], rankings)
    ensures h.status == B.Complete ==> rankings == [map[]]
  {
    var f :| BI.Invariant(h, f);
    hide BI.Invariant, FinishedHands.SettleHand, FinishedHands.Fair, Stranding.HandStakes,
         ShowdownTheorems.PaysExactly, ShowdownTheorems.RankedByCards, FinishedHands.Contenders;
    rankings := FinishedHands.FinishedHandPays(h, f, holes, rakeBps, rakeCap);
  }

  // ----- The seats afterwards -----

  /** The new stack listed for a player, if any. */
  ghost predicate Listed(stacks: seq<StackUpdate>, playerId: PlayerId, stack: int) {
    exists k :: 0 <= k < |stacks| && stacks[k] == StackUpdate(playerId, stack)
  }

  ghost predicate Unlisted(stacks: seq<StackUpdate>, playerId: PlayerId) {
    forall k :: 0 <= k < |stacks| ==> stacks[k].playerId != playerId
  }

  /** A seat as a hand leaves it: with the new stack, out if it is empty or the player asked to sit out. */
  predicate CameOut(x: Seat, y: Seat, stack: int) {
    y == Seat(x.playerId, x.seat, stack,
              if stack == 0 then Busted else if x.sitOutNextHand then SittingOut else Seated,
              x.timeBank, false, x.leaving)
  }

  ghost predicate SettledAlike(seats: seq<Seat>, seats': seq<Seat>, stacks: seq<StackUpdate>) {
    && |seats'| == |seats|
    && forall j :: 0 <= j < |seats| ==>
         && (Unlisted(stacks, seats[j].playerId) ==> seats'[j] == seats[j])
         && forall stack :: Listed(stacks, seats[j].playerId, stack) ==> CameOut(seats[j], seats'[j], stack)
  }

  ghost predicate OncePerPlayer(stacks: seq<StackUpdate>) {
    forall i, j :: 0 <= i < j < |stacks| ==> stacks[i].playerId != stacks[j].playerId
  }

  lemma {:induction false} SettlesEach(seats: seq<Seat>, stacks: seq<StackUpdate>)
    requires SeatIds(seats) && OncePerPlayer(stacks) && SettleSeats(seats, stacks).Ok?
    ensures SettledAlike(seats, SettleSeats(seats, stacks).value, stacks)
    decreases |stacks|
  {
    hide CameOut;
    if stacks != [] {
      var first, rest := stacks[0], stacks[1..];
      var f := (s: Seat) => WithSettled(s, first.stack);
      var i := IndexOfId(seats, first.playerId).value;
      var next := seats[i := f(seats[i])];
      SettlesEach(next, rest);
      var after := SettleSeats(next, rest).value;
      forall j | 0 <= j < |seats|
        ensures Unlisted(stacks, seats[j].playerId) ==> after[j] == seats[j]
        ensures forall stack :: Listed(stacks, seats[j].playerId, stack) ==> CameOut(seats[j], after[j], stack)
      {
        FirstUpdate(stacks, seats[j].playerId);
        if j == i {
          SettledOnce(seats[i], first.stack);
        }
      }
    }
  }

  ghost predicate SeatIds(seats: seq<Seat>) {
    forall i, j :: 0 <= i < j < |seats| ==> seats[i].playerId != seats[j].playerId
  }

  lemma {:induction false} SettledOnce(x: Seat, stack: int)
    ensures CameOut(x, WithSettled(x, stack), stack)
  {
  }

  lemma {:induction false} FirstUpdate(stacks: seq<StackUpdate>, playerId: PlayerId)
    requires stacks != [] && OncePerPlayer(stacks)
    ensures stacks[0].playerId == playerId ==>
      Unlisted(stacks[1..], playerId) && forall stack :: Listed(stacks, playerId, stack) ==> stack == stacks[0].stack
    ensures stacks[0].playerId != playerId ==>
      && (Unlisted(stacks, playerId) ==> Unlisted(stacks[1..], playerId))
      && forall stack :: Listed(stacks, playerId, stack) ==> Listed(stacks[1..], playerId, stack)
    ensures stacks[0].playerId == playerId ==> !Unlisted(stacks, playerId)
  {
    var rest := stacks[1..];
    assert forall k :: 0 <= k < |rest| ==> rest[k] == stacks[k + 1];
    forall stack | Listed(stacks, playerId, stack)
      ensures stacks[0].playerId == playerId ==> stack == stacks[0].stack
      ensures stacks[0].playerId != playerId ==> Listed(rest, playerId, stack)
    {
      var k :| 0 <= k < |stacks| && stacks[k] == StackUpdate(playerId, stack);
      if k > 0 {
        assert rest[k - 1] == stacks[k];
      }
    }
  }

  /**
   * After the hand the table waits, the rake is added up, leaving players are gone, everybody else in
   * the hand sits with the stack paid out, and bystanders sit as they did.
   */
  lemma {:induction false} SeatsAfterHand(s: State, rake: int, stacks: seq<StackUpdate>, x: Seat)
    requires SeatsOk(s.seats) && OncePerPlayer(stacks) && SettleSeats(s.seats, stacks).Ok? && x in s.seats
    ensures Step(s, HandFinished(rake, stacks)).Ok?
    ensures var s' := Step(s, HandFinished(rake, stacks)).value;
      && s'.status == Waiting && s'.current.None? && s'.totalRake == s.totalRake + rake
      && s'.handNumber == s.handNumber && s'.buttonSeat == s.buttonSeat && s'.rules == s.rules
      && (x.leaving ==> forall y :: y in s'.seats ==> y.playerId != x.playerId)
      && (!x.leaving && Unlisted(stacks, x.playerId) ==> x in s'.seats)
      && (!x.leaving ==> forall stack :: Listed(stacks, x.playerId, stack) ==>
            exists y :: y in s'.seats && CameOut(x, y, stack))
  {
    hide SettleSeats, Filter, CameOut;
    SettlesEach(s.seats, stacks);
    var settled := SettleSeats(s.seats, stacks).value;
    var seats' := Filter(Staying, settled);
    var j :| 0 <= j < |s.seats| && s.seats[j] == x;
    assert settled[j] in settled;
    SameSeats(s.seats, settled, stacks);
    forall stack | !x.leaving && Listed(stacks, x.playerId, stack)
      ensures exists y :: y in seats' && CameOut(x, y, stack)
    {
      CameOutStays(x, settled[j], stack);
      assert settled[j] in seats' && CameOut(x, settled[j], stack);
    }
    forall y | x.leaving && y in seats' ensures y.playerId != x.playerId {
      var m :| 0 <= m < |settled| && settled[m] == y;
      assert m == j ==> settled[j].leaving;
    }
  }

  lemma {:induction false} CameOutStays(x: Seat, y: Seat, stack: int)
    requires CameOut(x, y, stack)
    ensures y.leaving == x.leaving && y.playerId == x.playerId
  {
  }

  /** Settling changes neither who sits where nor who is leaving. */
  lemma {:induction false} SameSeats(seats: seq<Seat>, settled: seq<Seat>, stacks: seq<StackUpdate>)
    requires SettledAlike(seats, settled, stacks)
    ensures forall m :: 0 <= m < |seats| ==>
      settled[m].playerId == seats[m].playerId && settled[m].leaving == seats[m].leaving
  {
    hide CameOut;
    forall m | 0 <= m < |seats|
      ensures settled[m].playerId == seats[m].playerId && settled[m].leaving == seats[m].leaving
    {
      if !Unlisted(stacks, seats[m].playerId) {
        var k :| 0 <= k < |stacks| && stacks[k].playerId == seats[m].playerId;
        assert Listed(stacks, seats[m].playerId, stacks[k].stack);
        CameOutStays(seats[m], settled[m], stacks[k].stack);
      }
    }
  }
}
