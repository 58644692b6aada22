/** Finishing a hand at the table: it settles whenever it can, and moves chips exactly. */
module TableFinish {
  import opened Wrappers
  import opened Seqs
  import opened Ledgers
  import opened Tables
  import opened TableSeats
  import opened TableInvariant
  import B = Betting
  import BI = BettingInvariant
  import BettingProgress
  import D = DeckMerkle
  import DealMaps
  import Dealing
  import F = Fairness
  import FinishedHands
  import Pots
  import Showdown
  import Stranding

  // ----- The audited deck -----

  lemma {:induction false} AuditedDeck(dealer: F.Dealer, record: F.PublicRecord, serverSeed: nat, seeds: seq<F.Seed>)
    requires F.VerifyAudit(dealer, record, serverSeed, seeds).Some?
    ensures var deck := F.VerifyAudit(dealer, record, serverSeed, seeds).value;
      F.IsDeck(deck.order) && D.Commits(deck) && deck.root == record.deckRoot
  {
    F.AuditDeterminesTheDeal(dealer, record, serverSeed, seeds, serverSeed, seeds);
  }

  /** The board of a finished hand passes the comparison with the audited deck. */
  lemma {:induction false} BoardCheckNeverFails(seats: seq<Seat>, hand: CurrentHand, deck: D.CommittedDeck)
    requires PlayOk(seats, hand) && D.Commits(deck) && deck.root == hand.deckRoot && F.IsDeck(deck.order)
    ensures PlanOf(hand.fairness).Ok?
    ensures var plan := PlanOf(hand.fairness).value;
      Dealing.CommittedBoard(deck.order, plan, hand.betting.hand.board)
      && DeckCovers(deck.order, plan, |hand.betting.hand.players|)
  {
    var plan := PlanOf(hand.fairness).value;
    var rules := hand.fairness;
    Dealing.PlanShape(rules.game, rules.seats, rules.buttonSeat, rules.boards);
    forall r | 0 <= r < rules.seats ensures r in plan.holeCards && InDeck(plan.holeCards[r], 52)
      && InDeck(Dealing.BoardPositions(plan), 52) {
      Dealing.PlanPositions(rules.game, rules.seats, rules.buttonSeat, rules.boards, r);
      SplitInDeck(plan.holeCards[r], Dealing.BoardPositions(plan));
    }
    assert 0 <= 0 < rules.seats;
  }

  lemma {:induction false} SplitInDeck(a: seq<int>, b: seq<int>)
    requires forall i :: 0 <= i < |a + b| ==> 0 <= (a + b)[i] < 52
    ensures InDeck(a, 52) && InDeck(b, 52)
  {
    forall k | 0 <= k < |a| ensures 0 <= a[k] < 52 {
      assert (a + b)[k] == a[k];
    }
    forall k | 0 <= k < |b| ensures 0 <= b[k] < 52 {
      assert (a + b)[|a| + k] == b[k];
    }
  }

  lemma {:induction false} HolesAreDealt(order: seq<int>, plan: DealMaps.Plan, players: seq<B.Player>)
    requires DeckCovers(order, plan, |players|)
    ensures Dealing.DealtHoles(order, plan, players, HolesOf(order, plan, players))
  {
    forall i | 0 <= i < |players|
      ensures var rank := Dealing.SeatRank(players, players[i].seat);
        && rank in plan.holeCards
        && (forall k :: 0 <= k < |plan.holeCards[rank]| ==> 0 <= plan.holeCards[rank][k] < |order|)
        && HolesOf(order, plan, players)[i] == Dealing.CardsAt(order, plan.holeCards[rank])
    {
      Dealing.RankBelow(players, i);
      assert InDeck(plan.holeCards[Dealing.SeatRank(players, players[i].seat)], |order|);
    }
  }

  /** A complete board is the expected one. */
  lemma {:induction false} FullBoard(order: seq<int>, plan: DealMaps.Plan, board: seq<int>, seats: nat)
    requires DeckCovers(order, plan, seats) && Dealing.CommittedBoard(order, plan, board)
    requires |board| == |Dealing.BoardPositions(plan)|
    ensures Dealing.BoardCards(order, plan) == board
  {
  }

  /** The hand the table settles meets the terms of a fair settlement. */
  lemma {:induction false} HandIsFair(seats: seq<Seat>, hand: CurrentHand, order: seq<int>, rules: TableRules)
    requires PlayOk(seats, hand) && F.IsDeck(order) && ValidRules(rules)
    requires PlanOf(hand.fairness).Ok?
    requires DeckCovers(order, PlanOf(hand.fairness).value, |hand.betting.hand.players|)
    requires Dealing.CommittedBoard(order, PlanOf(hand.fairness).value, hand.betting.hand.board)
    requires BettingProgress.Terminal(hand.betting.hand)
    ensures var plan := PlanOf(hand.fairness).value; var h := hand.betting.hand;
      var holes := HolesOf(order, plan, h.players);
      && FinishedHands.Fair(h, holes, rules.rakeBps, rules.rakeCap)
      && SettlementOf(h, holes, Dealing.BoardCards(order, plan), rules)
           == FinishedHands.SettleHand(h, holes, rules.rakeBps, rules.rakeCap)
  {
    var plan, h := PlanOf(hand.fairness).value, hand.betting.hand;
    var holes := HolesOf(order, plan, h.players);
    HolesAreDealt(order, plan, h.players);
    if h.status == B.Showdown {
      var f :| BI.Invariant(h, f);
      FinishedHands.BoardCounts(h, f);
      var rules := hand.fairness;
      Dealing.PlanShape(rules.game, rules.seats, rules.buttonSeat, rules.boards);
      FullBoard(order, plan, h.board, |h.players|);
      Dealing.DealtHandsAreLegal(h, order, rules.buttonSeat, rules.boards, holes);
    }
  }

  // ----- Every finishable hand finishes -----

  lemma {:induction false} SettledIsExact(h: B.Hand, holes: seq<seq<int>>, rakeBps: int, rakeCap: int)
    requires HandOk(h) && BettingProgress.Terminal(h) && FinishedHands.Fair(h, holes, rakeBps, rakeCap)
    requires Pots.BuildPots(Stranding.HandStakes(h)).Ok?
    ensures FinishedHands.SettleHand(h, holes, rakeBps, rakeCap).Ok?
    ensures var o := FinishedHands.SettleHand(h, holes, rakeBps, rakeCap).value;
      && FinishedHands.SettledExactly(h, holes, o)
      && FinishedHands.TotalAfter(h.players, o.payouts) + o.totalRake == SumOf(B.ChipsOf, h.players)
  {
    var f :| BI.Invariant(h, f);
    hide BI.Invariant, FinishedHands.SettleHand, FinishedHands.SettledExactly, FinishedHands.Fair, Stranding.HandStakes;
    FinishedHands.FinishedHandSettles(h, f, holes, rakeBps, rakeCap);
    FinishedHands.FinishedConserves(h, f, holes, rakeBps, rakeCap);
  }

  /** The request names the hand's own record, and its audit passes with that deck. */
  ghost predicate Audited(dealers: Dealers, s: State, record: F.PublicRecord, serverSeed: nat, seeds: seq<F.Seed>,
                          deck: D.CommittedDeck) {
    && Playable(s).Some?
    && record.deckRoot == s.current.value.deckRoot && record.rules == s.current.value.fairness
    && F.VerifyAudit(dealers(s.current.value.number), record, serverSeed, seeds) == Some(deck)
  }

  /** An audited deck fits the hand: it covers the plan, and its board is the one that was dealt. */
  lemma {:induction false} AuditFits(dealers: Dealers, s: State, record: F.PublicRecord, serverSeed: nat,
      seeds: seq<F.Seed>,
                                     deck: D.CommittedDeck)
    requires TableOk(s) && Audited(dealers, s, record, serverSeed, seeds, deck)
    ensures F.IsDeck(deck.order)
    ensures var hand := s.current.value;
      && PlanOf(hand.fairness).Ok?
      && DeckCovers(deck.order, PlanOf(hand.fairness).value, |hand.betting.hand.players|)
      && Dealing.CommittedBoard(deck.order, PlanOf(hand.fairness).value, hand.betting.hand.board)
  {
    hide SeatsOk, DeckCovers, Dealing.CommittedBoard, F.IsDeck;
    AuditedDeck(dealers(s.current.value.number), record, serverSeed, seeds);
    BoardCheckNeverFails(s.seats, s.current.value, deck);
  }

  /** The settlement a finished hand is due on that deck. */
  function Due(s: State, deck: D.CommittedDeck): Result<Showdown.Outcome, Showdown.Failure>
    requires s.current.Some? && s.rules.Some? && PlanOf(s.current.value.fairness).Ok?
    requires DeckCovers(deck.order, PlanOf(s.current.value.fairness).value, |s.current.value.betting.hand.players|)
  {
    var h, rules := s.current.value.betting.hand, s.rules.value;
    FinishedHands.SettleHand(h, HolesOf(deck.order, PlanOf(s.current.value.fairness).value, h.players),
                             rules.rakeBps, rules.rakeCap)
  }

  /** Past the audit, finishing a hand is its settlement. */
  lemma {:induction false} FinishIsSettlement(dealers: Dealers, s: State, record: F.PublicRecord, serverSeed: nat,
                                              seeds: seq<F.Seed>, deck: D.CommittedDeck)
    requires TableOk(s) && Audited(dealers, s, record, serverSeed, seeds, deck)
    requires BettingProgress.Terminal(s.current.value.betting.hand)
    requires PlanOf(s.current.value.fairness).Ok?
    requires DeckCovers(deck.order, PlanOf(s.current.value.fairness).value, |s.current.value.betting.hand.players|)
    requires Dealing.CommittedBoard(deck.order, PlanOf(s.current.value.fairness).value,
        s.current.value.betting.hand.board)
    requires F.IsDeck(deck.order)
    ensures DecideFinish(dealers, s, record, serverSeed, seeds)
      == match Due(s, deck) case Err(_) => None case Ok(o) => FinishEvent(s.current.value.betting.hand, o)
  {
    hide F.VerifyAudit, SeatsOk, PlayOk, DeckCovers, Dealing.CommittedBoard, F.IsDeck, SettlementOf,
         FinishedHands.SettleHand, FinishedHands.Fair, FinishEvent, PlanOf, HolesOf, Dealing.BoardCards;
    HandIsFair(s.seats, s.current.value, deck.order, s.rules.value);
  }

  /**
   * As soon as the audit of its deck passes, a finished hand is settled if and only if its pots can be
   * built: neither the comparison of the board, nor the evaluators, nor the conservation assertion
   * rejects it.
   */
  lemma {:induction false} FinishesIffPotsBuild(dealers: Dealers, s: State, record: F.PublicRecord, serverSeed: nat,
                                                seeds: seq<F.Seed>, deck: D.CommittedDeck)
    requires TableOk(s) && Audited(dealers, s, record, serverSeed, seeds, deck)
    requires BettingProgress.Terminal(s.current.value.betting.hand)
    ensures DecideFinish(dealers, s, record, serverSeed, seeds).Some?
      <==> Pots.BuildPots(Stranding.HandStakes(s.current.value.betting.hand)).Ok?
  {
    hide F.VerifyAudit, DecideFinish, DeckCovers, Dealing.CommittedBoard, F.IsDeck, HandOk, SeatsOk, BoardOk,
         FinishedHands.SettleHand, FinishedHands.SettledExactly, FinishedHands.Fair, Pots.BuildPots,
         Stranding.HandStakes, PlanOf, HolesOf, FinishedHands.TotalAfter, SumOf, StacksAfter;
    var hand, rules := s.current.value, s.rules.value;
    AuditFits(dealers, s, record, serverSeed, seeds, deck);
    FinishIsSettlement(dealers, s, record, serverSeed, seeds, deck);
    HandIsFair(s.seats, hand, deck.order, rules);
    var holes := HolesOf(deck.order, PlanOf(hand.fairness).value, hand.betting.hand.players);
    if Pots.BuildPots(Stranding.HandStakes(hand.betting.hand)).Ok? {
      SettledIsExact(hand.betting.hand, holes, rules.rakeBps, rules.rakeCap);
    }
    if FinishedHands.SettleHand(hand.betting.hand, holes, rules.rakeBps, rules.rakeCap).Ok? {
      FinishedHands.SettlingBuildsPots(hand.betting.hand, holes, rules.rakeBps, rules.rakeCap);
    }
  }

  /** A hand whose pots cannot be built is never settled, whatever the request shows. */
  lemma {:induction false} UnbuildableNeverFinishes(dealers: Dealers, s: State, record: F.PublicRecord, serverSeed: nat,
                                                    seeds: seq<F.Seed>)
    requires TableOk(s) && Playable(s).Some? && BettingProgress.Terminal(s.current.value.betting.hand)
    requires Pots.BuildPots(Stranding.HandStakes(s.current.value.betting.hand)).Err?
    ensures DecideFinish(dealers, s, record, serverSeed, seeds).None?
  {
    if DecideFinish(dealers, s, record, serverSeed, seeds).Some? {
      var deck := FinishIsAudited(dealers, s, record, serverSeed, seeds);
      FinishesIffPotsBuild(dealers, s, record, serverSeed, seeds, deck);
    }
  }

  lemma {:induction false} FinishIsAudited(dealers: Dealers, s: State, record: F.PublicRecord, serverSeed: nat,
                                           seeds: seq<F.Seed>) returns (deck: D.CommittedDeck)
    requires DecideFinish(dealers, s, record, serverSeed, seeds).Some?
    ensures Audited(dealers, s, record, serverSeed, seeds, deck)
  {
    deck := F.VerifyAudit(dealers(s.current.value.number), record, serverSeed, seeds).value;
  }

  /** The conservation assertion never fires, on whatever hand reached it. */
  lemma {:induction false} ConservationNeverFires(s: State, hand: CurrentHand, order: seq<int>, rules: TableRules)
    requires PlayOk(s.seats, hand) && F.IsDeck(order) && ValidRules(rules)
    requires PlanOf(hand.fairness).Ok?
    requires DeckCovers(order, PlanOf(hand.fairness).value, |hand.betting.hand.players|)
    requires Dealing.CommittedBoard(order, PlanOf(hand.fairness).value, hand.betting.hand.board)
    requires BettingProgress.Terminal(hand.betting.hand)
    ensures var plan := PlanOf(hand.fairness).value; var h := hand.betting.hand;
      var settled := SettlementOf(h, HolesOf(order, plan, h.players), Dealing.BoardCards(order, plan), rules);
      settled.Ok? ==> FinishEvent(h, settled.value).Some?
  {
    HandIsFair(s.seats, hand, order, rules);
    var h := hand.betting.hand;
    var holes := HolesOf(order, PlanOf(hand.fairness).value, h.players);
    if FinishedHands.SettleHand(h, holes, rules.rakeBps, rules.rakeCap).Ok? {
      FinishedHands.SettlingBuildsPots(h, holes, rules.rakeBps, rules.rakeCap);
      SettledIsExact(h, holes, rules.rakeBps, rules.rakeCap);
    }
  }

  // ----- The seats after a hand -----

  lemma {:induction false} SettleSum(seats: seq<Seat>, players: seq<B.Player>, payouts: Ledger)
    requires SeatsOk(seats) && AllHeld(seats, players) && DistinctPlayers(players)
    requires forall i :: 0 <= i < |players| ==> FinishedHands.StackAfter(players[i], payouts) >= 0
    ensures SettleSeats(seats, StacksAfter(players, payouts)).Ok?
    ensures var after := SettleSeats(seats, StacksAfter(players, payouts)).value;
      && SeatsOk(after)
      && SumOf(StackOf, after)
        == SumOf(StackOf, seats) - SumOf(B.ChipsOf, players) + FinishedHands.TotalAfter(players, payouts)
    decreases |players|
  {
    var stacks := StacksAfter(players, payouts);
    if players != [] {
      var next := SettleOne(seats, players, stacks[0].stack);
      assert stacks[1..] == StacksAfter(players[1..], payouts);
      SettleSum(next, players[1..], payouts);
    }
  }

  lemma {:induction false} FinishIsTerminal(dealers: Dealers, s: State, record: F.PublicRecord, serverSeed: nat,
                                            seeds: seq<F.Seed>)
    requires DecideFinish(dealers, s, record, serverSeed, seeds).Some?
    ensures BettingProgress.Terminal(s.current.value.betting.hand)
  {
  }

  predicate Departing(s: Seat) { s.leaving }

  /** An accepted finish is the exact settlement of the hand, for some hole cards. */
  lemma {:induction false} FinishPays(dealers: Dealers, s: State, record: F.PublicRecord, serverSeed: nat,
                                      seeds: seq<F.Seed>, e: TableEvent) returns (holes: seq<seq<int>>,
                                        o: Showdown.Outcome)
    requires TableOk(s) && DecideFinish(dealers, s, record, serverSeed, seeds) == Some(e)
    ensures s.current.Some? && |holes| == |s.current.value.betting.hand.players|
    ensures var h := s.current.value.betting.hand;
      && FinishedHands.SettledExactly(h, holes, o)
      && FinishedHands.TotalAfter(h.players, o.payouts) + o.totalRake == SumOf(B.ChipsOf, h.players)
      && e == HandFinished(o.totalRake, StacksAfter(h.players, o.payouts))
  {
    hide F.VerifyAudit, DecideFinish, DeckCovers, Dealing.CommittedBoard, F.IsDeck, HandOk, SeatsOk, BoardOk,
         FinishedHands.SettleHand, FinishedHands.SettledExactly, FinishedHands.Fair, Pots.BuildPots,
         Stranding.HandStakes, PlanOf, HolesOf, FinishedHands.TotalAfter, SumOf, StacksAfter;
    var deck := FinishIsAudited(dealers, s, record, serverSeed, seeds);
    var hand, rules := s.current.value, s.rules.value;
    FinishIsTerminal(dealers, s, record, serverSeed, seeds);
    FinishesIffPotsBuild(dealers, s, record, serverSeed, seeds, deck);
    AuditFits(dealers, s, record, serverSeed, seeds, deck);
    HandIsFair(s.seats, hand, deck.order, rules);
    FinishIsSettlement(dealers, s, record, serverSeed, seeds, deck);
    holes := HolesOf(deck.order, PlanOf(hand.fairness).value, hand.betting.hand.players);
    SettledIsExact(hand.betting.hand, holes, rules.rakeBps, rules.rakeCap);
    o := FinishedHands.SettleHand(hand.betting.hand, holes, rules.rakeBps, rules.rakeCap).value;
  }

  /** A finished hand moves its chips to the seats and the rake; those leaving take theirs along. */
  lemma {:induction false} FinishOk(dealers: Dealers, s: State, record: F.PublicRecord, serverSeed: nat,
      seeds: seq<F.Seed>,
                                    e: TableEvent)
    requires TableOk(s) && DecideFinish(dealers, s, record, serverSeed, seeds) == Some(e)
    ensures e.HandFinished? && SettleSeats(s.seats, e.stacks).Ok?
    ensures var settled := SettleSeats(s.seats, e.stacks).value;
      && e.rake >= 0 && SeatsOk(settled)
      && SumOf(StackOf, settled) + e.rake == SumOf(StackOf, s.seats)
  {
    hide DecideFinish, HandOk, SeatsOk, BoardOk, AllHeld;
    var holes, o := FinishPays(dealers, s, record, serverSeed, seeds, e);
    PlayersSettle(s.seats, s.current.value.betting.hand, holes, o);
  }

  lemma {:induction false} PlayersSettle(seats: seq<Seat>, h: B.Hand, holes: seq<seq<int>>, o: Showdown.Outcome)
    requires SeatsOk(seats) && HandOk(h) && AllHeld(seats, h.players) && |holes| == |h.players|
    requires FinishedHands.SettledExactly(h, holes, o)
    requires FinishedHands.TotalAfter(h.players, o.payouts) + o.totalRake == SumOf(B.ChipsOf, h.players)
    ensures SettleSeats(seats, StacksAfter(h.players, o.payouts)).Ok?
    ensures var after := SettleSeats(seats, StacksAfter(h.players, o.payouts)).value;
      SeatsOk(after) && SumOf(StackOf, after) + o.totalRake == SumOf(StackOf, seats)
  {
    var f :| BI.Invariant(h, f);
    forall i | 0 <= i < |h.players| ensures FinishedHands.StackAfter(h.players[i], o.payouts) >= 0 {
      assert BI.ChipsOk(h.players[i]);
    }
    SettleSum(seats, h.players, o.payouts);
  }

  /** The table after a settled hand. */
  function Finished(s: State, settled: seq<Seat>, rake: int): State {
    s.(status := Waiting, totalRake := s.totalRake + rake, seats := Filter(Staying, settled), current := None)
  }

  lemma {:induction false} FinishedTable(s: State, settled: seq<Seat>, rake: int)
    requires TableOk(s) && s.status == HandActive && rake >= 0 && SeatsOk(settled)
    requires SumOf(StackOf, settled) + rake == SumOf(StackOf, s.seats)
    ensures TableOk(Finished(s, settled, rake))
    ensures SumOf(StackOf, Finished(s, settled, rake).seats) + SumOf(StackOf, Filter(Departing, settled)) + rake
      == SumOf(StackOf, s.seats)
  {
    FilterOk(Staying, settled);
    FilterSum(Staying, Departing, settled);
  }
}
