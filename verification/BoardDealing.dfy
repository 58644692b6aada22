/**
 * Dealing at the table from the committed deck (#advance of server/safe-beta-dealer.js): which positions a
 * street or a runout reveals, and that the honest reveals of those positions are accepted.
 */
module BoardDealing {
  import opened Wrappers
  import opened Seqs
  import opened Tables
  import opened TableInvariant
  import B = Betting
  import BI = BettingInvariant
  import BettingProgress
  import BettingRuns
  import D = DeckMerkle
  import DealMaps
  import Dealing
  import F = Fairness
  import HandLog

  function BoardOf(s: State): seq<int>
    requires s.current.Some?
  {
    s.current.value.betting.hand.board
  }

  // ----- Positions -----

  /** The public sequence begins with the first board, and names no position twice. */
  lemma {:induction false} PublicPositions(rules: F.Rules)
    requires PlanOf(rules).Ok?
    ensures HandLog.PublicSequence(rules).Ok?
    ensures var sequence, plan := HandLog.PublicSequence(rules).value, PlanOf(rules).value;
      && plan.boards != [] && |Dealing.BoardPositions(plan)| == 5 <= |sequence|
      && sequence[..5] == Dealing.BoardPositions(plan)
      && (forall i, j :: 0 <= i < j < 5 ==> sequence[i] != sequence[j])
      && (forall i :: 0 <= i < 5 ==> 0 <= sequence[i] < 52)
  {
    Dealing.PlanShape(rules.game, rules.seats, rules.buttonSeat, rules.boards);
    Dealing.PlanPositions(rules.game, rules.seats, rules.buttonSeat, rules.boards, 0);
    var plan := PlanOf(rules).value;
    var sequence := HandLog.PublicSequence(rules).value;
    var five := Dealing.BoardPositions(plan);
    assert sequence == five + HandLog.BoardCardPositions(plan.boards[1..]);
    var all := plan.holeCards[0] + five;
    forall i | 0 <= i < 5 ensures sequence[i] == five[i] == all[|plan.holeCards[0]| + i] {
    }
  }

  // ----- Dealing at the table -----

  function StreetOf(phase: B.Phase): DealMaps.Street {
    match phase
    case Preflop => DealMaps.Preflop
    case Flop => DealMaps.Flop
    case Turn => DealMaps.Turn
    case River => DealMaps.River
  }

  /** The five cards the board will show are legal. */
  lemma {:induction false} FiveCards(rules: F.Rules, deck: D.CommittedDeck)
    requires PlanOf(rules).Ok? && D.Commits(deck) && F.IsDeck(deck.order)
    ensures var plan := PlanOf(rules).value; var positions := Dealing.BoardPositions(plan);
      && plan.boards != [] && |positions| == 5
      && (forall i :: 0 <= i < 5 ==> 0 <= positions[i] < 52)
      && var full := Dealing.CardsAt(deck.order, positions);
         |full| == 5 && Distinct(full) && B.ValidCards(full)
  {
    PublicPositions(rules);
    var positions := Dealing.BoardPositions(PlanOf(rules).value);
    var sequence := HandLog.PublicSequence(rules).value;
    forall i | 0 <= i < 5 ensures positions[i] == sequence[i] {
      assert positions[i] == sequence[..5][i];
    }
    Dealing.DistinctCards(deck.order, positions);
  }

  /** Honest reveals of the next positions are the next cards of the full board. */
  lemma {:induction false} NextCardsShown(rules: F.Rules, deck: D.CommittedDeck, board: seq<int>, upTo: nat,
      shown: seq<D.Reveal>, positions: seq<int>)
    requires PlanOf(rules).Ok? && D.Commits(deck) && F.IsDeck(deck.order)
    requires Dealing.CommittedBoard(deck.order, PlanOf(rules).value, board)
        && |board| <= upTo <= |Dealing.BoardPositions(PlanOf(rules).value)|
    requires positions == Dealing.BoardPositions(PlanOf(rules).value)[|board|..upTo] && |shown| == |positions|
    requires forall i :: 0 <= i < |positions| ==> Ok(shown[i]) == D.RevealOf(deck, positions[i])
    ensures Dealing.VerifiedCards(shown, positions, deck.root).Ok?
    ensures var cards := Dealing.VerifiedCards(shown, positions, deck.root).value;
      && |cards| == upTo - |board| && B.ValidCards(cards) && Distinct(board + cards)
  {
    FiveCards(rules, deck);
    var all := Dealing.BoardPositions(PlanOf(rules).value);
    var full := Dealing.CardsAt(deck.order, all);
    forall i | 0 <= i < |positions| ensures 0 <= positions[i] < 52 {
      assert positions[i] == all[|board| + i];
    }
    Dealing.HonestCardsAreVerified(deck, shown, positions);
    var cards := Dealing.CardsAt(deck.order, positions);
    assert board == full[..|board|];
    assert cards == full[|board|..upTo];
    BettingProgress.NextCards(board, full, upTo);
  }

  /** The committed deck's root pins the board down. */
  lemma {:induction false} BoardIsCommitted(s: State, deck: D.CommittedDeck)
    requires TableOk(s) && s.current.Some? && D.Commits(deck) && deck.root == s.current.value.deckRoot
    ensures PlanOf(s.current.value.fairness).Ok?
    ensures Dealing.CommittedBoard(deck.order, PlanOf(s.current.value.fairness).value, BoardOf(s))
  {
  }

  /** A betting event landed: the same hand goes on, its board longer, at the given status. */
  ghost predicate Landed(s: State, e: TableEvent, dealt: nat, status: B.Status) {
    && Step(s, e).Ok? && TableOk(Step(s, e).value) && s.current.Some? && Step(s, e).value.current.Some?
    && var current, current' := s.current.value, Step(s, e).value.current.value;
       && current'.fairness == current.fairness && current'.deckRoot == current.deckRoot
         && current'.number == current.number
       && SafeHand(current'.betting.hand) && current'.betting.hand.status == status
       && |current'.betting.hand.board| == |current.betting.hand.board| + dealt
  }

  lemma {:induction false} BettingReplaces(s: State, shown: seq<D.Reveal>, t: Timed, turn: Option<Turn>)
    requires s.current.Some? && StepBetting(s, shown, t, turn).Ok?
    ensures StepBetting(s, shown, t, turn).value.current
      == Some(s.current.value.(betting := t, turn := turn, shown := s.current.value.shown + shown))
  {
  }

  // ----- Dealing a street -----

  lemma {:induction false} StreetNumbers(h: B.Hand)
    requires HandOk(h) && h.status == B.AwaitingDeal
    ensures h.pendingStreet.Some? && PhaseOf(StreetOf(h.pendingStreet.value)) == h.pendingStreet.value
    ensures h.pendingStreet.value != B.Preflop
    ensures |h.board| + (if h.pendingStreet == Some(B.Flop) then 3 else 1) <= 5
  {
    var f :| BI.Invariant(h, f);
  }

  /** The positions of the pending street are the next ones of the board. */
  lemma {:induction false} PendingPositions(rules: F.Rules, h: B.Hand)
    requires PlanOf(rules).Ok? && PlanOf(rules).value.boards != [] && HandOk(h) && h.status == B.AwaitingDeal
    ensures h.pendingStreet.Some?
    ensures var plan := PlanOf(rules).value; var all := Dealing.BoardPositions(plan);
      var positions := DealMaps.OnStreet(plan.boards[0], StreetOf(h.pendingStreet.value));
      && |h.board| + |positions| <= |all| && positions == all[|h.board|..|h.board| + |positions|]
      && |positions| == (if h.pendingStreet == Some(B.Flop) then 3 else 1)
  {
    StreetNumbers(h);
    NextPositions(rules, StreetOf(h.pendingStreet.value), h);
    DealMaps.BoardDeals(1, DealMaps.Preflop, DealMaps.Rounds(rules.game) * rules.seats);
    Dealing.PlanShape(rules.game, rules.seats, rules.buttonSeat, rules.boards);
    var plan := PlanOf(rules).value;
    assert plan.boards[0]
      == DealMaps.BoardFrom(1, DealMaps.Preflop,
        DealMaps.Rounds(rules.game) * rules.seats + 0 * DealMaps.BoardLength(DealMaps.Preflop));
  }

  lemma {:induction false} StreetAccepted(h: B.Hand, cards: seq<int>) returns (next: B.Hand)
    requires HandOk(h) && h.status == B.AwaitingDeal && h.pendingStreet.Some?
    requires |cards| == (if h.pendingStreet == Some(B.Flop) then 3 else 1) && B.ValidCards(cards)
        && Distinct(h.board + cards)
    ensures B.DealStreet(h, h.version, h.pendingStreet.value, cards) == Ok(next)
    ensures next.status == B.Betting && next.board == h.board + cards
  {
    next := B.DealStreet(h, h.version, h.pendingStreet.value, cards).value;
    var f :| BI.Invariant(h, f);
    BettingRuns.DealKeeps(h, f, h.version, h.pendingStreet.value, cards, next);
  }

  lemma {:induction false} StreetDecides(s: State, street: DealMaps.Street, shown: seq<D.Reveal>, cards: seq<int>,
      next: B.Hand, now: int)
    requires Playable(s).Some? && PlanOf(s.current.value.fairness).Ok?
        && PlanOf(s.current.value.fairness).value.boards != []
    requires street != DealMaps.Preflop
    requires Dealing.VerifiedCards(shown, DealMaps.OnStreet(PlanOf(s.current.value.fairness).value.boards[0], street),
                                   s.current.value.deckRoot) == Ok(cards)
    requires B.DealStreet(s.current.value.betting.hand, s.current.value.betting.hand.version, PhaseOf(street), cards)
        == Ok(next)
    requires TurnFor(s.current.value.betting.(hand := next), s.rules.value.actionClock, now).Ok?
    ensures DecideStreet(s, street, shown, now)
      == Some(StreetDealt(shown, s.current.value.betting.(hand := next),
                          TurnFor(s.current.value.betting.(hand := next), s.rules.value.actionClock, now).value))
  {
  }

  /** The pending street is dealt, and somebody is asked to act. */
  lemma {:induction false} StreetGoes(s: State, deck: D.CommittedDeck, shown: seq<D.Reveal>, positions: seq<int>,
      now: int) returns (e: TableEvent)
    requires TableOk(s) && Playable(s).Some? && SafeHand(s.current.value.betting.hand)
    requires s.current.value.betting.hand.status == B.AwaitingDeal
    requires D.Commits(deck) && F.IsDeck(deck.order) && deck.root == s.current.value.deckRoot
    requires PlanOf(s.current.value.fairness).Ok? && PlanOf(s.current.value.fairness).value.boards != []
    requires s.current.value.betting.hand.pendingStreet.Some?
    requires positions == DealMaps.OnStreet(PlanOf(s.current.value.fairness).value.boards[0],
                                            StreetOf(s.current.value.betting.hand.pendingStreet.value))
    requires |shown| == |positions| && forall i :: 0 <= i < |positions| ==>
        Ok(shown[i]) == D.RevealOf(deck, positions[i])
    ensures DecideStreet(s, StreetOf(s.current.value.betting.hand.pendingStreet.value), shown, now) == Some(e)
    ensures e.StreetDealt? && Landed(s, e, |positions|, B.Betting)
  {
    var h := s.current.value.betting.hand;
    StreetNumbers(h);
    var cards := StreetCards(s, deck, shown, positions);
    var next := StreetNext(h, cards);
    e := StreetLands(s, StreetOf(h.pendingStreet.value), shown, cards,
      B.Street(h.version, h.pendingStreet.value, cards), next, now);
    PendingPositions(s.current.value.fairness, h);
  }

  lemma {:induction false} StreetCards(s: State, deck: D.CommittedDeck, shown: seq<D.Reveal>, positions: seq<int>)
    returns (cards: seq<int>)
    requires TableOk(s) && s.current.Some? && s.current.value.betting.hand.status == B.AwaitingDeal
    requires D.Commits(deck) && F.IsDeck(deck.order) && deck.root == s.current.value.deckRoot
    requires PlanOf(s.current.value.fairness).Ok? && PlanOf(s.current.value.fairness).value.boards != []
    requires s.current.value.betting.hand.pendingStreet.Some?
    requires positions == DealMaps.OnStreet(PlanOf(s.current.value.fairness).value.boards[0],
                                            StreetOf(s.current.value.betting.hand.pendingStreet.value))
    requires |shown| == |positions| && forall i :: 0 <= i < |positions| ==>
        Ok(shown[i]) == D.RevealOf(deck, positions[i])
    ensures Dealing.VerifiedCards(shown, positions, s.current.value.deckRoot) == Ok(cards)
    ensures |cards| == |positions| == (if s.current.value.betting.hand.pendingStreet == Some(B.Flop) then 3 else 1)
    ensures B.ValidCards(cards) && Distinct(BoardOf(s) + cards)
  {
    var h := s.current.value.betting.hand;
    PendingPositions(s.current.value.fairness, h);
    BoardIsCommitted(s, deck);
    NextCardsShown(s.current.value.fairness, deck, h.board, |h.board| + |positions|, shown, positions);
    cards := Dealing.VerifiedCards(shown, positions, deck.root).value;
  }

  lemma {:induction false} StreetNext(h: B.Hand, cards: seq<int>) returns (next: B.Hand)
    requires HandOk(h) && SafeHand(h) && h.status == B.AwaitingDeal && h.pendingStreet.Some?
    requires |cards| == (if h.pendingStreet == Some(B.Flop) then 3 else 1) && B.ValidCards(cards)
        && Distinct(h.board + cards)
    ensures B.DealStreet(h, h.version, h.pendingStreet.value, cards) == Ok(next)
    ensures B.Apply(h, B.Street(h.version, h.pendingStreet.value, cards)) == Ok(next)
    ensures HandOk(next) && SafeHand(next) && next.status == B.Betting && next.board == h.board + cards
  {
    next := StreetAccepted(h, cards);
    StreetFacts(h, h.pendingStreet.value, cards, next);
    StepOk(h, B.Street(h.version, h.pendingStreet.value, cards), next);
  }

  lemma {:induction false} StreetLands(s: State, street: DealMaps.Street, shown: seq<D.Reveal>, cards: seq<int>,
      step: B.Step, next: B.Hand, now: int)
    returns (e: TableEvent)
    requires TableOk(s) && Playable(s).Some? && PlanOf(s.current.value.fairness).Ok?
        && PlanOf(s.current.value.fairness).value.boards != []
    requires street != DealMaps.Preflop
    requires Dealing.VerifiedCards(shown, DealMaps.OnStreet(PlanOf(s.current.value.fairness).value.boards[0], street),
                                   s.current.value.deckRoot) == Ok(cards)
    requires B.DealStreet(s.current.value.betting.hand, s.current.value.betting.hand.version, PhaseOf(street), cards)
        == Ok(next)
    requires HandOk(next) && SafeHand(next) && next.status == B.Betting && next.board == BoardOf(s) + cards
    ensures DecideStreet(s, street, shown, now) == Some(e) && e.StreetDealt? && Landed(s, e, |cards|, B.Betting)
  {
    var t := s.current.value.betting.(hand := next);
    ClockFinds(t, s.rules.value.actionClock, now);
    StreetDecides(s, street, shown, cards, next, now);
    var turn := TurnFor(t, s.rules.value.actionClock, now).value;
    e := StreetDealt(shown, t, turn);
    StreetOk(s, street, shown, now, e);
    StreetLanded(s, shown, t, turn);
  }

  lemma {:induction false} StreetLanded(s: State, shown: seq<D.Reveal>, t: Timed, turn: Option<Turn>)
    requires Quiet(s, StreetDealt(shown, t, turn)) && s.current.Some? && SafeHand(t.hand)
    requires |t.hand.board| >= |BoardOf(s)|
    ensures Landed(s, StreetDealt(shown, t, turn), |t.hand.board| - |BoardOf(s)|, t.hand.status)
  {
    BettingReplaces(s, shown, t, turn);
  }

  // ----- Running out the board -----

  lemma {:induction false} RunoutNext(h: B.Hand, cards: seq<int>) returns (next: B.Hand)
    requires HandOk(h) && SafeHand(h) && h.status == B.AwaitingRunout
    requires |h.board| + |cards| == 5 && B.ValidCards(cards) && Distinct(h.board + cards)
    ensures B.DealRemainingBoard(h, h.version, cards) == Ok(next)
    ensures SafeHand(next) && next.status == B.Showdown && next.board == h.board + cards
  {
    next := B.DealRemainingBoard(h, h.version, cards).value;
    assert B.Apply(h, B.Runout(h.version, cards)) == Ok(next);
    StepOk(h, B.Runout(h.version, cards), next);
  }

  lemma {:induction false} BoardFits(h: B.Hand)
    requires HandOk(h)
    ensures |h.board| <= 5
  {
    var f :| BI.Invariant(h, f);
  }

  lemma {:induction false} RunoutDecides(s: State, shown: seq<D.Reveal>, cards: seq<int>, next: B.Hand)
    requires Playable(s).Some? && PlanOf(s.current.value.fairness).Ok?
        && PlanOf(s.current.value.fairness).value.boards != []
    requires |BoardOf(s)| <= |Dealing.BoardPositions(PlanOf(s.current.value.fairness).value)|
    requires Dealing.VerifiedCards(shown,
        Dealing.BoardPositions(PlanOf(s.current.value.fairness).value)[|BoardOf(s)|..],
                                   s.current.value.deckRoot) == Ok(cards)
    requires B.DealRemainingBoard(s.current.value.betting.hand, s.current.value.betting.hand.version, cards) == Ok(next)
    ensures DecideRunout(s, shown) == Some(RunoutDealt(shown, s.current.value.betting.(hand := next)))
  {
  }

  /** The rest of the board is dealt, and the hand goes to showdown. */
  lemma {:induction false} RunoutGoes(s: State, deck: D.CommittedDeck, shown: seq<D.Reveal>, positions: seq<int>)
    returns (e: TableEvent)
    requires TableOk(s) && Playable(s).Some? && SafeHand(s.current.value.betting.hand)
    requires s.current.value.betting.hand.status == B.AwaitingRunout
    requires D.Commits(deck) && F.IsDeck(deck.order) && deck.root == s.current.value.deckRoot
    requires PlanOf(s.current.value.fairness).Ok? && PlanOf(s.current.value.fairness).value.boards != []
    requires |BoardOf(s)| <= |Dealing.BoardPositions(PlanOf(s.current.value.fairness).value)| == 5
    requires positions == Dealing.BoardPositions(PlanOf(s.current.value.fairness).value)[|BoardOf(s)|..]
    requires |shown| == |positions| && forall i :: 0 <= i < |positions| ==>
        Ok(shown[i]) == D.RevealOf(deck, positions[i])
    ensures DecideRunout(s, shown) == Some(e)
    ensures e.RunoutDealt? && Landed(s, e, |positions|, B.Showdown)
  {
    BoardIsCommitted(s, deck);
    NextCardsShown(s.current.value.fairness, deck, BoardOf(s), 5, shown, positions);
    var cards := Dealing.VerifiedCards(shown, positions, deck.root).value;
    var next := RunoutNext(s.current.value.betting.hand, cards);
    RunoutDecides(s, shown, cards, next);
    e := RunoutDealt(shown, s.current.value.betting.(hand := next));
    RunoutOk(s, shown, e);
    RunoutLanded(s, shown, s.current.value.betting.(hand := next));
  }

  lemma {:induction false} RunoutLanded(s: State, shown: seq<D.Reveal>, t: Timed)
    requires Quiet(s, RunoutDealt(shown, t)) && s.current.Some? && SafeHand(t.hand)
    requires |t.hand.board| >= |BoardOf(s)|
    ensures Landed(s, RunoutDealt(shown, t), |t.hand.board| - |BoardOf(s)|, t.hand.status)
  {
    BettingReplaces(s, shown, t, None);
  }
}
