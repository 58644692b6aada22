/**
 * The dealer's driver loop (#advance of server/safe-beta-dealer.js) on the two logs it reads and writes:
 * it reveals each card on the hand log, deals it at the table, and completes and settles the hand.
 */
module HandDriver {
  import opened Wrappers
  import opened Tables
  import opened TableInvariant
  import opened TableFinish
  import opened TableRuns
  import opened TableHands
  import opened BoardDealing
  import B = Betting
  import BI = BettingInvariant
  import BettingOpening
  import BettingProgress
  import BettingRuns
  import D = DeckMerkle
  import DealMaps
  import Dealing
  import EventLog
  import F = Fairness
  import HandLog
  import Stranding

  // ----- A hand in progress -----

  /**
   * The hand log is the one of the hand at the table: the same rules and deck, dealing unless the hand is
   * over, and at least the cards of the board shown.
   */
  ghost predicate Tracks(hand: HandLog.State, s: State)
    requires s.current.Some?
  {
    var current := s.current.value;
    && hand.rules == Some(current.fairness) && hand.deckRoot == Some(current.deckRoot)
    && (hand.status == HandLog.Dealing
        || (hand.status == HandLog.Complete && BettingProgress.Terminal(current.betting.hand)))
    && |current.betting.hand.board| <= |hand.publicPositions|
  }

  /** The dealer's secret is what it committed for the hand. */
  ghost predicate KeptFor(dealer: F.Dealer, current: CurrentHand, kept: F.CommittedHand) {
    && kept.record.deckRoot == current.deckRoot
    && exists beacon, players, serverSeed ::
      F.CreateCommittedHand(dealer, current.fairness, beacon, players, serverSeed) == Ok(kept)
  }

  /** A written table log with a hand in progress that was opened without stranding its pot. */
  ghost predicate SafelyOpened(dealers: Dealers, table: seq<TableEvent>) {
    && EventLog.Written(Decide(dealers), table) && OpeningOf(table).Some?
    && !BettingOpening.StrandsPot(OpeningOf(table).value)
  }

  /** The dealer's secret and the log of the hand it belongs to. */
  ghost predicate Dealt(dealers: Dealers, s: State, cards: seq<HandLog.HandEvent>, kept: F.CommittedHand)
    requires s.current.Some?
  {
    var dealer := dealers(s.current.value.number);
    && EventLog.Written(HandLog.Decide(dealer), cards) && Tracks(HandLog.Reduce(cards), s)
    && KeptFor(dealer, s.current.value, kept)
  }

  /** The logs of a hand in progress, and what the dealer keeps of it. */
  ghost predicate InProgress(dealers: Dealers, table: seq<TableEvent>, cards: seq<HandLog.HandEvent>,
      kept: F.CommittedHand) {
    && SafelyOpened(dealers, table) && Reduce(table).Ok? && Reduce(table).value.current.Some?
    && Dealt(dealers, Reduce(table).value, cards, kept)
  }

  /** The deck behind the table's root, and the audit it passes. */
  ghost predicate DeckKept(dealer: F.Dealer, current: CurrentHand, kept: F.CommittedHand) {
    && D.Commits(kept.deck) && F.IsDeck(kept.deck.order) && kept.deck.root == current.deckRoot
    && kept.record.deckRoot == current.deckRoot && kept.record.rules == current.fairness
    && F.VerifyAudit(dealer, kept.record, kept.serverSeed, kept.playerSeeds).Some?
  }

  ghost predicate InStep(rules: F.Rules, shown: seq<int>) {
    HandLog.PublicSequence(rules).Ok? && shown <= HandLog.PublicSequence(rules).value
  }

  /** What the proofs need of the replayed logs. */
  ghost predicate Aligned(dealers: Dealers, s: State, hand: HandLog.State, kept: F.CommittedHand) {
    && TableOk(s) && s.current.Some? && SafeHand(s.current.value.betting.hand)
    && Tracks(hand, s) && InStep(s.current.value.fairness, hand.publicPositions)
    && DeckKept(dealers(s.current.value.number), s.current.value, kept)
  }

  lemma {:induction false} KeptDeck(dealer: F.Dealer, current: CurrentHand, kept: F.CommittedHand)
    requires KeptFor(dealer, current, kept)
    ensures DeckKept(dealer, current, kept)
  {
    hide F.VerifyAudit, F.IsDeck;
    var beacon, players, serverSeed :|
      F.CreateCommittedHand(dealer, current.fairness, beacon, players, serverSeed) == Ok(kept);
    F.AuditAcceptsHonestHands(dealer, current.fairness, beacon, players, serverSeed);
    IsCommitted(dealer, current.fairness, beacon, players, serverSeed, kept);
  }

  lemma {:induction false} IsCommitted(dealer: F.Dealer, rules: F.Rules, beacon: F.Beacon, players: seq<F.Seed>,
      serverSeed: nat, kept: F.CommittedHand)
    requires F.CreateCommittedHand(dealer, rules, beacon, players, serverSeed) == Ok(kept)
    ensures D.Commits(kept.deck) && F.IsDeck(kept.deck.order) && kept.deck.root == kept.record.deckRoot
    ensures kept.record.rules == rules
  {
  }

  /** Written logs are aligned: nothing about the hand beyond the logs has to be assumed. */
  lemma {:induction false} LogsAreAligned(dealers: Dealers, table: seq<TableEvent>, cards: seq<HandLog.HandEvent>,
      kept: F.CommittedHand)
    requires InProgress(dealers, table, cards, kept)
    ensures Aligned(dealers, Reduce(table).value, HandLog.Reduce(cards), kept)
  {
    hide Decide, Reduce, TableOk, HandLog.Decide, HandLog.Reduce, DeckKept, KeptFor, BettingOpening.StrandsPot;
    HandIsPlayed(dealers, table);
    var s := Reduce(table).value;
    OpenedSafely(OpeningOf(table).value, s.current.value.betting.hand);
    KeptDeck(dealers(s.current.value.number), s.current.value, kept);
    ShownInStep(dealers(s.current.value.number), cards, s.current.value.fairness, s);
  }

  lemma {:induction false} OpenedSafely(c: B.Config, h: B.Hand)
    requires Played(c, h) && !BettingOpening.StrandsPot(c)
    ensures SafeHand(h)
  {
    hide BI.Invariant, BettingOpening.StrandsPot, B.PlayFrom;
    var steps :| B.PlayFrom(c, steps) == Ok(h);
    var f := BettingRuns.ReachableInvariant(c, steps, h);
  }

  lemma {:induction false} ShownInStep(dealer: F.Dealer, cards: seq<HandLog.HandEvent>, rules: F.Rules, s: State)
    requires EventLog.Written(HandLog.Decide(dealer), cards) && HandLog.Reduce(cards).rules == Some(rules)
    requires TableOk(s) && s.current.Some? && s.current.value.fairness == rules
    ensures InStep(rules, HandLog.Reduce(cards).publicPositions)
  {
    hide HandLog.Decide, HandLog.PublicSequence;
    HandLog.RevealsAreAPrefix(dealer, cards);
    PublicPositions(rules);
  }

  // ----- Revealing -----

  /** The hand log with the public sequence shown at least so far. */
  function ShownTo(hand: HandLog.State, sequence: seq<int>, upTo: nat): HandLog.State {
    if |hand.publicPositions| < upTo <= |sequence| then hand.(publicPositions := sequence[..upTo]) else hand
  }

  /** A hand log that deals from the deck. */
  ghost predicate Deals(dealer: F.Dealer, cards: seq<HandLog.HandEvent>, rules: F.Rules, deck: D.CommittedDeck) {
    var hand := HandLog.Reduce(cards);
    && EventLog.Written(HandLog.Decide(dealer), cards) && D.Commits(deck) && PlanOf(rules).Ok?
    && hand.status == HandLog.Dealing && hand.rules == Some(rules) && hand.deckRoot == Some(deck.root)
    && InStep(rules, hand.publicPositions)
  }

  /** A position shown before is answered from the log. */
  lemma {:induction false} RevealAgain(dealer: F.Dealer, cards: seq<HandLog.HandEvent>, rules: F.Rules,
      deck: D.CommittedDeck, n: nat)
    requires Deals(dealer, cards, rules, deck) && n < 5 && n < |HandLog.Reduce(cards).publicPositions|
    ensures var position := HandLog.PublicSequence(rules).value[n];
      D.RevealOf(deck, position).Ok?
      && HandLog.RevealByKey(cards, position, deck) == Some((D.RevealOf(deck, position).value, cards))
  {
    hide HandLog.Decide, HandLog.PublicSequence, D.RevealOf, D.Accepted, D.Root, D.Layers, PlanOf, HandLog.DecideReveal,
         HandLog.RevealFor;
    var sequence := HandLog.PublicSequence(rules).value;
    var position := sequence[n];
    assert HandLog.Reduce(cards).publicPositions[n] == position;
    assert position in sequence;
    HandLog.RevealForShown(cards, position);
    var prior := HandLog.RevealFor(cards, position).value;
    var k :| 0 <= k < |cards| && cards[k] == HandLog.PublicCardRevealed(prior);
    HandLog.RevealsAreHonest(dealer, cards, k, deck);
  }

  /** The next position is revealed and appended. */
  lemma {:induction false} RevealAccepted(hand: HandLog.State, rules: F.Rules, deck: D.CommittedDeck)
    requires hand.status == HandLog.Dealing && hand.rules == Some(rules) && hand.deckRoot == Some(deck.root)
    requires D.Commits(deck) && PlanOf(rules).Ok? && InStep(rules, hand.publicPositions) && |hand.publicPositions| < 5
    ensures |hand.publicPositions| < |HandLog.PublicSequence(rules).value|
    ensures var position := HandLog.PublicSequence(rules).value[|hand.publicPositions|];
      && position !in hand.publicPositions && D.RevealOf(deck, position).Ok?
      && D.RevealOf(deck, position).value.position == position
      && HandLog.DecideReveal(hand, position, deck)
        == Some(HandLog.PublicCardRevealed(D.RevealOf(deck, position).value))
  {
    hide PlanOf, D.Accepted, D.Root, D.Layers, HandLog.PublicSequence, Dealing.BoardPositions;
    PublicPositions(rules);
    var sequence, n := HandLog.PublicSequence(rules).value, |hand.publicPositions|;
    D.HonestRevealIsAccepted(deck, sequence[n]);
    forall i | 0 <= i < n ensures hand.publicPositions[i] != sequence[n] {
      assert hand.publicPositions[i] == sequence[i];
    }
    assert sequence[n] in sequence;
  }

  lemma {:induction false} RevealAppends(dealer: F.Dealer, cards: seq<HandLog.HandEvent>, rules: F.Rules,
      deck: D.CommittedDeck) returns (cards': seq<HandLog.HandEvent>)
    requires Deals(dealer, cards, rules, deck) && |HandLog.Reduce(cards).publicPositions| < 5
    ensures var hand, sequence := HandLog.Reduce(cards), HandLog.PublicSequence(rules).value;
      var n := |hand.publicPositions|;
      && n < |sequence| && D.RevealOf(deck, sequence[n]).Ok?
      && HandLog.RevealByKey(cards, sequence[n], deck) == Some((D.RevealOf(deck, sequence[n]).value, cards'))
      && HandLog.Reduce(cards') == ShownTo(hand, sequence, n + 1)
    ensures cards <= cards' && EventLog.Written(HandLog.Decide(dealer), cards')
  {
    hide PlanOf, D.RevealOf, D.Root, D.Layers, HandLog.PublicSequence, HandLog.DecideReveal, HandLog.RevealFor,
         HandLog.Decide, HandLog.Reduce;
    var hand := HandLog.Reduce(cards);
    RevealAccepted(hand, rules, deck);
    var sequence, n := HandLog.PublicSequence(rules).value, |hand.publicPositions|;
    var position := sequence[n];
    HandLog.RevealForShown(cards, position);
    var e := HandLog.DecideReveal(hand, position, deck).value;
    cards' := cards + [e];
    assert sequence[..n + 1] == sequence[..n] + [position];
    HandLog.Extends(dealer, cards, HandLog.RevealPublicCard(position, Some(deck)), 0, e);
  }

  /** One position, whether shown before or not. */
  lemma {:induction false} RevealGoes(dealer: F.Dealer, cards: seq<HandLog.HandEvent>, rules: F.Rules,
      deck: D.CommittedDeck, n: nat) returns (cards': seq<HandLog.HandEvent>)
    requires Deals(dealer, cards, rules, deck) && n < 5 && n <= |HandLog.Reduce(cards).publicPositions|
    ensures var hand, sequence := HandLog.Reduce(cards), HandLog.PublicSequence(rules).value;
      && n < |sequence| && D.RevealOf(deck, sequence[n]).Ok?
      && HandLog.RevealByKey(cards, sequence[n], deck) == Some((D.RevealOf(deck, sequence[n]).value, cards'))
      && HandLog.Reduce(cards') == ShownTo(hand, sequence, n + 1)
    ensures cards <= cards' && Deals(dealer, cards', rules, deck)
  {
    hide HandLog.RevealByKey, HandLog.PublicSequence, HandLog.Decide, HandLog.Reduce, D.RevealOf, PlanOf;
    if n < |HandLog.Reduce(cards).publicPositions| {
      RevealAgain(dealer, cards, rules, deck, n);
      cards' := cards;
    } else {
      cards' := RevealAppends(dealer, cards, rules, deck);
    }
  }

  /** Reveals the positions one at a time, each under its own key; no request is refused. */
  method RevealAll(ghost dealer: F.Dealer, cards: seq<HandLog.HandEvent>, ghost rules: F.Rules,
      deck: D.CommittedDeck, ghost n: nat, positions: seq<int>)
    returns (shown: seq<D.Reveal>, cards': seq<HandLog.HandEvent>)
    requires Deals(dealer, cards, rules, deck) && n <= |HandLog.Reduce(cards).publicPositions|
    requires n + |positions| <= 5 && n + |positions| <= |HandLog.PublicSequence(rules).value|
    requires positions == HandLog.PublicSequence(rules).value[n..n + |positions|]
    ensures cards <= cards' && Deals(dealer, cards', rules, deck)
    ensures HandLog.Reduce(cards')
      == ShownTo(HandLog.Reduce(cards), HandLog.PublicSequence(rules).value, n + |positions|)
    ensures |shown| == |positions|
    ensures forall i :: 0 <= i < |positions| ==> Ok(shown[i]) == D.RevealOf(deck, positions[i])
  {
    hide HandLog.RevealByKey, HandLog.PublicSequence, HandLog.Reduce, HandLog.Decide, D.RevealOf, PlanOf;
    shown, cards' := [], cards;
    for k := 0 to |positions|
      invariant cards <= cards' && Deals(dealer, cards', rules, deck) && |shown| == k
      invariant HandLog.Reduce(cards')
        == ShownTo(HandLog.Reduce(cards), HandLog.PublicSequence(rules).value, n + k)
      invariant forall i :: 0 <= i < k ==> Ok(shown[i]) == D.RevealOf(deck, positions[i])
    {
      ghost var longer := RevealGoes(dealer, cards', rules, deck, n + k);
      assert positions[k] == HandLog.PublicSequence(rules).value[n + k];
      var answer := HandLog.RevealByKey(cards', positions[k], deck).value;
      shown, cards' := shown + [answer.0], answer.1;
    }
  }

  // ----- One turn of the loop -----

  /** The loop's own view of the hand. */
  predicate At(s: State, status: B.Status) { s.current.Some? && s.current.value.betting.hand.status == status }

  /** What the dealer reads off an aligned hand. */
  lemma {:induction false} AlignedFacts(dealers: Dealers, s: State, hand: HandLog.State, kept: F.CommittedHand)
    requires Aligned(dealers, s, hand, kept)
    ensures Playable(s).Some? && PlanOf(s.current.value.fairness).Ok?
    ensures var plan := PlanOf(s.current.value.fairness).value;
      plan.boards != [] && |Dealing.BoardPositions(plan)| == 5 && |BoardOf(s)| <= 5
    ensures HandLog.PublicSequence(s.current.value.fairness).Ok?
    ensures |HandLog.PublicSequence(s.current.value.fairness).value| >= 5
    ensures HandLog.PublicSequence(s.current.value.fairness).value[..5]
      == Dealing.BoardPositions(PlanOf(s.current.value.fairness).value)
  {
    hide DeckKept, InStep, Tracks, SafeHand, BI.Invariant, HandLog.PublicSequence, Dealing.BoardPositions;
    PublicPositions(s.current.value.fairness);
    BoardFits(s.current.value.betting.hand);
  }

  /** Reveals the next slice of the board. */
  method RevealSlice(ghost dealers: Dealers, ghost s: State, cards: seq<HandLog.HandEvent>, kept: F.CommittedHand,
      positions: seq<int>)
    returns (shown: seq<D.Reveal>, cards': seq<HandLog.HandEvent>)
    requires Aligned(dealers, s, HandLog.Reduce(cards), kept) && PlanOf(s.current.value.fairness).Ok?
    requires !BettingProgress.Terminal(s.current.value.betting.hand)
    requires EventLog.Written(HandLog.Decide(dealers(s.current.value.number)), cards)
    requires PlanOf(s.current.value.fairness).value.boards != []
    requires var five := Dealing.BoardPositions(PlanOf(s.current.value.fairness).value); var n := |BoardOf(s)|;
      |five| == 5 && n + |positions| <= 5 && positions == five[n..n + |positions|]
    ensures cards <= cards' && EventLog.Written(HandLog.Decide(dealers(s.current.value.number)), cards')
    ensures var hand, hand' := HandLog.Reduce(cards), HandLog.Reduce(cards');
      && hand'.status == HandLog.Dealing && hand'.rules == hand.rules && hand'.deckRoot == hand.deckRoot
      && |BoardOf(s)| + |positions| <= |hand'.publicPositions|
    ensures |shown| == |positions|
    ensures forall i :: 0 <= i < |positions| ==> Ok(shown[i]) == D.RevealOf(kept.deck, positions[i])
  {
    hide HandLog.Decide, HandLog.PublicSequence, HandLog.Reduce, D.RevealOf, TableOk, SafeHand, PlanOf,
         Dealing.BoardPositions;
    AlignedFacts(dealers, s, HandLog.Reduce(cards), kept);
    ghost var rules, n := s.current.value.fairness, |BoardOf(s)|;
    ghost var sequence := HandLog.PublicSequence(rules).value;
    assert positions == sequence[..5][n..n + |positions|] == sequence[n..n + |positions|];
    shown, cards' := RevealAll(dealers(s.current.value.number), cards, rules, kept.deck, n, positions);
  }

  /** The same hand goes on at both logs when a slice of its board lands. */
  lemma {:induction false} StaysInProgress(dealers: Dealers, table: seq<TableEvent>, cards: seq<HandLog.HandEvent>,
      kept: F.CommittedHand, r: Request, now: int, e: TableEvent, cards': seq<HandLog.HandEvent>, dealt: nat,
      status: B.Status)
    requires InProgress(dealers, table, cards, kept)
    requires DecideOn(dealers, Reduce(table).value, r, now) == Some(e) && !r.CreateTable? && MovesBetting(e)
    requires Landed(Reduce(table).value, e, dealt, status)
    requires EventLog.Written(HandLog.Decide(dealers(Reduce(table).value.current.value.number)), cards')
    requires var hand, hand' := HandLog.Reduce(cards), HandLog.Reduce(cards');
      && hand'.status == HandLog.Dealing && hand'.rules == hand.rules && hand'.deckRoot == hand.deckRoot
      && |BoardOf(Reduce(table).value)| + dealt <= |hand'.publicPositions|
    ensures InProgress(dealers, table + [e], cards', kept) && At(Reduce(table + [e]).value, status)
  {
    hide Decide, HandLog.Decide, HandLog.Reduce, Reduce, Step, DecideOn, BettingOpening.StrandsPot, TableOk, SafeHand;
    Extends(dealers, table, r, now, e);
    SameOpening(table, e);
    var current, current' := Reduce(table).value.current.value, Reduce(table + [e]).value.current.value;
    SameSecret(dealers(current.number), current, current', kept);
  }

  lemma {:induction false} SameOpening(table: seq<TableEvent>, e: TableEvent)
    requires MovesBetting(e)
    ensures OpeningOf(table + [e]) == OpeningOf(table)
  {
    assert (table + [e])[..|table + [e]| - 1] == table;
  }

  lemma {:induction false} SameSecret(dealer: F.Dealer, current: CurrentHand, current': CurrentHand,
      kept: F.CommittedHand)
    requires KeptFor(dealer, current, kept)
    requires current'.fairness == current.fairness && current'.deckRoot == current.deckRoot
    ensures KeptFor(dealer, current', kept)
  {
    hide F.CreateCommittedHand;
    var beacon, players, serverSeed :|
      F.CreateCommittedHand(dealer, current.fairness, beacon, players, serverSeed) == Ok(kept);
    assert F.CreateCommittedHand(dealer, current'.fairness, beacon, players, serverSeed) == Ok(kept);
  }

  /** Audit and settlement end the hand. */
  lemma {:induction false} FinishGoes(dealers: Dealers, s: State, hand: HandLog.State, kept: F.CommittedHand)
    returns (e: TableEvent)
    requires Aligned(dealers, s, hand, kept) && BettingProgress.Terminal(s.current.value.betting.hand)
    ensures DecideFinish(dealers, s, kept.record, kept.serverSeed, kept.playerSeeds) == Some(e)
    ensures Step(s, e).Ok? && TableOk(Step(s, e).value)
    ensures Step(s, e).value.status == Waiting && Step(s, e).value.current.None?
  {
    hide InStep, Tracks;
    AlignedFacts(dealers, s, hand, kept);
    var deck := F.VerifyAudit(dealers(s.current.value.number), kept.record, kept.serverSeed, kept.playerSeeds).value;
    var f :| BI.Invariant(s.current.value.betting.hand, f) && f.safe;
    Stranding.SafeHandsBuildPots(s.current.value.betting.hand, f);
    FinishesIffPotsBuild(dealers, s, kept.record, kept.serverSeed, kept.playerSeeds, deck);
    e := DecideFinish(dealers, s, kept.record, kept.serverSeed, kept.playerSeeds).value;
    FinishOk(dealers, s, kept.record, kept.serverSeed, kept.playerSeeds, e);
    TableRuns.FinishStep(s, e.rake, e.stacks);
    FinishedTable(s, SettleSeats(s.seats, e.stacks).value, e.rake);
  }

  /** The hand log is completed, or was already, with the deck the dealer keeps. */
  lemma {:induction false} CompleteGoes(dealer: F.Dealer, s: State, cards: seq<HandLog.HandEvent>,
      kept: F.CommittedHand, now: int) returns (cards': seq<HandLog.HandEvent>)
    requires s.current.Some? && Tracks(HandLog.Reduce(cards), s) && DeckKept(dealer, s.current.value, kept)
    requires EventLog.Written(HandLog.Decide(dealer), cards)
    ensures HandLog.CompleteByKey(dealer, cards, kept, now) == Some(cards')
    ensures cards <= cards' && EventLog.Written(HandLog.Decide(dealer), cards')
    ensures HandLog.Reduce(cards').status == HandLog.Complete
  {
    hide F.VerifyAudit, F.IsDeck, D.Commits, HandLog.CompletedWith, HandLog.Decide, HandLog.Reduce;
    HandLog.CompletedOnce(dealer, cards);
    if HandLog.CompletedWith(cards).Some? {
      cards' := cards;
    } else {
      var e := HandLog.HandCompleted(kept.record.deckRoot);
      cards' := cards + [e];
      HandLog.Extends(dealer, cards, HandLog.CompleteHand(Some(kept)), now, e);
    }
  }

  /** Which street is pending, and which slice of the board it reveals. */
  lemma {:induction false} PendingFacts(dealers: Dealers, s: State, hand: HandLog.State, kept: F.CommittedHand)
    requires Aligned(dealers, s, hand, kept) && At(s, B.AwaitingDeal)
    ensures Playable(s).Some? && PlanOf(s.current.value.fairness).Ok?
    ensures s.current.value.betting.hand.pendingStreet.Some?
    ensures var plan := PlanOf(s.current.value.fairness).value;
      && plan.boards != []
      && var five, n := Dealing.BoardPositions(plan), |BoardOf(s)|;
         var positions :=
           DealMaps.OnStreet(plan.boards[0], StreetOf(s.current.value.betting.hand.pendingStreet.value));
         |five| == 5 && n + |positions| <= 5 && positions == five[n..n + |positions|]
  {
    hide DeckKept, InStep, Tracks, SafeHand, BI.Invariant, PlanOf, Dealing.BoardPositions;
    AlignedFacts(dealers, s, hand, kept);
    PendingPositions(s.current.value.fairness, s.current.value.betting.hand);
  }

  /** Reveals and deals the pending street. */
  method DealPending(ghost dealers: Dealers, table: seq<TableEvent>, cards: seq<HandLog.HandEvent>,
      kept: F.CommittedHand, now: int)
    returns (table': seq<TableEvent>, cards': seq<HandLog.HandEvent>)
    requires InProgress(dealers, table, cards, kept) && At(Reduce(table).value, B.AwaitingDeal)
    ensures InProgress(dealers, table', cards', kept) && At(Reduce(table').value, B.Betting)
    ensures table <= table' && cards <= cards'
  {
    hide Reduce, HandLog.Reduce, Decide, HandLog.Decide, TableOk, SafeHand, DecideStreet, PlanOf, Landed, InStep,
      KeptFor,
         Tracks, SafelyOpened, Dealing.BoardPositions, D.RevealOf, D.Commits, F.IsDeck, F.VerifyAudit;
    LogsAreAligned(dealers, table, cards, kept);
    var s := Reduce(table).value;
    PendingFacts(dealers, s, HandLog.Reduce(cards), kept);
    var street := StreetOf(s.current.value.betting.hand.pendingStreet.value);
    var positions := DealMaps.OnStreet(PlanOf(s.current.value.fairness).value.boards[0], street);
    var shown;
    shown, cards' := RevealSlice(dealers, s, cards, kept, positions);
    ghost var e := StreetGoes(s, kept.deck, shown, positions, now);
    StaysInProgress(dealers, table, cards, kept, DealStreet(street, shown), now, e, cards', |positions|, B.Betting);
    table' := table + [DecideStreet(s, street, shown, now).value];
  }

  /** Reveals and deals the rest of the board. */
  method RunOut(ghost dealers: Dealers, table: seq<TableEvent>, cards: seq<HandLog.HandEvent>, kept: F.CommittedHand)
    returns (table': seq<TableEvent>, cards': seq<HandLog.HandEvent>)
    requires InProgress(dealers, table, cards, kept) && At(Reduce(table).value, B.AwaitingRunout)
    ensures InProgress(dealers, table', cards', kept) && At(Reduce(table').value, B.Showdown)
    ensures table <= table' && cards <= cards'
  {
    hide Reduce, HandLog.Reduce, Decide, HandLog.Decide, TableOk, SafeHand, DecideRunout, PlanOf, Landed, InStep,
      KeptFor,
         Tracks, SafelyOpened, D.RevealOf, Dealing.BoardPositions, D.Commits, F.IsDeck, F.VerifyAudit;
    LogsAreAligned(dealers, table, cards, kept);
    var s := Reduce(table).value;
    AlignedFacts(dealers, s, HandLog.Reduce(cards), kept);
    var positions := Dealing.BoardPositions(PlanOf(s.current.value.fairness).value)[|BoardOf(s)|..];
    var shown;
    shown, cards' := RevealSlice(dealers, s, cards, kept, positions);
    ghost var e := RunoutGoes(s, kept.deck, shown, positions);
    StaysInProgress(dealers, table, cards, kept, DealRunout(shown), 0, e, cards', |positions|, B.Showdown);
    table' := table + [DecideRunout(s, shown).value];
  }

  /** Completes the hand log with the dealer's audit and settles the hand at the table. */
  method Finish(dealers: Dealers, table: seq<TableEvent>, cards: seq<HandLog.HandEvent>, kept: F.CommittedHand,
      now: int)
    returns (table': seq<TableEvent>, cards': seq<HandLog.HandEvent>)
    requires InProgress(dealers, table, cards, kept)
    requires BettingProgress.Terminal(Reduce(table).value.current.value.betting.hand)
    ensures table <= table' && EventLog.Written(Decide(dealers), table')
    ensures cards <= cards'
    ensures EventLog.Written(HandLog.Decide(dealers(Reduce(table).value.current.value.number)), cards')
    ensures Reduce(table').Ok? && Settled(Reduce(table').value, HandLog.Reduce(cards'))
  {
    hide Reduce, HandLog.Reduce, Decide, HandLog.Decide, TableOk, SafeHand, InStep, KeptFor, DecideFinish, Step,
         HandLog.CompleteByKey, Tracks, DeckKept;
    LogsAreAligned(dealers, table, cards, kept);
    var s := Reduce(table).value;
    ghost var completed := CompleteGoes(dealers(s.current.value.number), s, cards, kept, now);
    ghost var e := FinishGoes(dealers, s, HandLog.Reduce(cards), kept);
    Extends(dealers, table, FinishHand(kept.record, kept.serverSeed, kept.playerSeeds), now, e);
    cards' := HandLog.CompleteByKey(dealers(s.current.value.number), cards, kept, now).value;
    table' := table + [DecideFinish(dealers, s, kept.record, kept.serverSeed, kept.playerSeeds).value];
  }

  /** The hand is settled at the table and completed on its own log. */
  predicate Settled(s: State, hand: HandLog.State) {
    s.status == Waiting && s.current.None? && hand.status == HandLog.Complete
  }

  /**
   * The driver never gets stuck. From any two logs of a hand in progress that was opened without
   * stranding its pot, wherever an earlier run of the driver or a player left them, the loop comes to
   * rest within its bound: with a player to act, or with the hand settled. No reveal, deal, audit or
   * settlement on the way is refused, and both logs are only ever extended by what their coordinators
   * accept.
   */
  method Advance(dealers: Dealers, table: seq<TableEvent>, cards: seq<HandLog.HandEvent>, kept: F.CommittedHand,
      now: int)
    returns (table': seq<TableEvent>, cards': seq<HandLog.HandEvent>, threw: bool)
    requires InProgress(dealers, table, cards, kept)
    ensures !threw && table <= table' && cards <= cards'
    ensures EventLog.Written(Decide(dealers), table') && Reduce(table').Ok?
    ensures || (At(Reduce(table').value, B.Betting) && InProgress(dealers, table', cards', kept))
            || Settled(Reduce(table').value, HandLog.Reduce(cards'))
  {
    hide Reduce, HandLog.Reduce, Decide, HandLog.Decide;
    table', cards', threw := table, cards, false;
    var step := 0;
    while step < 8
      invariant InProgress(dealers, table', cards', kept) && table <= table' && cards <= cards'
      invariant 0 <= step <= 1
      invariant step == 1 ==>
          !At(Reduce(table').value, B.AwaitingDeal) && !At(Reduce(table').value, B.AwaitingRunout)
      decreases 8 - step
    {
      var s := Reduce(table').value;
      if At(s, B.Betting) {
        return;
      }
      if At(s, B.AwaitingDeal) {
        table', cards' := DealPending(dealers, table', cards', kept, now);
      } else if At(s, B.AwaitingRunout) {
        table', cards' := RunOut(dealers, table', cards', kept);
      } else {
        table', cards' := Finish(dealers, table', cards', kept, now);
        return;
      }
      step := step + 1;
    }
    threw := true;
  }
}
