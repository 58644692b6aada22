/**
 * A table that opens a hand which strands its pot can be driven, by timeouts and an honest runout
 * alone, to a finished hand it can never settle.
 */
module StuckTables {
  import opened Wrappers
  import opened Seqs
  import opened Games
  import opened Tables
  import opened TableSeats
  import opened TableInvariant
  import opened TableRuns
  import opened TableHands
  import B = Betting
  import BI = BettingInvariant
  import BettingOpening
  import BettingProgress
  import BettingRuns
  import BoardDealing
  import D = DeckMerkle
  import Deadlines
  import Dealing
  import EventLog
  import F = Fairness
  import GuessedVersions
  import Pots
  import Seats
  import Stranding

  // ----- The same hand -----

  /** The same hand goes on, with the betting state given. */
  ghost predicate GoesOn(s: State, s': State, h': B.Hand) {
    && s.current.Some? && s'.current.Some?
    && s'.current.value.betting.hand == h'
    && s'.current.value.fairness == s.current.value.fairness && s'.current.value.deckRoot == s.current.value.deckRoot
    && s'.handNumber == s.handNumber
  }

  lemma {:induction false} BettingGoesOn(s: State, e: TableEvent)
    requires Step(s, e).Ok? && MovesBetting(e)
    ensures GoesOn(s, Step(s, e).value, e.betting.hand)
  {
    hide SetBanks;
  }

  // ----- One timeout -----

  /** Once the deadline has passed, the actor at the table is timed out by the rules. */
  lemma {:induction false} TimesOut(dealers: Dealers, log: seq<TableEvent>) returns (longer: seq<TableEvent>, i: nat)
    requires EventLog.Written(Decide(dealers), log) && Reduce(log).Ok? && Reduce(log).value.current.Some?
    requires Reduce(log).value.current.value.betting.hand.status == B.Betting
    ensures EventLog.Written(Decide(dealers), longer) && log <= longer && Reduce(longer).Ok?
    ensures var h := Reduce(log).value.current.value.betting.hand;
      && i < |h.players| && BI.ToAct(h, i)
      && B.ApplyTimeout(h, h.players[i].playerId, h.version).Ok?
      && GoesOn(Reduce(log).value, Reduce(longer).value, B.ApplyTimeout(h, h.players[i].playerId, h.version).value)
  {
    hide Decide, Reduce, Step, DecideTimeout, TableOk, B.ApplyTimeout, BI.ToAct;
    LogsReplay(dealers, log);
    var s := Reduce(log).value;
    var h := s.current.value.betting.hand;
    i := ActorAt(s);
    var now := s.current.value.turn.value.deadline;
    Deadlines.TimeoutIffExpired(s, now);
    var e := DecideTimeout(s, h.version, now).value;
    TimeoutApplies(s, h.version, now, e);
    Extends(dealers, log, Timeout(h.version), now, e);
    BettingGoesOn(s, e);
    longer := log + [e];
  }

  lemma {:induction false} ActorAt(s: State) returns (i: nat)
    requires TableOk(s) && s.current.Some? && s.current.value.betting.hand.status == B.Betting
    ensures Playable(s).Some? && s.current.value.turn.Some?
    ensures i < |s.current.value.betting.hand.players| && BI.ToAct(s.current.value.betting.hand, i)
    ensures s.current.value.turn.value.playerId == s.current.value.betting.hand.players[i].playerId
  {
    hide HandOk, BoardOk, SeatsOk, AllHeld;
    var h, turn := s.current.value.betting.hand, s.current.value.turn;
    i :| BI.ToAct(h, i) && turn.value.playerId == h.players[i].playerId;
  }

  lemma {:induction false} TimeoutApplies(s: State, version: nat, now: int, e: TableEvent)
    requires DecideTimeout(s, version, now) == Some(e)
    ensures e.ActionTimedOut? && s.current.Some? && s.current.value.turn.Some?
    ensures B.ApplyTimeout(s.current.value.betting.hand, s.current.value.turn.value.playerId, version)
        == Ok(e.betting.hand)
  {
    hide B.ApplyTimeout, TurnFor;
  }

  // ----- The runout -----

  lemma {:induction false} HonestReveals(deck: D.CommittedDeck, positions: seq<int>) returns (shown: seq<D.Reveal>)
    requires D.Commits(deck) && |deck.order| == 52 && forall i :: 0 <= i < |positions| ==> 0 <= positions[i] < 52
    ensures |shown| == |positions| && forall i :: 0 <= i < |positions| ==>
        Ok(shown[i]) == D.RevealOf(deck, positions[i])
  {
    forall i | 0 <= i < |positions| ensures D.RevealOf(deck, positions[i]).Ok? {
      D.HonestRevealIsAccepted(deck, positions[i]);
    }
    shown := seq(|positions|, i requires 0 <= i < |positions| => D.RevealOf(deck, positions[i]).value);
  }

  /** A hand all-in before the flop is run out with the committed deck's cards. */
  lemma {:induction false} RunsOut(dealers: Dealers, log: seq<TableEvent>, deck: D.CommittedDeck)
    returns (longer: seq<TableEvent>, h': B.Hand)
    requires EventLog.Written(Decide(dealers), log) && Reduce(log).Ok? && Reduce(log).value.current.Some?
    requires Reduce(log).value.current.value.betting.hand.status == B.AwaitingRunout
    requires Reduce(log).value.current.value.betting.hand.board == []
    requires D.Commits(deck) && F.IsDeck(deck.order) && deck.root == Reduce(log).value.current.value.deckRoot
    ensures EventLog.Written(Decide(dealers), longer) && log <= longer && Reduce(longer).Ok?
    ensures GoesOn(Reduce(log).value, Reduce(longer).value, h')
    ensures h'.status == B.Showdown && h'.players == Reduce(log).value.current.value.betting.hand.players
  {
    hide Decide, Reduce, Step, DecideRunout, TableOk;
    LogsReplay(dealers, log);
    var s := Reduce(log).value;
    var e: TableEvent, shown: seq<D.Reveal>;
    shown, e, h' := RunoutGoes(s, deck);
    Extends(dealers, log, DealRunout(shown), 0, e);
    BettingGoesOn(s, e);
    longer := log + [e];
  }

  lemma {:induction false} RunoutGoes(s: State, deck: D.CommittedDeck)
    returns (shown: seq<D.Reveal>, e: TableEvent, h': B.Hand)
    requires TableOk(s) && s.current.Some? && s.current.value.betting.hand.status == B.AwaitingRunout
    requires s.current.value.betting.hand.board == []
    requires D.Commits(deck) && F.IsDeck(deck.order) && deck.root == s.current.value.deckRoot
    ensures DecideRunout(s, shown) == Some(e) && e.RunoutDealt? && e.betting.hand == h'
    ensures h'.status == B.Showdown && h'.players == s.current.value.betting.hand.players
  {
    hide HandOk, SeatsOk, AllHeld, Dealing.CommittedBoard, Dealing.BoardPositions, Dealing.VerifiedCards, DecideRunout;
    var hand := s.current.value;
    BoardDealing.BoardIsCommitted(s, deck);
    BoardDealing.FiveCards(hand.fairness, deck);
    var positions := Dealing.BoardPositions(PlanOf(hand.fairness).value);
    shown := HonestReveals(deck, positions);
    assert positions[0..5] == positions && positions[0..] == positions;
    BoardDealing.NextCardsShown(hand.fairness, deck, [], 5, shown, positions);
    var cards := Dealing.VerifiedCards(shown, positions, deck.root).value;
    h' := RunoutNext(hand.betting.hand, cards);
    BoardDealing.RunoutDecides(s, shown, cards, h');
    e := RunoutDealt(shown, hand.betting.(hand := h'));
  }

  lemma {:induction false} RunoutNext(h: B.Hand, cards: seq<int>) returns (h': B.Hand)
    requires h.status == B.AwaitingRunout && h.board == [] && |cards| == 5
    requires B.ValidCards(cards) && Distinct([] + cards)
    ensures B.DealRemainingBoard(h, h.version, cards) == Ok(h')
    ensures h'.status == B.Showdown && h'.players == h.players
  {
    h' := B.DealRemainingBoard(h, h.version, cards).value;
  }

  // ----- To the end -----

  /** A hand whose pot is stranded, with nothing on the board yet. */
  ghost predicate Doomed(s: State, f: BI.Floor) {
    && s.current.Some?
    && var h := s.current.value.betting.hand;
       && BI.Invariant(h, f) && Stranding.Stranded(h) && h.board == []
       && h.status in {B.Betting, B.AwaitingRunout, B.Complete}
       && (h.status != B.Betting ==> Stranding.Quiet(h))
  }

  function HandOf(s: State): B.Hand
    requires s.current.Some?
  {
    s.current.value.betting.hand
  }

  lemma {:induction false} DoomStays(s: State, f: BI.Floor, i: nat, h': B.Hand) returns (f': BI.Floor)
    requires Doomed(s, f) && HandOf(s).status == B.Betting && i < |HandOf(s).players| && BI.ToAct(HandOf(s), i)
    requires B.ApplyTimeout(HandOf(s), HandOf(s).players[i].playerId, HandOf(s).version) == Ok(h')
    ensures forall s': State :: GoesOn(s, s', h') ==> Doomed(s', f')
    ensures BettingProgress.AllChips(h') == BettingProgress.AllChips(HandOf(s))
    ensures BettingProgress.Measure(h', BettingProgress.AllChips(h'))
      < BettingProgress.Measure(HandOf(s), BettingProgress.AllChips(HandOf(s)))
  {
    hide Stranding.Stranded, Stranding.Quiet, B.ApplyTimeout, BettingProgress.Measure, BettingProgress.AllChips;
    var h := HandOf(s);
    var step := B.TimeOut(h.players[i].playerId, h.version);
    assert B.Apply(h, step) == Ok(h');
    Stranding.TimeoutStaysStranded(h, i, h');
    BettingProgress.StepUsesUp(h, f, step, h');
    f' := BettingRuns.StepKeeps(h, f, step, h');
  }

  /** Timeouts, and a runout if the hand comes to that, leave a finished hand whose pots cannot be built. */
  lemma {:induction false} DoomedGetsStuck(dealers: Dealers, log: seq<TableEvent>, f: BI.Floor, deck: D.CommittedDeck)
    returns (longer: seq<TableEvent>)
    requires EventLog.Written(Decide(dealers), log) && Reduce(log).Ok? && Doomed(Reduce(log).value, f)
    requires D.Commits(deck) && F.IsDeck(deck.order) && deck.root == Reduce(log).value.current.value.deckRoot
    ensures EventLog.Written(Decide(dealers), longer) && log <= longer && Reduce(longer).Ok?
    ensures Stuck(Reduce(longer).value) && Reduce(longer).value.handNumber == Reduce(log).value.handNumber
    decreases BettingProgress.Measure(HandOf(Reduce(log).value), BettingProgress.AllChips(HandOf(Reduce(log).value)))
  {
    hide Decide, Reduce, TableOk, BI.Invariant, Stranding.Stranded, Stranding.Quiet, BettingProgress.Measure,
         BettingProgress.AllChips, B.ApplyTimeout, D.Commits, F.IsDeck, Stuck;
    var s := Reduce(log).value;
    MeasureNotNegative(s, f);
    if HandOf(s).status == B.Betting {
      var next, i := TimesOut(dealers, log);
      var h' := B.ApplyTimeout(HandOf(s), HandOf(s).players[i].playerId, HandOf(s).version).value;
      var f' := DoomStays(s, f, i, h');
      assert GoesOn(s, Reduce(next).value, h');
      longer := DoomedGetsStuck(dealers, next, f', deck);
    } else if HandOf(s).status == B.AwaitingRunout {
      var h': B.Hand;
      longer, h' := RunsOut(dealers, log, deck);
      LogsReplay(dealers, longer);
      DoomedIsStuck(s, f, Reduce(longer).value);
    } else {
      longer := log;
      LogsReplay(dealers, log);
      DoomedIsStuck(s, f, s);
    }
  }

  lemma {:induction false} MeasureNotNegative(s: State, f: BI.Floor)
    requires Doomed(s, f)
    ensures BettingProgress.Measure(HandOf(s), BettingProgress.AllChips(HandOf(s))) >= 0
  {
    BettingProgress.MeasureBounds(HandOf(s));
  }

  lemma {:induction false} DoomedIsStuck(s: State, f: BI.Floor, s': State)
    requires Doomed(s, f) && HandOf(s).status != B.Betting && TableOk(s')
    requires s'.current.Some? && HandOf(s').players == HandOf(s).players && BettingProgress.Terminal(HandOf(s'))
    ensures Stuck(s')
  {
    hide Pots.BuildPots, SeatsOk, PlayOk, Stranding.Stranded, Stranding.Quiet;
    Stranding.StrandedCannotSettle(HandOf(s));
    assert Stranding.HandStakes(HandOf(s')) == Stranding.HandStakes(HandOf(s));
  }

  // ----- Exactly the stranding openings -----

  /** The log ends with a hand started on a deck its dealer committed to. */
  ghost predicate JustStarted(dealers: Dealers, log: seq<TableEvent>, deck: D.CommittedDeck) {
    && EventLog.Written(Decide(dealers), log)
    && log != [] && log[|log| - 1].HandStarted? && log[|log| - 1].deckRoot == deck.root
    && D.Commits(deck) && F.IsDeck(deck.order)
  }

  /** The log can be continued, with the same hand, to a finished hand that cannot be settled. */
  ghost predicate GetsStuck(dealers: Dealers, log: seq<TableEvent>, longer: seq<TableEvent>) {
    && EventLog.Written(Decide(dealers), longer) && log <= longer
    && Reduce(log).Ok? && Reduce(longer).Ok?
    && Reduce(longer).value.handNumber == Reduce(log).value.handNumber
    && Stuck(Reduce(longer).value)
  }

  lemma {:induction false} StartedHand(dealers: Dealers, log: seq<TableEvent>, deck: D.CommittedDeck)
    requires JustStarted(dealers, log, deck)
    ensures Reduce(log).Ok? && Reduce(log).value.current.Some? && OpeningOf(log).Some?
    ensures Reduce(log).value.current.value.deckRoot == deck.root
    ensures B.CreateBettingState(OpeningOf(log).value) == Ok(HandOf(Reduce(log).value))
  {
    hide Decide, DecideOn, Step, NextOpening, B.CreateBettingState, D.Commits, F.IsDeck, Reduce;
    var front, e := WrittenFront(dealers, log);
    var r, now := DecidedOnReduced(dealers, front, e);
    EventKind(dealers, Reduce(front).value, r, now, e);
    StartIsDecided(dealers, Reduce(front).value, r, now, e);
    StartOpens(Reduce(front).value, r.number, r.deckRoot, now, e);
    ReduceExtends(front, e);
    LogsReplay(dealers, log);
    StartSets(Reduce(front).value, e);
  }

  lemma {:induction false} StartSets(s: State, e: TableEvent)
    requires e.HandStarted?
    ensures Step(s, e).Ok? && Step(s, e).value.current.Some?
    ensures Step(s, e).value.current.value.deckRoot == e.deckRoot && HandOf(Step(s, e).value) == e.betting.hand
  {
    hide MarkPlaying;
  }

  lemma {:induction false} CreatedIsAccepted(c: B.Config)
    requires B.CreateBettingState(c).Ok?
    ensures BettingOpening.Accepted(c)
  {
    hide B.CheckConfig, B.Opened, B.FirstActor, B.FinishOrAdvance;
  }

  lemma {:induction false} StrandedStartIsDoomed(c: B.Config, s: State)
    requires s.current.Some? && B.CreateBettingState(c) == Ok(HandOf(s)) && BettingOpening.StrandsPot(c)
    ensures Doomed(s, BI.Floor(c.ante, false))
  {
    hide B.CreateBettingState, BettingOpening.StrandsPot, BI.Invariant, Stranding.Stranded;
    CreatedIsAccepted(c);
    var start := Stranding.StrandedStart(c);
  }

  lemma {:induction false} NumberAfter(dealers: Dealers, s: State, r: Request, now: int, e: TableEvent)
    requires TableOk(s) && DecideOn(dealers, s, r, now) == Some(e) && Step(s, e).Ok?
    ensures Step(s, e).value.handNumber == s.handNumber + if e.HandStarted? then 1 else 0
  {
    hide DecideOn, PlayOk, SeatsOk, SettleSeats, SetBanks, UpdateSeat, Filter, MarkPlaying, Seats.SortBySeat,
      DecideStart;
    EventKind(dealers, s, r, now, e);
    if e.HandStarted? {
      StartIsDecided(dealers, s, r, now, e);
      StartNumber(s, r.number, r.deckRoot, now, e);
    }
  }

  /** A hand keeps its number, so the same number means the same opening. */
  lemma {:induction false} SameOpening(dealers: Dealers, log: seq<TableEvent>, longer: seq<TableEvent>)
    requires EventLog.Written(Decide(dealers), longer) && log != [] && log <= longer && Reduce(log).Ok?
    ensures Reduce(longer).Ok? && Reduce(longer).value.handNumber >= Reduce(log).value.handNumber
    ensures Reduce(longer).value.current.Some? && Reduce(longer).value.handNumber == Reduce(log).value.handNumber
      ==> OpeningOf(longer) == OpeningOf(log)
    decreases |longer|
  {
    hide Decide, DecideOn, Step, Reduce, NextOpening, TableOk;
    if |longer| == |log| {
      assert longer == log;
    } else {
      var front, e := WrittenFront(dealers, longer);
      assert log <= front;
      SameOpening(dealers, log, front);
      LogsReplay(dealers, front);
      LogsReplay(dealers, longer);
      var r, now := DecidedOnReduced(dealers, front, e);
      ReduceExtends(front, e);
      NumberAfter(dealers, Reduce(front).value, r, now, e);
      CurrentAfter(Reduce(front).value, e);
    }
  }

  /**
   * Once a hand has been started, its table can get stuck in it because its pots cannot be built, if and
   * only if the configuration it was opened with strands the pot.
   */
  lemma {:induction false} TableSticksIffStranded(dealers: Dealers, log: seq<TableEvent>, deck: D.CommittedDeck)
    requires JustStarted(dealers, log, deck)
    ensures OpeningOf(log).Some?
    ensures (exists longer: seq<TableEvent> :: GetsStuck(dealers, log, longer))
      <==> BettingOpening.StrandsPot(OpeningOf(log).value)
  {
    hide Decide, Reduce, OpeningOf, BettingOpening.StrandsPot, D.Commits, F.IsDeck, Stuck, Doomed, B.CreateBettingState;
    StartedHand(dealers, log, deck);
    var c := OpeningOf(log).value;
    if BettingOpening.StrandsPot(c) {
      StrandedStartIsDoomed(c, Reduce(log).value);
      var longer := DoomedGetsStuck(dealers, log, BI.Floor(c.ante, false), deck);
      assert GetsStuck(dealers, log, longer);
    }
    if longer: seq<TableEvent> :| GetsStuck(dealers, log, longer) {
      StuckHasHand(Reduce(longer).value);
      SameOpening(dealers, log, longer);
      SafeOpeningNeverSticks(dealers, longer);
    }
  }

  lemma {:induction false} StuckHasHand(s: State)
    requires Stuck(s)
    ensures s.current.Some? && Finished(s)
  {
  }

  // ----- Such tables exist -----

  /** Blinds of one and two, an ante of ten, and buy-ins from five to a hundred. */
  const EXAMPLE_RULES := TableRules(Always(NLH), 3, 1, 2, 10, 5, 100, 0, 0, 5000, 0, 1)

  const EXAMPLE_SEATS := [Seat(0, 0, 100, Seated, 0, false, false), Seat(1, 1, 100, Seated, 0, false, false),
                          Seat(2, 2, 5, Seated, 0, false, false)]

  /** The example's table with its first n players seated. */
  function ExampleState(n: nat): State
    requires n <= 3
  {
    State(Waiting, Some(EXAMPLE_RULES), EXAMPLE_SEATS[..n], 0, None, None, 0)
  }

  lemma {:induction false} ExampleCreated(dealers: Dealers)
    ensures EventLog.Written(Decide(dealers), [TableCreated(EXAMPLE_RULES)])
    ensures Reduce([TableCreated(EXAMPLE_RULES)]) == Ok(ExampleState(0))
  {
    var e := TableCreated(EXAMPLE_RULES);
    assert ValidRules(EXAMPLE_RULES);
    GuessedVersions.CreateIsDecided(dealers, EXAMPLE_RULES);
    assert Decide(dealers)([], CreateTable(EXAMPLE_RULES), 0) == Some(e);
    assert EventLog.Decided(Decide(dealers), [], e);
    EventLog.WrittenExtends(Decide(dealers), [], e);
    ReduceExtends([], e);
    assert [] + [e] == [e];
  }

  lemma {:induction false} ExampleSeated(n: nat)
    requires n < 3
    ensures var x := EXAMPLE_SEATS[n];
      && DecideSeat(ExampleState(n), x.playerId, x.seat, x.stack) == Some(PlayerSeated(x))
      && Step(ExampleState(n), PlayerSeated(x)) == Ok(ExampleState(n + 1))
  {
    var x := EXAMPLE_SEATS[n];
    assert EXAMPLE_SEATS[..n + 1] == EXAMPLE_SEATS[..n] + [x];
    assert SeatsOk(EXAMPLE_SEATS[..n + 1]);
    SortedStays(EXAMPLE_SEATS[..n + 1]);
  }

  lemma {:induction false} ExampleWaiting(dealers: Dealers, n: nat) returns (log: seq<TableEvent>)
    requires n <= 3
    ensures EventLog.Written(Decide(dealers), log) && Reduce(log) == Ok(ExampleState(n))
  {
    hide Decide, Step, DecideSeat, ExampleState;
    if n == 0 {
      ExampleCreated(dealers);
      log := [TableCreated(EXAMPLE_RULES)];
    } else {
      var front := ExampleWaiting(dealers, n - 1);
      var x := EXAMPLE_SEATS[n - 1];
      ExampleSeated(n - 1);
      Extends(dealers, front, SeatPlayer(x.playerId, x.seat, x.stack), 0, PlayerSeated(x));
      log := front + [PlayerSeated(x)];
    }
  }

  lemma {:induction false} ExampleSetup()
    ensures SeatsOk(EXAMPLE_SEATS) && Filter(Eligible, EXAMPLE_SEATS) == EXAMPLE_SEATS
    ensures NextHandSetup(ExampleState(3)) == Some(Setup(1, NLH, 0, [0, 1, 2], F.Rules(NLH, 3, 0, 1)))
  {
    hide Filter, Seats.SortBySeat, IndexWhere, Map, GameOf;
    assert SeatsOk(EXAMPLE_SEATS);
    SortedStays(EXAMPLE_SEATS);
    AllEligible(EXAMPLE_SEATS);
    assert EXAMPLE_SEATS[..3] == EXAMPLE_SEATS;
    assert Map((p: Seat) => p.playerId, EXAMPLE_SEATS) == [0, 1, 2];
    assert GameOf(EXAMPLE_RULES, 1) == NLH by {
      ExampleGame();
    }
    ExampleButton();
  }

  lemma {:induction false} ExampleGame()
    ensures GameOf(EXAMPLE_RULES, 1) == NLH
  {
  }

  lemma {:induction false} ExampleButton()
    ensures IndexWhere((p: Seat) => p.seat == 0, EXAMPLE_SEATS) == Some(0)
  {
  }

  lemma {:induction false} AllEligible(seats: seq<Seat>)
    requires forall x :: x in seats ==> Eligible(x)
    ensures Filter(Eligible, seats) == seats
  {
    if seats != [] {
      AllEligible(seats[1..]);
    }
  }

  /** The example's next hand is the betting rules' example of a stranded pot. */
  lemma {:induction false} ExampleConfig()
    ensures NextHandSetup(ExampleState(3)).Some?
    ensures ConfigOf(ExampleState(3), NextHandSetup(ExampleState(3)).value) == Stranding.EXAMPLE
  {
    hide NextHandSetup, Filter;
    ExampleSetup();
    var s := ExampleState(3);
    var setup := NextHandSetup(s).value;
    assert EXAMPLE_SEATS[..3] == EXAMPLE_SEATS;
    SetupIsEligible(s, setup);
    assert Map(EntrantOf, EXAMPLE_SEATS) == Stranding.EXAMPLE.players;
  }

  /** A waiting table with players for the next hand can start it on any committed deck. */
  lemma {:induction false} StartAppended(dealers: Dealers, front: seq<TableEvent>, s: State, setup: Setup,
                                         deck: D.CommittedDeck) returns (log: seq<TableEvent>)
    requires EventLog.Written(Decide(dealers), front) && Reduce(front) == Ok(s) && NextHandSetup(s) == Some(setup)
    requires D.Commits(deck) && F.IsDeck(deck.order)
    ensures JustStarted(dealers, log, deck) && OpeningOf(log) == NextOpening(Ok(s))
  {
    hide Decide, DecideStart, NextHandSetup, D.Commits, F.IsDeck, TableOk, Reduce, Step, NextOpening;
    LogsReplay(dealers, front);
    StartNeverThrows(s, setup, deck.root, 0);
    var e := DecideStart(s, setup.number, deck.root, 0).value;
    StartNames(s, setup.number, deck.root, e);
    Extends(dealers, front, StartHand(setup.number, deck.root), 0, e);
    log := front + [e];
    assert log[..|log| - 1] == front;
  }

  lemma {:induction false} ExampleStarted(dealers: Dealers, deck: D.CommittedDeck) returns (log: seq<TableEvent>)
    requires D.Commits(deck) && F.IsDeck(deck.order)
    ensures JustStarted(dealers, log, deck) && OpeningOf(log) == Some(Stranding.EXAMPLE)
  {
    hide Decide, NextHandSetup, ConfigOf, D.Commits, F.IsDeck, Reduce, JustStarted, OpeningOf;
    var front := ExampleWaiting(dealers, 3);
    ExampleConfig();
    log := StartAppended(dealers, front, ExampleState(3), NextHandSetup(ExampleState(3)).value, deck);
  }

  lemma {:induction false} StartNames(s: State, number: nat, deckRoot: D.Digest, e: TableEvent)
    requires DecideStart(s, number, deckRoot, 0) == Some(e)
    ensures e.HandStarted? && e.deckRoot == deckRoot
  {
    hide NextHandSetup, B.CreateBettingState, TurnFor;
  }

  /** Whoever deals, some table gets stuck: three players, two timeouts, and a hand that is never settled. */
  lemma {:induction false} SomeTableSticks(dealers: Dealers, deck: D.CommittedDeck) returns (log: seq<TableEvent>)
    requires D.Commits(deck) && F.IsDeck(deck.order)
    ensures EventLog.Written(Decide(dealers), log) && Reduce(log).Ok? && Stuck(Reduce(log).value)
  {
    hide Decide, Reduce, Stuck, JustStarted, BettingOpening.StrandsPot, D.Commits, F.IsDeck;
    var started := ExampleStarted(dealers, deck);
    Stranding.ExampleStrands();
    TableSticksIffStranded(dealers, started, deck);
    log :| GetsStuck(dealers, started, log);
  }
}
