/**
 * The hands of a table's log are hands of the betting rules, so what the rules promise of an opening
 * decides whether the table can finish the hand it started.
 */
module TableHands {
  import opened Wrappers
  import opened Seqs
  import opened Tables
  import opened TableSeats
  import opened TableInvariant
  import opened TableFinish
  import opened TableRuns
  import B = Betting
  import BI = BettingInvariant
  import BettingOpening
  import BettingProgress
  import BettingRuns
  import D = DeckMerkle
  import DealMaps
  import Dealing
  import EventLog
  import F = Fairness
  import Pots
  import Seats
  import Stranding

  // ----- Hands of the log and hands of the rules -----

  /** The configuration of the hand a log has in progress. */
  function OpeningOf(log: seq<TableEvent>): Option<B.Config> {
    if log == [] then None
    else
      var front := log[..|log| - 1];
      match log[|log| - 1]
      case HandStarted(_, _, _, _, _, _) => NextOpening(Reduce(front))
      case HandFinished(_, _) => None
      case _ => OpeningOf(front)
  }

  function NextOpening(s: Result<State, ReplayError>): Option<B.Config> {
    if s.Err? || s.value.rules.None? then None
    else match NextHandSetup(s.value)
      case None => None
      case Some(setup) => Some(ConfigOf(s.value, setup))
  }

  /** Some run of the betting rules leads from the configuration to the hand. */
  ghost predicate Played(c: B.Config, h: B.Hand) {
    exists steps: seq<B.Step> :: B.PlayFrom(c, steps) == Ok(h)
  }

  lemma {:induction false} PlayAppend(h: B.Hand, steps: seq<B.Step>, m: B.Hand, step: B.Step, h': B.Hand)
    requires B.Play(h, steps) == Ok(m) && B.Apply(m, step) == Ok(h')
    ensures B.Play(h, steps + [step]) == Ok(h')
    decreases |steps|
  {
    hide B.Apply;
    var longer := steps + [step];
    if steps == [] {
      assert longer[1..] == [];
    } else {
      assert longer[1..] == steps[1..] + [step];
      PlayAppend(B.Apply(h, steps[0]).value, steps[1..], m, step, h');
    }
  }

  lemma {:induction false} PlaysOn(c: B.Config, h: B.Hand, step: B.Step, h': B.Hand)
    requires Played(c, h) && B.Apply(h, step) == Ok(h')
    ensures Played(c, h')
  {
    hide B.Apply, B.CreateBettingState;
    var steps :| B.PlayFrom(c, steps) == Ok(h);
    PlayAppend(B.CreateBettingState(c).value, steps, h, step, h');
    assert B.PlayFrom(c, steps + [step]) == Ok(h');
  }

  /** Which request an event answers. */
  lemma {:induction false} EventKind(dealers: Dealers, s: State, r: Request, now: int, e: TableEvent)
    requires DecideOn(dealers, s, r, now) == Some(e)
    ensures MovesBetting(e) <==> r.Act? || r.Timeout? || r.DealStreet? || r.DealRunout?
    ensures e.HandStarted? <==> r.StartHand?
    ensures e.HandFinished? <==> r.FinishHand?
  {
    hide B.ApplyAction, B.ApplyTimeout, B.DealStreet, B.DealRemainingBoard, B.CreateBettingState, F.VerifyAudit,
         Dealing.VerifiedCards, TurnFor, SettlementOf, DeckCovers, PlanOf, NextHandSetup, InHand;
  }

  lemma {:induction false} StreetMoves(s: State, r: Request, now: int, e: TableEvent) returns (step: B.Step)
    requires r.DealStreet? && DecideStreet(s, r.street, r.shown, now) == Some(e)
    ensures s.current.Some? && B.Apply(s.current.value.betting.hand, step) == Ok(e.betting.hand)
  {
    hide B.DealStreet, TurnFor, Dealing.VerifiedCards;
    var hand := s.current.value;
    var positions := DealMaps.OnStreet(PlanOf(hand.fairness).value.boards[0], r.street);
    var cards := Dealing.VerifiedCards(r.shown, positions, hand.deckRoot).value;
    step := B.Street(hand.betting.hand.version, PhaseOf(r.street), cards);
  }

  lemma {:induction false} RunoutMoves(s: State, shown: seq<D.Reveal>, e: TableEvent) returns (step: B.Step)
    requires DecideRunout(s, shown) == Some(e)
    ensures s.current.Some? && B.Apply(s.current.value.betting.hand, step) == Ok(e.betting.hand)
  {
    hide B.DealRemainingBoard, Dealing.VerifiedCards, Dealing.BoardPositions;
    var hand := s.current.value;
    var positions := Dealing.BoardPositions(PlanOf(hand.fairness).value);
    var n := |hand.betting.hand.board|;
    var missing := if n <= |positions| then positions[n..] else [];
    step := B.Runout(hand.betting.hand.version, Dealing.VerifiedCards(shown, missing, hand.deckRoot).value);
  }

  /** Every betting event is a step of the rules on the hand in progress. */
  lemma {:induction false} BettingMoves(dealers: Dealers, s: State, r: Request, now: int, e: TableEvent)
    returns (step: B.Step)
    requires DecideOn(dealers, s, r, now) == Some(e) && MovesBetting(e)
    ensures s.current.Some? && B.Apply(s.current.value.betting.hand, step) == Ok(e.betting.hand)
  {
    hide B.ApplyAction, B.ApplyTimeout, TurnFor, DecideStreet, DecideRunout;
    EventKind(dealers, s, r, now, e);
    if r.Act? {
      step := B.Act(B.Action(r.playerId, r.bettingVersion, r.move));
    } else if r.Timeout? {
      step := B.TimeOut(s.current.value.turn.value.playerId, r.bettingVersion);
    } else if r.DealStreet? {
      step := StreetMoves(s, r, now, e);
    } else {
      step := RunoutMoves(s, r.shown, e);
    }
  }

  /** What an event does to the hand in progress. */
  lemma {:induction false} CurrentAfter(s: State, e: TableEvent)
    requires Step(s, e).Ok?
    ensures MovesBetting(e) ==> s.current.Some? && Step(s, e).value.current.Some?
    ensures MovesBetting(e) ==> Step(s, e).value.current.value.betting == e.betting
    ensures e.HandStarted? ==> Step(s, e).value.current.Some? && Step(s, e).value.current.value.betting == e.betting
    ensures e.HandFinished? ==> Step(s, e).value.current.None?
    ensures !MovesBetting(e) && !e.HandStarted? && !e.HandFinished? ==> Step(s, e).value.current == s.current
  {
    hide UpdateSeat, SetBanks, SettleSeats, MarkPlaying, Filter, Seats.SortBySeat, InHand;
  }

  lemma {:induction false} StartIsDecided(dealers: Dealers, s: State, r: Request, now: int, e: TableEvent)
    requires DecideOn(dealers, s, r, now) == Some(e) && r.StartHand?
    ensures DecideStart(s, r.number, r.deckRoot, now) == Some(e)
  {
    hide DecideStart;
  }

  lemma {:induction false} StartOpens(s: State, number: nat, deckRoot: D.Digest, now: int, e: TableEvent)
    requires DecideStart(s, number, deckRoot, now) == Some(e)
    ensures e.HandStarted? && NextOpening(Ok(s)).Some?
    ensures B.CreateBettingState(NextOpening(Ok(s)).value) == Ok(e.betting.hand)
  {
    hide NextHandSetup, B.CreateBettingState, TurnFor;
  }

  /**
   * The hand a written log has in progress is the outcome of a run of the betting rules from the
   * configuration the table opened it with; and there is one exactly if the log started one last.
   */
  lemma {:induction false} HandIsPlayed(dealers: Dealers, log: seq<TableEvent>)
    requires EventLog.Written(Decide(dealers), log)
    ensures Reduce(log).Ok? && TableOk(Reduce(log).value)
    ensures Reduce(log).value.current.Some? <==> OpeningOf(log).Some?
    ensures Reduce(log).value.current.Some? ==>
      Played(OpeningOf(log).value, Reduce(log).value.current.value.betting.hand)
  {
    hide Decide, Step, DecideOn, TableOk, Played;
    LogsReplay(dealers, log);
    if log == [] {
      assert Reduce(log) == Ok(NO_TABLE);
    } else {
      var front, e := WrittenFront(dealers, log);
      HandIsPlayed(dealers, front);
      var r, now := DecidedOnReduced(dealers, front, e);
      ReduceExtends(front, e);
      HandGoesOn(dealers, front, r, now, e);
    }
  }

  lemma {:induction false} HandGoesOn(dealers: Dealers, front: seq<TableEvent>, r: Request, now: int, e: TableEvent)
    requires Reduce(front).Ok? && DecideOn(dealers, Reduce(front).value, r, now) == Some(e)
    requires Step(Reduce(front).value, e).Ok?
    requires Reduce(front).value.current.Some? <==> OpeningOf(front).Some?
    requires Reduce(front).value.current.Some? ==>
      Played(OpeningOf(front).value, Reduce(front).value.current.value.betting.hand)
    ensures var current := Step(Reduce(front).value, e).value.current;
      && (current.Some? <==> OpeningOf(front + [e]).Some?)
      && (current.Some? ==> Played(OpeningOf(front + [e]).value, current.value.betting.hand))
  {
    hide Step, Played, Reduce, DecideOn, NextOpening, B.Apply, B.CreateBettingState;
    var s := Reduce(front).value;
    assert (front + [e])[..|front + [e]| - 1] == front;
    CurrentAfter(s, e);
    EventKind(dealers, s, r, now, e);
    if MovesBetting(e) {
      var step := BettingMoves(dealers, s, r, now, e);
      PlaysOn(OpeningOf(front).value, s.current.value.betting.hand, step, e.betting.hand);
    } else if e.HandStarted? {
      StartIsDecided(dealers, s, r, now, e);
      StartOpens(s, r.number, r.deckRoot, now, e);
      JustOpened(OpeningOf(front + [e]).value, e.betting.hand);
    }
  }

  lemma {:induction false} JustOpened(c: B.Config, h: B.Hand)
    requires B.CreateBettingState(c) == Ok(h)
    ensures Played(c, h)
  {
    hide B.CreateBettingState;
    assert B.PlayFrom(c, []) == Ok(h);
  }

  // ----- Starting a hand -----

  lemma {:induction false} SeatsFit(seats: seq<Seat>, n: nat)
    requires SeatsOk(seats) && n < |seats|
    ensures seats[n].seat >= n
  {
    if n > 0 {
      SeatsFit(seats, n - 1);
    }
  }

  lemma {:induction false} AtMostNine(seats: seq<Seat>)
    requires SeatsOk(seats)
    ensures |seats| <= 9
  {
    if seats != [] {
      SeatsFit(seats, |seats| - 1);
      assert SeatOk(seats[|seats| - 1]);
    }
  }

  lemma {:induction false} ButtonIsSeated(s: State, setup: Setup)
    requires NextHandSetup(s) == Some(setup)
    ensures |Filter(Eligible, s.seats)| >= 2
    ensures exists p :: p in Filter(Eligible, s.seats) && p.seat == setup.buttonSeat
  {
    hide NextButton, GameOf, Seats.SortBySeat, Filter;
    var players := Filter(Eligible, s.seats);
    var ordered := Seats.SortBySeat(SeatNumber, players);
    OrderedSeats(players);
    var k := IndexWhere((p: Seat) => p.seat == setup.buttonSeat, ordered).value;
    assert ordered[k] in ordered;
  }

  lemma {:induction false} EntrantsAreValid(seats: seq<Seat>, c: B.Config)
    requires SeatsOk(seats) && |seats| >= 2 && c.players == Map(EntrantOf, seats)
    requires forall p :: p in seats ==> p.stack > 0
    requires exists p :: p in seats && p.seat == c.buttonSeat
    requires 0 < c.smallBlind <= c.bigBlind && 0 <= c.ante && c.straddle.None?
    ensures BettingOpening.Accepted(c)
  {
    AtMostNine(seats);
    forall i | 0 <= i < |c.players| ensures 0 <= c.players[i].seat <= 8 && c.players[i].stack > 0 {
      assert seats[i] in seats && SeatOk(seats[i]);
    }
    var p :| p in seats && p.seat == c.buttonSeat;
    var k :| 0 <= k < |seats| && seats[k] == p;
    assert c.players[k].seat == c.buttonSeat;
    BettingOpening.CheckedConfig(c);
  }

  lemma {:induction false} SetupIsAccepted(s: State, setup: Setup)
    requires TableOk(s) && NextHandSetup(s) == Some(setup)
    ensures s.rules.Some? && BettingOpening.Accepted(ConfigOf(s, setup))
  {
    hide NextHandSetup, BettingOpening.Accepted, Filter, PlayOk;
    NextNeedsRules(s);
    SetupIsEligible(s, setup);
    ButtonIsSeated(s, setup);
    FilterOk(Eligible, s.seats);
    EntrantsAreValid(Filter(Eligible, s.seats), ConfigOf(s, setup));
  }

  lemma {:induction false} NextNeedsRules(s: State)
    requires NextHandSetup(s).Some?
    ensures s.rules.Some? && s.status == Waiting
  {
  }

  /** Whenever the next hand has players, it can be started. */
  lemma {:induction false} StartNeverThrows(s: State, setup: Setup, deckRoot: D.Digest, now: int)
    requires TableOk(s) && NextHandSetup(s) == Some(setup)
    ensures DecideStart(s, setup.number, deckRoot, now).Some?
  {
    hide NextHandSetup, BettingOpening.Accepted, B.CreateBettingState, TableOk, HandOk;
    SetupIsAccepted(s, setup);
    var c := ConfigOf(s, setup);
    Stranding.OpeningSucceeds(c);
    OpeningOk(c, B.CreateBettingState(c).value);
    ClockFinds(Timed(B.CreateBettingState(c).value, BanksOf(Participants(s, setup))), s.rules.value.actionClock, now);
  }

  // ----- Finishing the hand of a log -----

  ghost predicate Finished(s: State) {
    Playable(s).Some? && BettingProgress.Terminal(s.current.value.betting.hand)
  }

  /** The hand is over and its pots cannot be built. */
  ghost predicate Stuck(s: State) {
    Finished(s) && Pots.BuildPots(Stranding.HandStakes(s.current.value.betting.hand)).Err?
  }

  /** A hand opened without stranding its pot never gets the table stuck. */
  lemma {:induction false} SafeOpeningNeverSticks(dealers: Dealers, log: seq<TableEvent>)
    requires EventLog.Written(Decide(dealers), log)
    ensures Reduce(log).Ok?
    ensures Finished(Reduce(log).value) ==> OpeningOf(log).Some?
    ensures Finished(Reduce(log).value) && !BettingOpening.StrandsPot(OpeningOf(log).value) ==>
        !Stuck(Reduce(log).value)
  {
    hide Decide, Reduce, OpeningOf, B.PlayFrom, BI.Invariant, Pots.BuildPots, Stranding.HandStakes, TableOk,
         BettingOpening.StrandsPot;
    HandIsPlayed(dealers, log);
    var s := Reduce(log).value;
    if Finished(s) && !BettingOpening.StrandsPot(OpeningOf(log).value) {
      var c, h := OpeningOf(log).value, s.current.value.betting.hand;
      var steps :| B.PlayFrom(c, steps) == Ok(h);
      var f := BettingRuns.ReachableInvariant(c, steps, h);
      Stranding.SafeHandsBuildPots(h, f);
    }
  }

  /**
   * On every log the coordinator can write: once the hand is over and the audit of its deck passes, the
   * hand is settled if and only if its pots can be built; and they can whenever the configuration the
   * log opened the hand with does not strand the pot.
   */
  lemma {:induction false} LogFinishes(dealers: Dealers, log: seq<TableEvent>, record: F.PublicRecord, serverSeed: nat,
                                       seeds: seq<F.Seed>, deck: D.CommittedDeck)
    requires EventLog.Written(Decide(dealers), log) && Reduce(log).Ok? && Finished(Reduce(log).value)
    requires Audited(dealers, Reduce(log).value, record, serverSeed, seeds, deck)
    ensures OpeningOf(log).Some?
    ensures DecideFinish(dealers, Reduce(log).value, record, serverSeed, seeds).Some? <==> !Stuck(Reduce(log).value)
    ensures !BettingOpening.StrandsPot(OpeningOf(log).value) ==>
      DecideFinish(dealers, Reduce(log).value, record, serverSeed, seeds).Some?
  {
    hide Decide, Reduce, OpeningOf, Audited, DecideFinish, TableOk, BettingOpening.StrandsPot;
    LogsReplay(dealers, log);
    FinishesIffPotsBuild(dealers, Reduce(log).value, record, serverSeed, seeds, deck);
    SafeOpeningNeverSticks(dealers, log);
  }

  // ----- A stuck table stays stuck -----

  lemma {:induction false} StuckStays(dealers: Dealers, s: State, r: Request, now: int, e: TableEvent)
    requires TableOk(s) && Stuck(s) && DecideOn(dealers, s, r, now) == Some(e) && !r.CreateTable?
    ensures Step(s, e).Ok? && TableOk(Step(s, e).value)
    ensures Step(s, e).value.current == s.current && Step(s, e).value.status == s.status
    ensures Step(s, e).value.rules == s.rules
  {
    hide Step, TableOk, DecideOn, Finished, B.ApplyAction, B.Apply, Pots.BuildPots;
    DecisionIsGood(dealers, s, r, now, e);
    OnlyPresence(dealers, s, r, now, e);
    PresenceStep(s, e);
  }

  predicate Presence(e: TableEvent) {
    e.PlayerSatOut? || e.PlayerReturned? || e.PlayerLeaving? || e.PlayerLeft?
  }

  /** With its hand over but unsettled, a table only lets players sit out, return and leave. */
  lemma {:induction false} OnlyPresence(dealers: Dealers, s: State, r: Request, now: int, e: TableEvent)
    requires TableOk(s) && Stuck(s) && DecideOn(dealers, s, r, now) == Some(e) && !r.CreateTable?
    ensures Presence(e)
  {
    hide B.ApplyAction, B.ApplyTimeout, B.CreateBettingState, F.VerifyAudit, Dealing.VerifiedCards, TurnFor, HandOk,
         SettlementOf, FinishEvent, DeckCovers, PlanOf, Pots.BuildPots, Stranding.HandStakes, SeatsOk, BoardOk, AllHeld;
    if r.FinishHand? {
      UnbuildableNeverFinishes(dealers, s, r.record, r.serverSeed, r.playerSeeds);
    }
  }

  lemma {:induction false} PresenceStep(s: State, e: TableEvent)
    requires Step(s, e).Ok? && Presence(e)
    ensures Step(s, e).value == s.(seats := Step(s, e).value.seats)
  {
    hide UpdateSeat, Filter, InHand;
  }

  /** Nothing that is written to a stuck table's log ever finishes its hand. */
  lemma {:induction false} StuckForever(dealers: Dealers, log: seq<TableEvent>, longer: seq<TableEvent>)
    requires EventLog.Written(Decide(dealers), longer) && log != [] && log <= longer
    requires Reduce(log).Ok? && Stuck(Reduce(log).value)
    ensures Reduce(longer).Ok? && Stuck(Reduce(longer).value)
    ensures Reduce(longer).value.current == Reduce(log).value.current
    decreases |longer|
  {
    hide Decide, Reduce, DecideOn, Step, Finished, Pots.BuildPots;
    if |longer| == |log| {
      assert longer == log;
    } else {
      var front, e := WrittenFront(dealers, longer);
      assert log <= front;
      StuckForever(dealers, log, front);
      LogsReplay(dealers, front);
      var r, now := DecidedOnReduced(dealers, front, e);
      NotCreated(dealers, front, r, now, e);
      StuckStays(dealers, Reduce(front).value, r, now, e);
      ReduceExtends(front, e);
      SameHandStuck(Reduce(front).value, Step(Reduce(front).value, e).value);
    }
  }

  lemma {:induction false} SameHandStuck(s: State, s': State)
    requires Stuck(s) && s'.current == s.current && s'.status == s.status && s'.rules == s.rules
    ensures Stuck(s')
  {
    hide Pots.BuildPots, Stranding.HandStakes;
  }

  lemma {:induction false} NotCreated(dealers: Dealers, front: seq<TableEvent>, r: Request, now: int, e: TableEvent)
    requires Reduce(front).Ok? && (r.CreateTable? ==> Reduce(front).value == NO_TABLE) && Stuck(Reduce(front).value)
    ensures !r.CreateTable?
  {
  }
}
