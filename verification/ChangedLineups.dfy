/**
 * A hand is prepared on its own log while the table still takes players. The table starts it with
 * whatever lineup it has by then; if that is another one, the rules under the deck's root are not the
 * table's, and the hand is never settled.
 */
module ChangedLineups {
  import opened Wrappers
  import opened Seqs
  import opened Tables
  import opened TableInvariant
  import opened TableRuns
  import opened TableHands
  import B = Betting
  import BettingOpening
  import D = DeckMerkle
  import Dealing
  import EventLog
  import F = Fairness
  import Seats

  // ----- Exactly the unchanged lineups are settled -----

  /**
   * Once a hand opened without stranding its pot is over, the dealer's own audit settles it if and only
   * if the rules the deck was committed for are those the table started the hand with.
   */
  lemma {:induction false} SettlesIffSameRules(dealers: Dealers, table: seq<TableEvent>, rules: F.Rules,
      beacon: F.Beacon, players: seq<F.Seed>, serverSeed: nat, kept: F.CommittedHand)
    requires EventLog.Written(Decide(dealers), table) && Reduce(table).Ok? && Finished(Reduce(table).value)
    requires OpeningOf(table).Some? && !BettingOpening.StrandsPot(OpeningOf(table).value)
    requires var current := Reduce(table).value.current.value;
      F.CreateCommittedHand(dealers(current.number), rules, beacon, players, serverSeed) == Ok(kept)
      && kept.record.deckRoot == current.deckRoot
    ensures DecideFinish(dealers, Reduce(table).value, kept.record, kept.serverSeed, kept.playerSeeds).Some?
      <==> rules == Reduce(table).value.current.value.fairness
  {
    hide Decide, Reduce, OpeningOf, TableOk, BettingOpening.StrandsPot, DecideFinish;
    var s := Reduce(table).value;
    var dealer := dealers(s.current.value.number);
    F.AuditAcceptsHonestHands(dealer, rules, beacon, players, serverSeed);
    RecordsRules(dealer, rules, beacon, players, serverSeed, kept);
    if rules == s.current.value.fairness {
      LogFinishes(dealers, table, kept.record, kept.serverSeed, kept.playerSeeds, kept.deck);
    } else {
      OtherRulesRefused(dealers, s, kept.record, kept.serverSeed, kept.playerSeeds);
    }
  }

  lemma {:induction false} RecordsRules(dealer: F.Dealer, rules: F.Rules, beacon: F.Beacon, players: seq<F.Seed>,
      serverSeed: nat, kept: F.CommittedHand)
    requires F.CreateCommittedHand(dealer, rules, beacon, players, serverSeed) == Ok(kept)
    ensures kept.record.rules == rules
  {
  }

  lemma {:induction false} OtherRulesRefused(dealers: Dealers, s: State, record: F.PublicRecord, serverSeed: nat,
      seeds: seq<F.Seed>)
    requires s.current.Some? && record.rules != s.current.value.fairness
    ensures DecideFinish(dealers, s, record, serverSeed, seeds).None?
  {
    hide F.VerifyAudit, PlanOf, DeckCovers, SettlementOf, Dealing.CommittedBoard;
  }

  // ----- A hand of other rules stays forever -----

  /** Only hands of these rules deal a deck with that root. */
  ghost predicate RootOfRules(dealer: F.Dealer, root: D.Digest, rules: F.Rules) {
    forall record: F.PublicRecord, serverSeed: nat, seeds: seq<F.Seed> ::
      F.VerifyAudit(dealer, record, serverSeed, seeds).Some? && record.deckRoot == root ==> record.rules == rules
  }

  /** With dealers that deal apart, the root of a committed hand names the rules it was committed for. */
  lemma {:induction false} RootNamesRules(dealer: F.Dealer, rules: F.Rules, beacon: F.Beacon, players: seq<F.Seed>,
      serverSeed: nat, kept: F.CommittedHand)
    requires F.DealsApart(dealer) && F.CreateCommittedHand(dealer, rules, beacon, players, serverSeed) == Ok(kept)
    ensures RootOfRules(dealer, kept.record.deckRoot, rules)
  {
    forall record: F.PublicRecord, server: nat, seeds: seq<F.Seed>
      | F.VerifyAudit(dealer, record, server, seeds).Some? && record.deckRoot == kept.record.deckRoot
      ensures record.rules == rules
    {
      var deal := dealer(F.DeriveHandSeed(rules, serverSeed, beacon, kept.playerSeeds).value);
      var deal' := dealer(F.DeriveHandSeed(record.rulesHash, server, record.beacon, seeds).value);
      D.RootDeterminesDeck(deal.order, deal.nonces, deal'.order, deal'.nonces);
    }
  }

  /** The hand at the table has a deck that was committed for other rules. */
  ghost predicate Mismatched(dealers: Dealers, s: State, number: nat, root: D.Digest, fairness: F.Rules) {
    && s.current.Some? && s.current.value.number == number && s.current.value.deckRoot == root
    && s.current.value.fairness == fairness
    && exists rules :: rules != fairness && RootOfRules(dealers(number), root, rules)
  }

  lemma {:induction false} NeverFinished(dealers: Dealers, s: State, number: nat, root: D.Digest, fairness: F.Rules,
      record: F.PublicRecord, serverSeed: nat, seeds: seq<F.Seed>)
    requires Mismatched(dealers, s, number, root, fairness)
    ensures DecideFinish(dealers, s, record, serverSeed, seeds).None?
  {
    hide F.VerifyAudit, PlanOf, DeckCovers, SettlementOf, Dealing.CommittedBoard, RootOfRules;
    var rules :| rules != fairness && RootOfRules(dealers(number), root, rules);
    AuditsAgree(dealers(number), root, rules, record, serverSeed, seeds);
  }

  lemma {:induction false} AuditsAgree(dealer: F.Dealer, root: D.Digest, rules: F.Rules, record: F.PublicRecord,
      serverSeed: nat, seeds: seq<F.Seed>)
    requires RootOfRules(dealer, root, rules)
    ensures F.VerifyAudit(dealer, record, serverSeed, seeds).Some? && record.deckRoot == root ==> record.rules == rules
  {
    hide F.VerifyAudit;
  }

  lemma {:induction false} NotStarted(s: State, number: nat, root: D.Digest, now: int)
    requires TableOk(s) && s.current.Some?
    ensures DecideStart(s, number, root, now).None?
  {
    hide B.CreateBettingState, ConfigOf;
  }

  /** A betting event keeps number, rules and root of the hand. */
  lemma {:induction false} TermsKept(s: State, e: TableEvent)
    requires Step(s, e).Ok? && MovesBetting(e) && s.current.Some?
    ensures Step(s, e).value.current.Some?
    ensures var current, current' := s.current.value, Step(s, e).value.current.value;
      current'.number == current.number && current'.fairness == current.fairness
      && current'.deckRoot == current.deckRoot
  {
    hide SetBanks;
  }

  lemma {:induction false} MismatchStays(dealers: Dealers, s: State, number: nat, root: D.Digest, fairness: F.Rules,
      r: Request, now: int, e: TableEvent)
    requires TableOk(s) && Mismatched(dealers, s, number, root, fairness)
    requires DecideOn(dealers, s, r, now) == Some(e) && Step(s, e).Ok?
    ensures Mismatched(dealers, Step(s, e).value, number, root, fairness)
  {
    hide Step, TableOk, RootOfRules;
    EventKind(dealers, s, r, now, e);
    CurrentAfter(s, e);
    if MovesBetting(e) {
      TermsKept(s, e);
    } else if r.StartHand? {
      NotStarted(s, r.number, r.deckRoot, now);
    } else if r.FinishHand? {
      NeverFinished(dealers, s, number, root, fairness, r.record, r.serverSeed, r.playerSeeds);
    }
  }

  /** Whatever is requested, in any number and order, the table never leaves such a hand. */
  lemma {:induction false} MismatchedForever(dealers: Dealers, log: seq<TableEvent>, longer: seq<TableEvent>,
      number: nat, root: D.Digest, fairness: F.Rules)
    requires EventLog.Written(Decide(dealers), longer) && log <= longer
    requires Reduce(log).Ok? && Mismatched(dealers, Reduce(log).value, number, root, fairness)
    ensures Reduce(longer).Ok? && Mismatched(dealers, Reduce(longer).value, number, root, fairness)
    decreases |longer|
  {
    hide Decide, Reduce, DecideOn, Step, RootOfRules;
    if |longer| == |log| {
      assert longer == log;
    } else {
      var front, e := WrittenFront(dealers, longer);
      assert log <= front;
      MismatchedForever(dealers, log, front, number, root, fairness);
      LogsReplay(dealers, front);
      LogsReplay(dealers, longer);
      var r, now := DecidedOnReduced(dealers, front, e);
      ReduceExtends(front, e);
      MismatchStays(dealers, Reduce(front).value, number, root, fairness, r, now, e);
    }
  }

  // ----- Any arrival between preparation and start does it -----

  lemma {:induction false} CountInsert<T(!new)>(p: T -> bool, seat: T -> int, x: T, sorted: seq<T>)
    ensures Count(p, Seats.InsertBySeat(seat, x, sorted)) == Count(p, sorted) + if p(x) then 1 else 0
  {
    if sorted != [] && seat(x) >= seat(sorted[0]) {
      CountInsert(p, seat, x, sorted[1..]);
      var rest := Seats.InsertBySeat(seat, x, sorted[1..]);
      assert ([sorted[0]] + rest)[1..] == rest;
    } else {
      assert ([x] + sorted)[1..] == sorted;
    }
  }

  lemma {:induction false} CountSorted<T(!new)>(p: T -> bool, seat: T -> int, xs: seq<T>)
    ensures Count(p, Seats.SortBySeat(seat, xs)) == Count(p, xs)
  {
    if xs != [] {
      CountSorted(p, seat, xs[1..]);
      CountInsert(p, seat, xs[0], Seats.SortBySeat(seat, xs[1..]));
    }
  }

  lemma {:induction false} CountAppended<T(!new)>(p: T -> bool, xs: seq<T>, x: T)
    ensures Count(p, xs + [x]) == Count(p, xs) + if p(x) then 1 else 0
  {
    if xs == [] {
      assert [x][1..] == [];
      assert [] + [x] == [x];
    } else {
      CountAppended(p, xs[1..], x);
      assert (xs + [x])[1..] == xs[1..] + [x];
    }
  }

  /** The next button is one of the players. */
  lemma {:induction false} ButtonIsPlayer(players: seq<Seat>, button: Option<int>)
    requires players != []
    ensures exists p :: p in players && p.seat == NextButton(players, button)
  {
    OrderedSeats(players);
    var ordered := Seats.SortBySeat(SeatNumber, players);
    if button.None? || forall p :: p in players ==> p.seat != button.value {
      assert ordered[0] in ordered;
    } else {
      Seats.ClockwiseKeepsMembers(SeatNumber, players, button.value);
      var turned := Seats.Clockwise(SeatNumber, players, button.value);
      assert turned[0] in turned;
    }
  }

  /** A waiting table with two eligible players has a next hand. */
  lemma {:induction false} SetupExists(s: State)
    requires s.status == Waiting && s.rules.Some? && |Filter(Eligible, s.seats)| >= 2
    ensures NextHandSetup(s).Some?
  {
    hide NextButton, GameOf, Seats.SortBySeat, Filter;
    var players := Filter(Eligible, s.seats);
    OrderedSeats(players);
    ButtonIsPlayer(players, s.buttonSeat);
    var p :| p in players && p.seat == NextButton(players, s.buttonSeat);
    assert p in Seats.SortBySeat(SeatNumber, players);
  }

  /** The next hand keeps its number and gets another player, and with it other rules. */
  lemma {:induction false} ArrivalChangesRules(s: State, setup: Setup, playerId: PlayerId, seat: int, buyIn: int,
      e: TableEvent)
    requires TableOk(s) && NextHandSetup(s) == Some(setup) && DecideSeat(s, playerId, seat, buyIn) == Some(e)
    ensures Step(s, e).Ok? && TableOk(Step(s, e).value)
    ensures NextHandSetup(Step(s, e).value).Some?
    ensures var setup' := NextHandSetup(Step(s, e).value).value;
      setup'.number == setup.number && setup'.fairness.seats == setup.fairness.seats + 1
  {
    hide NextHandSetup, Filter, PlayOk;
    SeatOkStep(s, playerId, seat, buyIn, e);
    var s' := Step(s, e).value;
    NextNeedsRules(s);
    ButtonIsSeated(s, setup);
    CountSorted(Eligible, SeatNumber, s.seats + [e.player]);
    CountAppended(Eligible, s.seats, e.player);
    SetupExists(s');
    SetupIsEligible(s, setup);
    SetupIsEligible(s', NextHandSetup(s').value);
  }

  lemma {:induction false} StartSetsTerms(s: State, setup: Setup, root: D.Digest, now: int, e: TableEvent)
    requires NextHandSetup(s) == Some(setup) && DecideStart(s, setup.number, root, now) == Some(e)
    ensures Step(s, e).Ok? && Step(s, e).value.current.Some?
    ensures var current := Step(s, e).value.current.value;
      current.number == setup.number && current.deckRoot == root && current.fairness == setup.fairness
  {
    hide NextHandSetup, B.CreateBettingState, TurnFor, MarkPlaying;
  }

  /**
   * From any waiting table whose next hand has been prepared: if one more player sits down before the
   * hand is started on its deck, the start is accepted all the same, and the table never leaves that
   * hand again.
   */
  lemma {:induction false} ArrivalSticksTheTable(dealers: Dealers, log: seq<TableEvent>, setup: Setup,
      playerId: PlayerId, seat: int, buyIn: int, root: D.Digest) returns (started: seq<TableEvent>)
    requires EventLog.Written(Decide(dealers), log) && Reduce(log).Ok?
        && NextHandSetup(Reduce(log).value) == Some(setup)
    requires DecideSeat(Reduce(log).value, playerId, seat, buyIn).Some?
    requires RootOfRules(dealers(setup.number), root, setup.fairness)
    ensures EventLog.Written(Decide(dealers), started) && log <= started && |started| == |log| + 2
    ensures started[|log|].PlayerSeated? && started[|log| + 1].HandStarted?
    ensures forall longer: seq<TableEvent> :: EventLog.Written(Decide(dealers), longer) && started <= longer ==>
      Reduce(longer).Ok? && Reduce(longer).value.current.Some?
      && Reduce(longer).value.current.value.number == setup.number
  {
    hide Decide, Reduce, Step, DecideOn, NextHandSetup, DecideStart, TableOk, RootOfRules;
    LogsReplay(dealers, log);
    var s := Reduce(log).value;
    var seated := DecideSeat(s, playerId, seat, buyIn).value;
    ArrivalChangesRules(s, setup, playerId, seat, buyIn, seated);
    SeatDecided(dealers, s, playerId, seat, buyIn);
    Extends(dealers, log, SeatPlayer(playerId, seat, buyIn), 0, seated);
    var s' := Step(s, seated).value;
    var setup' := NextHandSetup(s').value;
    StartNeverThrows(s', setup', root, 0);
    var e := DecideStart(s', setup.number, root, 0).value;
    StartDecided(dealers, s', setup.number, root, 0);
    StartSetsTerms(s', setup', root, 0, e);
    Extends(dealers, log + [seated], StartHand(setup.number, root), 0, e);
    started := log + [seated] + [e];
    assert Mismatched(dealers, Reduce(started).value, setup.number, root, setup'.fairness);
    StartIsHand(s', setup.number, root, 0, e);
    forall longer: seq<TableEvent> | EventLog.Written(Decide(dealers), longer) && started <= longer
      ensures Reduce(longer).Ok? && Reduce(longer).value.current.Some?
      ensures Reduce(longer).value.current.value.number == setup.number
    {
      MismatchedForever(dealers, started, longer, setup.number, root, setup'.fairness);
    }
  }

  lemma {:induction false} SeatDecided(dealers: Dealers, s: State, playerId: PlayerId, seat: int, buyIn: int)
    requires DecideSeat(s, playerId, seat, buyIn).Some?
    ensures DecideOn(dealers, s, SeatPlayer(playerId, seat, buyIn), 0) == DecideSeat(s, playerId, seat, buyIn)
    ensures DecideSeat(s, playerId, seat, buyIn).value.PlayerSeated?
  {
  }

  lemma {:induction false} StartDecided(dealers: Dealers, s: State, number: nat, root: D.Digest, now: int)
    ensures DecideOn(dealers, s, StartHand(number, root), now) == DecideStart(s, number, root, now)
  {
    hide DecideStart;
  }

  lemma {:induction false} StartIsHand(s: State, number: nat, root: D.Digest, now: int, e: TableEvent)
    requires DecideStart(s, number, root, now) == Some(e)
    ensures e.HandStarted?
  {
    hide NextHandSetup, B.CreateBettingState, TurnFor;
  }
}
