/**
 * A player who sits out is dealt no hand before coming back: what sitOut, the end of a hand and the next
 * setup of server/table-coordinator.js make of a seat between them.
 */
module Absences {
  import opened Wrappers
  import opened Seqs
  import opened Tables
  import opened TableSeats
  import opened TableInvariant
  import opened TableFinish
  import opened TableRuns
  import opened TableHands
  import opened HandPayouts
  import B = Betting
  import BI = BettingInvariant
  import BettingRuns
  import D = DeckMerkle
  import EventLog
  import F = Fairness
  import NextHands
  import TurnClock

  // ----- Being away -----

  /** Out between hands, or playing the present hand to its end and out after it. */
  ghost predicate SeatAway(x: Seat, inHand: bool) {
    if inHand then x.sitOutNextHand else x.status == SittingOut || x.status == Busted
  }

  ghost predicate Away(s: State, p: PlayerId) {
    forall x :: x in s.seats && x.playerId == p ==> SeatAway(x, InHand(s.current, p))
  }

  /** The player comes back by returning, or by taking a seat anew. */
  predicate ComesBack(e: TableEvent, p: PlayerId) {
    (e.PlayerReturned? && e.playerId == p) || (e.PlayerSeated? && e.player.playerId == p)
  }

  ghost predicate Plays(players: seq<B.Player>, p: PlayerId) { exists q :: q in players && q.playerId == p }

  ghost predicate DealtTo(e: TableEvent, p: PlayerId) { e.HandStarted? && Plays(e.betting.hand.players, p) }

  // ----- One event -----

  /** A seat that an update of one player's seat leaves behind. */
  lemma {:induction false} Updated(seats: seq<Seat>, id: PlayerId, f: Seat -> Seat, y: Seat) returns (x: Seat)
    requires SeatsOk(seats) && UpdateSeat(seats, id, f).Ok? && y in UpdateSeat(seats, id, f).value
    requires forall z :: f(z).playerId == z.playerId
    ensures x in seats && x.playerId == y.playerId && y == if x.playerId == id then f(x) else x
  {
    var i := IndexOfId(seats, id).value;
    var next := UpdateSeat(seats, id, f).value;
    var j :| 0 <= j < |next| && next[j] == y;
    x := seats[j];
    assert seats[i].playerId == id;
  }

  lemma {:induction false} SatOutIsAway(s: State, p: PlayerId, e: TableEvent)
    requires TableOk(s) && DecidePresence(s, SitOut(p)) == Some(e)
    ensures e == PlayerSatOut(p, s.status == HandActive && InHand(s.current, p))
    ensures Step(s, e).Ok? && Away(Step(s, e).value, p)
  {
    hide PlayOk, InHand;
    var f := (x: Seat) => WithSatOut(x, e.afterHand);
    var s' := Step(s, e).value;
    forall y | y in s'.seats && y.playerId == p ensures SeatAway(y, InHand(s'.current, p)) {
      var x := Updated(s.seats, p, f, y);
      OnlyInHand(s, p);
    }
  }

  lemma {:induction false} OnlyInHand(s: State, p: PlayerId)
    requires TableOk(s)
    ensures InHand(s.current, p) ==> s.status == HandActive
  {
  }

  lemma {:induction false} PresenceStays(dealers: Dealers, s: State, r: Request, now: int, e: TableEvent, p: PlayerId)
    requires TableOk(s) && Away(s, p) && (r.SitOut? || r.ReturnPlayer? || r.Leave?)
    requires DecidePresence(s, r) == Some(e) && !ComesBack(e, p) && Step(s, e).Ok?
    ensures Away(Step(s, e).value, p)
  {
    hide PlayOk, InHand;
    var s' := Step(s, e).value;
    forall y | y in s'.seats && y.playerId == p ensures SeatAway(y, InHand(s'.current, p)) {
      match e {
        case PlayerSatOut(id, afterHand) =>
          var x := Updated(s.seats, id, (z: Seat) => WithSatOut(z, afterHand), y);
          OnlyInHand(s, p);
        case PlayerReturned(id) =>
          var playing := InHand(s.current, id);
          var x := Updated(s.seats, id, (z: Seat) => WithReturned(z, playing), y);
        case PlayerLeaving(id) =>
          var x := Updated(s.seats, id, (z: Seat) => z.(leaving := true), y);
        case PlayerLeft(id) =>
      }
    }
  }

  /** Nobody who is away is dealt the next hand. */
  lemma {:induction false} AwayIsNotDealt(s: State, p: PlayerId, number: nat, root: D.Digest, now: int, e: TableEvent)
    requires TableOk(s) && Away(s, p) && DecideStart(s, number, root, now) == Some(e)
    ensures e.HandStarted? && !DealtTo(e, p) && s.current.None?
  {
    hide DecideStart, PlayOk, Filter;
    SoundSeats(s);
    StartSeatsEligible(s, number, root, now, e);
    NextHands.StartTerms(s, number, root, now, e);
    var players, eligible := e.betting.hand.players, Filter(Eligible, s.seats);
    forall q | q in players ensures q.playerId != p {
      var k :| 0 <= k < |players| && players[k] == q;
      assert eligible[k] in eligible;
      assert eligible[k] in s.seats;
    }
  }

  lemma {:induction false} StartStaysAway(s: State, e: TableEvent, p: PlayerId)
    requires e.HandStarted? && !DealtTo(e, p) && Away(s, p) && s.current.None? && Step(s, e).Ok?
    ensures Away(Step(s, e).value, p)
  {
    var s' := Step(s, e).value;
    forall y | y in s'.seats && y.playerId == p ensures SeatAway(y, InHand(s'.current, p)) {
      var j :| 0 <= j < |s'.seats| && s'.seats[j] == y;
      assert s.seats[j] in s.seats;
    }
  }

  lemma {:induction false} BanksAside(seats: seq<Seat>, players: seq<B.Player>, banks: seq<int>)
    requires SetBanks(seats, players, banks).Ok?
    ensures var next := SetBanks(seats, players, banks).value;
      |next| == |seats| && forall j :: 0 <= j < |seats| ==> TurnClock.BankAside(seats[j], next[j])
    decreases |players|
  {
    if players != [] && banks != [] {
      var next := UpdateSeat(seats, players[0].playerId, (s: Seat) => s.(timeBank := banks[0])).value;
      BanksAside(next, players[1..], banks[1..]);
    }
  }

  lemma {:induction false} BettingStays(s: State, e: TableEvent, p: PlayerId)
    requires MovesBetting(e) && Away(s, p) && Step(s, e).Ok? && s.current.Some?
    requires Plays(e.betting.hand.players, p) <==> InHand(s.current, p)
    ensures Away(Step(s, e).value, p)
  {
    hide SetBanks;
    BanksAside(s.seats, e.betting.hand.players, e.betting.banks);
    var s' := Step(s, e).value;
    assert InHand(s'.current, p) == InHand(s.current, p);
    forall y | y in s'.seats && y.playerId == p ensures SeatAway(y, InHand(s'.current, p)) {
      var j :| 0 <= j < |s'.seats| && s'.seats[j] == y;
      assert s.seats[j] in s.seats && TurnClock.BankAside(s.seats[j], y);
    }
  }

  lemma {:induction false} SamePlayers(h: B.Hand, step: B.Step, h': B.Hand, p: PlayerId)
    requires B.Apply(h, step) == Ok(h')
    ensures Plays(h'.players, p) <==> Plays(h.players, p)
  {
    hide B.Apply;
    BettingRuns.StepSameHand(h, step, h');
    if Plays(h'.players, p) {
      var q :| q in h'.players && q.playerId == p;
      var j :| 0 <= j < |h'.players| && h'.players[j] == q;
      assert h.players[j] in h.players;
    }
    if Plays(h.players, p) {
      var q :| q in h.players && q.playerId == p;
      var j :| 0 <= j < |h.players| && h.players[j] == q;
      assert h'.players[j] in h'.players;
    }
  }

  lemma {:induction false} MoveStaysAway(dealers: Dealers, s: State, r: Request, now: int, e: TableEvent, p: PlayerId)
    requires Away(s, p) && DecideOn(dealers, s, r, now) == Some(e) && MovesBetting(e) && Step(s, e).Ok?
    ensures Away(Step(s, e).value, p)
  {
    hide Away, Step, DecideOn, B.Apply;
    var step := BettingMoves(dealers, s, r, now, e);
    SamePlayers(s.current.value.betting.hand, step, e.betting.hand, p);
    InHandPlays(s, p);
    BettingStays(s, e, p);
  }

  lemma {:induction false} InHandPlays(s: State, p: PlayerId)
    requires s.current.Some?
    ensures InHand(s.current, p) <==> Plays(s.current.value.betting.hand.players, p)
  {
  }

  lemma {:induction false} FinishStays(s: State, e: TableEvent, p: PlayerId)
    requires e.HandFinished? && TableOk(s) && Away(s, p) && s.current.Some? && Step(s, e).Ok?
    requires OncePerPlayer(e.stacks)
    requires forall id :: Unlisted(e.stacks, id) <==> !InHand(s.current, id)
    ensures Away(Step(s, e).value, p)
  {
    hide PlayOk, SettleSeats, Filter, InHand, SeatsOk;
    SoundSeats(s);
    SeatsDiffer(s.seats);
    SettlesEach(s.seats, e.stacks);
    var settled := SettleSeats(s.seats, e.stacks).value;
    NoHandNow(p);
    forall y | y in Filter(Staying, settled) && y.playerId == p ensures SeatAway(y, false) {
      var j :| 0 <= j < |settled| && settled[j] == y;
      assert s.seats[j] in s.seats;
      SameSeats(s.seats, settled, e.stacks);
      if !Unlisted(e.stacks, p) {
        var k :| 0 <= k < |e.stacks| && e.stacks[k].playerId == p;
        assert Listed(e.stacks, p, e.stacks[k].stack);
      }
    }
  }

  lemma {:induction false} NoHandNow(p: PlayerId)
    ensures !InHand(None, p)
  {
  }

  lemma {:induction false} SeatsDiffer(seats: seq<Seat>)
    requires SeatsOk(seats)
    ensures SeatIds(seats)
  {
  }

  /** The settlement lists the players of the hand, each once. */
  lemma {:induction false} FinishLists(dealers: Dealers, s: State, record: F.PublicRecord, serverSeed: nat,
      seeds: seq<F.Seed>, e: TableEvent)
    requires TableOk(s) && DecideFinish(dealers, s, record, serverSeed, seeds) == Some(e)
    ensures e.HandFinished? && s.current.Some? && OncePerPlayer(e.stacks)
    ensures forall id :: Unlisted(e.stacks, id) <==> !InHand(s.current, id)
  {
    hide DecideFinish, SeatsOk, BoardOk, AllHeld, Audited, AllBring;
    var deck := FinishIsAudited(dealers, s, record, serverSeed, seeds);
    AuditedCurrent(dealers, s, record, serverSeed, seeds, deck);
    var players, rankings, o := FinishPaysByTheRules(dealers, s, record, serverSeed, seeds, deck, e);
    var ps := s.current.value.betting.hand.players;
    HandPlayersDiffer(s);
    forall id ensures Unlisted(e.stacks, id) <==> !InHand(s.current, id) {
      if q :| q in ps && q.playerId == id {
        var j :| 0 <= j < |ps| && ps[j] == q;
        assert e.stacks[j].playerId == id;
      }
    }
  }

  lemma {:induction false} AuditedCurrent(dealers: Dealers, s: State, record: F.PublicRecord, serverSeed: nat,
      seeds: seq<F.Seed>, deck: D.CommittedDeck)
    requires Audited(dealers, s, record, serverSeed, seeds, deck)
    ensures s.current.Some? && s.rules.Some?
  {
  }

  lemma {:induction false} HandPlayersDiffer(s: State)
    requires TableOk(s) && s.current.Some?
    ensures DistinctPlayers(s.current.value.betting.hand.players)
  {
    var f :| BI.Invariant(s.current.value.betting.hand, f);
  }

  lemma {:induction false} ArrivalStays(s: State, id: PlayerId, seat: int, buyIn: int, e: TableEvent, p: PlayerId)
    requires TableOk(s) && Away(s, p) && DecideSeat(s, id, seat, buyIn) == Some(e) && !ComesBack(e, p)
    ensures Step(s, e).Ok? && Away(Step(s, e).value, p)
  {
    hide PlayOk, SeatsOk, InHand;
    OrderedSeats(s.seats + [e.player]);
    forall y | y in Step(s, e).value.seats && y.playerId == p ensures SeatAway(y, InHand(s.current, p)) {
      assert y in s.seats + [e.player];
    }
  }

  lemma {:induction false} StaysAway(dealers: Dealers, s: State, r: Request, now: int, e: TableEvent, p: PlayerId)
    requires TableOk(s) && Away(s, p) && DecideOn(dealers, s, r, now) == Some(e) && !ComesBack(e, p)
    requires Step(s, e).Ok? && (r.CreateTable? ==> s == NO_TABLE)
    ensures Away(Step(s, e).value, p) && !DealtTo(e, p)
  {
    hide TableOk, Away, Step, DecideStart, DecideSeat, DecidePresence, DecideFinish, DecideAct, DecideTimeout,
      DecideStreet,
         DecideRunout, Plays;
    EventKind(dealers, s, r, now, e);
    match r {
      case CreateTable(rules) => CreatedAway(rules, p);
      case SeatPlayer(id, seat, buyIn) => ArrivalStays(s, id, seat, buyIn, e, p);
      case StartHand(number, root) =>
        AwayIsNotDealt(s, p, number, root, now, e);
        StartStaysAway(s, e, p);
      case FinishHand(record, serverSeed, seeds) =>
        FinishLists(dealers, s, record, serverSeed, seeds, e);
        FinishStays(s, e, p);
      case SitOut(_) => PresenceStays(dealers, s, r, now, e, p);
      case ReturnPlayer(_) => PresenceStays(dealers, s, r, now, e, p);
      case Leave(_) => PresenceStays(dealers, s, r, now, e, p);
      case _ => MoveStaysAway(dealers, s, r, now, e, p);
    }
  }

  lemma {:induction false} CreatedAway(rules: TableRules, p: PlayerId)
    ensures Step(NO_TABLE, TableCreated(rules)).Ok? && Away(Step(NO_TABLE, TableCreated(rules)).value, p)
  {
  }

  // ----- Whole logs -----

  lemma {:induction false} AwayFrom(dealers: Dealers, log: seq<TableEvent>, k: nat, m: nat, p: PlayerId)
    requires EventLog.Written(Decide(dealers), log) && k < m <= |log| && log[k].PlayerSatOut? && log[k].playerId == p
    requires forall i :: k < i < m ==> !ComesBack(log[i], p)
    ensures Reduce(log[..m]).Ok? && TableOk(Reduce(log[..m]).value) && Away(Reduce(log[..m]).value, p)
    decreases m
  {
    hide Decide, Reduce, Step, DecideOn, TableOk, Away;
    LogPrefix(dealers, log, m);
    LogPrefix(dealers, log, m - 1);
    assert EventLog.Decided(Decide(dealers), log[..m - 1], log[m - 1]);
    var r, now := DecidedOnReduced(dealers, log[..m - 1], log[m - 1]);
    assert log[..m] == log[..m - 1] + [log[m - 1]];
    ReduceExtends(log[..m - 1], log[m - 1]);
    var s := Reduce(log[..m - 1]).value;
    if k == m - 1 {
      SitOutRequested(dealers, s, r, now, log[k]);
      SatOutIsAway(s, p, log[k]);
    } else {
      AwayFrom(dealers, log, k, m - 1, p);
      StaysAway(dealers, s, r, now, log[m - 1], p);
    }
  }

  lemma {:induction false} SitOutRequested(dealers: Dealers, s: State, r: Request, now: int, e: TableEvent)
    requires DecideOn(dealers, s, r, now) == Some(e) && e.PlayerSatOut?
    ensures r == SitOut(e.playerId) && DecidePresence(s, r) == Some(e)
  {
    hide B.ApplyAction, B.ApplyTimeout, B.DealStreet, B.DealRemainingBoard, B.CreateBettingState, TurnFor, SettlementOf,
         PlanOf, DeckCovers, Consumed, Emptied, NextHandSetup, InHand;
  }

  /**
   * On every log the coordinator can write, no hand started after a player sat out is dealt to that
   * player until the player returns or takes a seat again.
   */
  lemma {:induction false} SittingOutKeepsOut(dealers: Dealers, log: seq<TableEvent>, k: nat, m: nat, p: PlayerId)
    requires EventLog.Written(Decide(dealers), log) && k < m < |log| && log[k].PlayerSatOut? && log[k].playerId == p
    requires forall i :: k < i < m ==> !ComesBack(log[i], p)
    ensures !DealtTo(log[m], p)
  {
    hide Decide, Reduce, Step, DecideOn, TableOk, Away;
    AwayFrom(dealers, log, k, m, p);
    assert EventLog.Decided(Decide(dealers), log[..m], log[m]);
    var r, now := DecidedOnReduced(dealers, log[..m], log[m]);
    var s := Reduce(log[..m]).value;
    if log[m].HandStarted? {
      NextHands.StartRequested(dealers, s, r, now, log[m]);
      AwayIsNotDealt(s, p, r.number, r.deckRoot, now, log[m]);
    }
  }
}
