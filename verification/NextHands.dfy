/**
 * Setting up the next hand: where the button goes, hand after hand, which game is played and on what
 * terms the betting is opened (nextHandSetup and startHand of server/table-coordinator.js).
 */
module NextHands {
  import opened Wrappers
  import opened Seqs
  import opened Games
  import opened Seats
  import opened Tables
  import opened TableSeats
  import opened TableInvariant
  import opened TableRuns
  import B = Betting
  import BettingRuns
  import D = DeckMerkle
  import EventLog
  import Numbers

  // ----- Where the button goes -----

  /** The seats of the players of the next hand, lowest first. */
  function EligibleSeats(s: State): (seats: seq<int>) { Map(SeatNumber, Filter(Eligible, s.seats)) }

  ghost predicate Rising(seats: seq<int>) {
    && (forall i, j :: 0 <= i < j < |seats| ==> seats[i] < seats[j])
    && forall i :: 0 <= i < |seats| ==> 0 <= seats[i] <= 8
  }

  lemma {:induction false} EligibleSeatsRise(s: State)
    requires SeatsOk(s.seats)
    ensures Rising(EligibleSeats(s)) && SeatsOk(Filter(Eligible, s.seats))
  {
    FilterOk(Eligible, s.seats);
    var players := Filter(Eligible, s.seats);
    forall i | 0 <= i < |players| ensures SeatOk(players[i]) {
    }
  }

  /** So many places further round a table of that size. */
  function Turned(k: nat, places: nat, size: nat): nat
    requires k < size && places <= size
  {
    if k + places < size then k + places else k + places - size
  }

  /** The index of the next button among the seats: one further, round the table, or the first. */
  function NextIndex(seats: seq<int>, button: Option<int>): (k: nat)
    requires seats != []
    ensures k < |seats|
  {
    match button
    case None => 0
    case Some(b) =>
      match IndexWhere((x: int) => x == b, seats)
      case None => 0
      case Some(k) => Turned(k, 1, |seats|)
  }

  lemma {:induction false} ButtonIndex(s: State, setup: Setup)
    requires SeatsOk(s.seats) && NextHandSetup(s) == Some(setup)
    ensures var seats, k := EligibleSeats(s), setup.fairness.buttonSeat;
      && |seats| >= 2 && 0 <= k < |seats| && setup.fairness.seats == |seats|
      && k == NextIndex(seats, s.buttonSeat) && setup.buttonSeat == seats[k]
  {
    hide Filter, GameOf, SortBySeat, Clockwise;
    var players := Filter(Eligible, s.seats);
    EligibleSeatsRise(s);
    SortedStays(players);
    NextButtonIs(players, s.buttonSeat);
    FoundAt(players, NextIndex(EligibleSeats(s), s.buttonSeat));
  }

  lemma {:induction false} FoundAt(players: seq<Seat>, k: nat)
    requires SeatsOk(players) && k < |players|
    ensures IndexWhere((p: Seat) => p.seat == players[k].seat, players) == Some(k)
  {
    assert players[k] in players;
  }

  lemma {:induction false} NextButtonIs(players: seq<Seat>, button: Option<int>)
    requires SeatsOk(players) && players != [] && SortBySeat(SeatNumber, players) == players
    ensures NextButton(players, button) == players[NextIndex(Map(SeatNumber, players), button)].seat
  {
    hide SortBySeat, Clockwise;
    var seats := Map(SeatNumber, players);
    if button.Some? {
      match IndexWhere((x: int) => x == button.value, seats) {
        case None =>
          forall p | p in players ensures p.seat != button.value {
            var i :| 0 <= i < |players| && players[i] == p;
            assert seats[i] in seats;
          }
        case Some(k) =>
          assert players[k] in players;
          AfterButton(players, k);
      }
    }
  }

  lemma {:induction false} AfterButton(players: seq<Seat>, k: nat)
    requires SeatsOk(players) && k < |players|
    ensures Clockwise(SeatNumber, players, players[k].seat) != []
    ensures Clockwise(SeatNumber, players, players[k].seat)[0] == players[Turned(k, 1, |players|)]
  {
    hide Clockwise;
    var b := players[k].seat;
    var around := Clockwise(SeatNumber, players, b);
    SeatRange(players);
    ClockwiseKeepsMembers(SeatNumber, players, b);
    ClockwiseByDistance(SeatNumber, players, b);
    var next := players[Turned(k, 1, |players|)];
    assert around[0] in around && next in players;
    var j :| 0 <= j < |players| && players[j] == around[0];
    var m :| 0 <= m < |around| && around[m] == next;
    assert Distance(b, around[0].seat) <= Distance(b, next.seat);
    NearestIsNext(players, k, j);
  }

  lemma {:induction false} SeatRange(players: seq<Seat>)
    requires SeatsOk(players)
    ensures forall p :: p in players ==> 0 <= SeatNumber(p) <= 8
  {
    forall p | p in players ensures 0 <= SeatNumber(p) <= 8 {
      var i :| 0 <= i < |players| && players[i] == p;
      assert SeatOk(players[i]);
    }
  }

  /** Nobody else is as near clockwise as the next in seat order. */
  lemma {:induction false} NearestIsNext(players: seq<Seat>, k: nat, j: nat)
    requires SeatsOk(players) && k < |players| && j < |players|
    requires Distance(players[k].seat, players[j].seat)
        <= Distance(players[k].seat, players[Turned(k, 1, |players|)].seat)
    ensures j == Turned(k, 1, |players|)
  {
    assert SeatOk(players[k]) && SeatOk(players[j]) && SeatOk(players[Turned(k, 1, |players|)]);
    assert SeatOk(players[0]);
  }

  /** A player of the next hand sits there. */
  ghost predicate EligibleAt(s: State, seat: int) {
    exists p :: p in s.seats && Eligible(p) && p.seat == seat
  }

  function EligibleBelow(seat: int): Seat -> bool { (p: Seat) => Eligible(p) && p.seat < seat }

  lemma {:induction false} EligibleListed(s: State, seat: int)
    ensures EligibleAt(s, seat) <==> seat in EligibleSeats(s)
  {
    var players := Filter(Eligible, s.seats);
    if EligibleAt(s, seat) {
      var p :| p in s.seats && Eligible(p) && p.seat == seat;
      assert p in players;
      var i :| 0 <= i < |players| && players[i] == p;
      assert EligibleSeats(s)[i] == seat;
    }
    if seat in EligibleSeats(s) {
      var i :| 0 <= i < |players| && EligibleSeats(s)[i] == seat;
      assert players[i] in players;
    }
  }

  lemma {:induction false} ClosestAfter(seats: seq<int>, k: nat, other: nat)
    requires Rising(seats) && k < |seats| && other < |seats| && other != k
    ensures Turned(k, 1, |seats|) != k
    ensures Distance(seats[k], seats[Turned(k, 1, |seats|)]) <= Distance(seats[k], seats[other])
  {
  }

  /** On the seats alone: the next one differs from the old and is closest to it, or is the lowest. */
  lemma {:induction false} NextIsClosest(seats: seq<int>, button: Option<int>)
    requires Rising(seats) && |seats| >= 2
    ensures var next := seats[NextIndex(seats, button)];
      && (button.Some? && button.value in seats ==>
            && next != button.value
            && forall seat :: seat in seats && seat != button.value ==>
                 Distance(button.value, next) <= Distance(button.value, seat))
      && (button.None? || button.value !in seats ==> forall seat :: seat in seats ==> next <= seat)
  {
    hide Distance;
    if button.Some? && button.value in seats {
      var b := IndexWhere((x: int) => x == button.value, seats).value;
      forall seat | seat in seats && seat != button.value
        ensures Distance(button.value, seats[NextIndex(seats, button)]) <= Distance(button.value, seat)
      {
        var j :| 0 <= j < |seats| && seats[j] == seat;
        ClosestAfter(seats, b, j);
      }
      ClosestAfter(seats, b, if b == 0 then 1 else 0);
    }
  }

  /**
   * The button goes to the next player of the hand clockwise of the seat that had it; if nobody there
   * plays on, or there was no hand yet, to the lowest seat.
   */
  lemma {:induction false} ButtonMoves(s: State, setup: Setup)
    requires SeatsOk(s.seats) && NextHandSetup(s) == Some(setup)
    ensures EligibleAt(s, setup.buttonSeat)
    ensures s.buttonSeat.Some? && EligibleAt(s, s.buttonSeat.value) ==>
      && setup.buttonSeat != s.buttonSeat.value
      && forall seat :: EligibleAt(s, seat) && seat != s.buttonSeat.value ==>
           Distance(s.buttonSeat.value, setup.buttonSeat) <= Distance(s.buttonSeat.value, seat)
    ensures s.buttonSeat.None? || !EligibleAt(s, s.buttonSeat.value) ==>
      forall seat :: EligibleAt(s, seat) ==> setup.buttonSeat <= seat
    ensures setup.fairness.buttonSeat == Count(EligibleBelow(setup.buttonSeat), s.seats)
  {
    hide NextHandSetup, EligibleAt, Distance, Filter, NextIndex, Rising, SeatsOk;
    var seats, k := EligibleSeats(s), setup.fairness.buttonSeat;
    EligibleSeatsRise(s);
    ButtonIndex(s, setup);
    forall seat ensures EligibleAt(s, seat) <==> seat in seats {
      EligibleListed(s, seat);
    }
    NextIsClosest(seats, s.buttonSeat);
    LowerSeats(s.seats, seats[k], k);
  }

  lemma {:induction false} LowerSeats(all: seq<Seat>, seat: int, k: nat)
    requires SeatsOk(all) && k < |Filter(Eligible, all)| && Filter(Eligible, all)[k].seat == seat
    ensures Count(EligibleBelow(seat), all) == k
  {
    hide Eligible;
    var rest := Filter(Eligible, all[1..]);
    assert SeatsOk(all[1..]);
    if !Eligible(all[0]) {
      assert Filter(Eligible, all) == [] + rest == rest;
      LowerSeats(all[1..], seat, k);
    } else if k == 0 {
      NoneLower(all, seat);
    } else {
      assert Filter(Eligible, all) == [all[0]] + rest;
      assert rest[k - 1] in rest;
      HigherLater(all, rest[k - 1]);
      LowerSeats(all[1..], seat, k - 1);
    }
  }

  lemma {:induction false} HigherLater(all: seq<Seat>, p: Seat)
    requires SeatsOk(all) && all != [] && p in all[1..]
    ensures all[0].seat < p.seat
  {
    var i :| 0 <= i < |all[1..]| && all[1..][i] == p;
    assert all[i + 1] == p;
  }

  lemma {:induction false} NoneLower(all: seq<Seat>, seat: int)
    requires SeatsOk(all) && forall i :: 0 <= i < |all| ==> all[i].seat >= seat
    ensures Count(EligibleBelow(seat), all) == 0
  {
    if all != [] {
      NoneLower(all[1..], seat);
    }
  }

  // ----- The terms of the hand -----

  /**
   * A started hand is opened with the table's own blinds and ante and no straddle, on the button the
   * setup names, with the game that is due, each player bringing the chips and the time bank at the seat.
   */
  lemma {:induction false} StartTerms(s: State, number: nat, root: D.Digest, now: int, e: TableEvent)
    requires DecideStart(s, number, root, now) == Some(e)
    ensures e.HandStarted? && s.rules.Some? && s.status == Waiting && NextHandSetup(s).Some?
    ensures var setup, h := NextHandSetup(s).value, e.betting.hand;
      && e.number == setup.number == s.handNumber + 1 && e.deckRoot == root
      && e.buttonSeat == h.buttonSeat == setup.buttonSeat && e.fairness == setup.fairness
      && h.game == e.fairness.game == GameOf(s.rules.value, e.number) && h.handId == e.number
      && h.smallBlind == s.rules.value.smallBlind && h.bigBlind == s.rules.value.bigBlind
      && h.ante == s.rules.value.ante && h.straddle.None?
  {
    hide NextButton, Filter, SortBySeat, B.CreateBettingState, TurnFor, Participants;
    var setup := NextHandSetup(s).value;
    OpenedTerms(ConfigOf(s, setup), e.betting.hand);
  }

  lemma {:induction false} OpenedTerms(c: B.Config, h: B.Hand)
    requires B.CreateBettingState(c) == Ok(h)
    ensures h.smallBlind == c.smallBlind && h.bigBlind == c.bigBlind && h.ante == c.ante
    ensures h.handId == c.handId && h.game == c.game && h.buttonSeat == c.buttonSeat && h.straddle == c.straddle
  {
    hide B.FirstActor, B.CheckConfig, B.CheckStraddle, B.AfterBlinds, B.AfterStraddle, B.FinishOrAdvance;
    if B.FirstActor(B.Opened(c)).None? {
      BettingRuns.FinishSameHand(B.Opened(c), B.Opened(c).bigBlindSeat, h);
    }
  }

  /**
   * A table of one game always plays it; a table of both plays hold'em first and changes the game after
   * every so many hands.
   */
  lemma {:induction false} GamesAlternate(rules: TableRules, number: nat)
    requires ValidRules(rules) && number >= 1
    ensures rules.choice.Always? ==> GameOf(rules, number) == rules.choice.game
    ensures rules.choice.RoundOfEach? && number <= rules.handsPerGame ==> GameOf(rules, number) == NLH
    ensures rules.choice.RoundOfEach? ==> GameOf(rules, number + rules.handsPerGame) != GameOf(rules, number)
  {
    if rules.choice.RoundOfEach? {
      NextQuotient(number - 1, rules.handsPerGame);
      if number <= rules.handsPerGame {
        assert (number - 1) / rules.handsPerGame == 0;
      }
    }
  }

  lemma {:induction false} NextQuotient(n: nat, k: nat)
    requires k >= 1
    ensures (n + k) / k == n / k + 1
  {
    var q := n / k;
    Numbers.Distribute(q, 1, k);
    Numbers.QuotientIs(n + k, k, q + 1);
  }

  // ----- The button goes round -----

  /** Hands started one after the other, with the same seats playing in each. */
  ghost predicate Rounds(log: seq<TableEvent>, at: seq<nat>, seats: seq<int>) {
    && (forall i :: 0 <= i < |at| ==> at[i] < |log| && log[at[i]].HandStarted?)
    && (forall i :: 0 <= i < |at| ==> Reduce(log[..at[i]]).Ok? && EligibleSeats(Reduce(log[..at[i]]).value) == seats)
    && (forall i :: 0 <= i < |at| - 1 ==> at[i] < at[i + 1])
    && forall i, k :: 0 <= i < |at| - 1 && at[i] < k < at[i + 1] ==> !log[k].HandStarted?
  }

  lemma {:induction false} ButtonAfter(s: State, e: TableEvent)
    requires Step(s, e).Ok?
    ensures Step(s, e).value.buttonSeat == if e.HandStarted? then Some(e.buttonSeat) else s.buttonSeat
  {
    hide SetBanks, UpdateSeat, SettleSeats, MarkPlaying, Filter, SortBySeat;
  }

  /** Between two hands the button stays where the first had it. */
  lemma {:induction false} ButtonStays(dealers: Dealers, log: seq<TableEvent>, first: nat, end: nat)
    requires EventLog.Written(Decide(dealers), log) && first < end <= |log| && log[first].HandStarted?
    requires forall k :: first < k < end ==> !log[k].HandStarted?
    ensures Reduce(log[..end]).Ok? && Reduce(log[..end]).value.buttonSeat == Some(log[first].buttonSeat)
    decreases end
  {
    hide Decide, Reduce, Step;
    LogPrefix(dealers, log, end);
    LogsReplay(dealers, log[..end]);
    LogPrefix(dealers, log, end - 1);
    LogsReplay(dealers, log[..end - 1]);
    assert log[..end] == log[..end - 1] + [log[end - 1]];
    ReduceExtends(log[..end - 1], log[end - 1]);
    ButtonAfter(Reduce(log[..end - 1]).value, log[end - 1]);
    if first < end - 1 {
      ButtonStays(dealers, log, first, end - 1);
    }
  }

  lemma {:induction false} StartedAt(dealers: Dealers, log: seq<TableEvent>, k: nat)
    requires EventLog.Written(Decide(dealers), log) && k < |log| && log[k].HandStarted?
    ensures Reduce(log[..k]).Ok? && TableOk(Reduce(log[..k]).value)
    ensures var s := Reduce(log[..k]).value; var seats := EligibleSeats(s);
      && |seats| >= 2 && log[k].buttonSeat == seats[NextIndex(seats, s.buttonSeat)]
  {
    hide Decide, Reduce, DecideOn, DecideStart, NextHandSetup, TableOk, NextIndex, EligibleSeats;
    LogPrefix(dealers, log, k);
    LogsReplay(dealers, log[..k]);
    assert EventLog.Decided(Decide(dealers), log[..k], log[k]);
    var r, now := DecidedOnReduced(dealers, log[..k], log[k]);
    var s := Reduce(log[..k]).value;
    StartRequested(dealers, s, r, now, log[k]);
    StartTerms(s, r.number, r.deckRoot, now, log[k]);
    SoundSeats(s);
    ButtonIndex(s, NextHandSetup(s).value);
  }

  lemma {:induction false} StartRequested(dealers: Dealers, s: State, r: Request, now: int, e: TableEvent)
    requires DecideOn(dealers, s, r, now) == Some(e) && e.HandStarted?
    ensures r.StartHand? && DecideStart(s, r.number, r.deckRoot, now) == Some(e)
  {
    hide DecideStart, B.ApplyAction, B.ApplyTimeout, B.DealStreet, B.DealRemainingBoard, TurnFor, SettlementOf, PlanOf,
         DeckCovers, Consumed, Emptied;
  }

  lemma {:induction false} IndexOfRising(seats: seq<int>, k: nat)
    requires Rising(seats) && k < |seats|
    ensures IndexWhere((x: int) => x == seats[k], seats) == Some(k)
  {
    assert seats[k] in seats;
  }

  /** The i-th hand of a round has its button i seats further. */
  lemma {:induction false} ButtonAt(dealers: Dealers, log: seq<TableEvent>, at: seq<nat>, seats: seq<int>, i: nat)
    returns (first: nat)
    requires EventLog.Written(Decide(dealers), log) && Rounds(log, at, seats) && i < |at| == |seats|
    ensures first < |seats| && Rising(seats)
    ensures log[at[0]].buttonSeat == seats[first] && log[at[i]].buttonSeat == seats[Turned(first, i, |seats|)]
    decreases i
  {
    hide Decide, Reduce, EligibleSeats, Rising;
    var s := SeatsAt(dealers, log, at, seats, i);
    if i == 0 {
      first := NextIndex(seats, s.buttonSeat);
    } else {
      first := ButtonAt(dealers, log, at, seats, i - 1);
      ButtonStays(dealers, log, at[i - 1], at[i]);
      IndexOfRising(seats, Turned(first, i - 1, |seats|));
    }
  }

  lemma {:induction false} SeatsAt(dealers: Dealers, log: seq<TableEvent>, at: seq<nat>, seats: seq<int>, i: nat)
    returns (s: State)
    requires EventLog.Written(Decide(dealers), log) && Rounds(log, at, seats) && i < |at|
    ensures Reduce(log[..at[i]]) == Ok(s) && Rising(seats) && |seats| >= 2
    ensures log[at[i]].buttonSeat == seats[NextIndex(seats, s.buttonSeat)]
  {
    hide Decide, Reduce, EligibleSeats, Rising, NextIndex;
    StartedAt(dealers, log, at[i]);
    s := Reduce(log[..at[i]]).value;
    SoundSeats(s);
    EligibleSeatsRise(s);
  }

  /** In as many hands in a row as there are players, with the same players, everybody has the button once. */
  lemma {:induction false} ButtonGoesRound(dealers: Dealers, log: seq<TableEvent>, at: seq<nat>, seats: seq<int>)
    requires EventLog.Written(Decide(dealers), log) && Rounds(log, at, seats) && |at| == |seats|
    ensures forall i, j :: 0 <= i < j < |at| ==> log[at[i]].buttonSeat != log[at[j]].buttonSeat
    ensures forall seat :: seat in seats ==> exists i :: 0 <= i < |at| && log[at[i]].buttonSeat == seat
  {
    hide Decide, Reduce, EligibleSeats;
    forall i, j | 0 <= i < j < |at| ensures log[at[i]].buttonSeat != log[at[j]].buttonSeat {
      var first := ButtonAt(dealers, log, at, seats, i);
      var first' := ButtonAt(dealers, log, at, seats, j);
      SameStart(seats, first, first');
    }
    forall seat | seat in seats ensures exists i :: 0 <= i < |at| && log[at[i]].buttonSeat == seat {
      var k :| 0 <= k < |seats| && seats[k] == seat;
      var first := ButtonAt(dealers, log, at, seats, 0);
      var i := if first <= k then k - first else k + |seats| - first;
      var first' := ButtonAt(dealers, log, at, seats, i);
      SameStart(seats, first, first');
      assert Turned(first, i, |seats|) == k;
    }
  }

  lemma {:induction false} SameStart(seats: seq<int>, a: nat, b: nat)
    requires Rising(seats) && a < |seats| && b < |seats| && seats[a] == seats[b]
    ensures a == b
  {
  }
}
