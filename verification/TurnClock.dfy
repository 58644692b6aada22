/**
 * The clock at the table: what a turn's deadline is, what a late move costs, and that nobody's time bank
 * ever grows (turnFor and consumeTimeBank of server/table-coordinator.js).
 */
module TurnClock {
  import opened Wrappers
  import opened Seqs
  import opened Tables
  import opened TableSeats
  import opened TableInvariant
  import opened TableRuns
  import opened TableHands
  import B = Betting
  import BI = BettingInvariant
  import D = DeckMerkle
  import Dealing
  import EventLog
  import Seats

  /** The time bank of the player with this index. */
  function BankAt(t: Timed, i: nat): int { if i < |t.banks| then t.banks[i] else 0 }

  /** The turn belongs to the player and ends a time bank after the action clock. */
  ghost predicate TimedTurn(t: Timed, turn: Turn, clock: int) {
    && turn.baseDeadline == turn.startedAt + clock
    && exists i :: 0 <= i < |t.hand.players| && t.hand.players[i].playerId == turn.playerId
                   && turn.deadline == turn.baseDeadline + BankAt(t, i)
  }

  ghost predicate BanksWithin(banks: seq<int>, most: int) {
    forall i :: 0 <= i < |banks| ==> 0 <= banks[i] <= most
  }

  ghost predicate SeatBanksWithin(seats: seq<Seat>, most: int) {
    forall i :: 0 <= i < |seats| ==> 0 <= seats[i].timeBank <= most
  }

  /** Time banks lie between nothing and the table's allowance, and the turn is timed by the actor's. */
  ghost predicate Clocked(s: State) {
    s.rules.Some? ==>
      && SeatBanksWithin(s.seats, s.rules.value.timeBank)
      && (s.current.Some? ==>
            && BanksWithin(s.current.value.betting.banks, s.rules.value.timeBank)
            && (s.current.value.turn.Some? ==>
                  TimedTurn(s.current.value.betting, s.current.value.turn.value, s.rules.value.actionClock)))
  }

  // ----- Turns -----

  /** A new turn starts now and is timed. */
  lemma {:induction false} NewTurn(t: Timed, clock: int, now: int, turn: Option<Turn>)
    requires TurnFor(t, clock, now) == Ok(turn)
    ensures turn.Some? ==> turn.value.startedAt == now && TimedTurn(t, turn.value, clock)
    ensures turn.Some? ==> t.hand.status == B.Betting && t.hand.actionSeat.Some?
  {
    if turn.Some? {
      var i := B.IndexOfSeat(t.hand.players, t.hand.actionSeat.value).value;
      assert turn.value.deadline == turn.value.baseDeadline + BankAt(t, i);
    }
  }

  /** How long past the base deadline a move comes. */
  function Lateness(turn: Turn, now: int): int { if now > turn.baseDeadline then now - turn.baseDeadline else 0 }

  lemma {:induction false} ActorIndex(t: Timed, turn: Turn, clock: int) returns (i: nat)
    requires TimedTurn(t, turn, clock) && DistinctPlayers(t.hand.players)
    ensures i < |t.hand.players| && t.hand.players[i].playerId == turn.playerId
    ensures B.IndexOfPlayer(t.hand.players, turn.playerId) == Some(i)
    ensures turn.deadline == turn.baseDeadline + BankAt(t, i)
  {
    i :| 0 <= i < |t.hand.players| && t.hand.players[i].playerId == turn.playerId
         && turn.deadline == turn.baseDeadline + BankAt(t, i);
    assert t.hand.players[i] in t.hand.players;
  }

  /**
   * A move in time costs its player exactly the time it was late, which the bank covers, and nobody else
   * anything; the next turn starts at once.
   */
  lemma {:induction false} MoveCosts(s: State, playerId: PlayerId, move: B.Move, version: nat, now: int, e: TableEvent)
    returns (i: nat)
    requires TableOk(s) && Clocked(s) && DecideAct(s, playerId, move, version, now) == Some(e)
    ensures s.current.Some? && s.current.value.turn.Some? && s.rules.Some? && e.ActionApplied?
    ensures var t, turn := s.current.value.betting, s.current.value.turn.value;
      && turn.playerId == playerId && now <= turn.deadline
      && i < |t.banks| == |t.hand.players| && t.hand.players[i].playerId == playerId
      && e.betting.banks == t.banks[i := t.banks[i] - Lateness(turn, now)]
      && 0 <= t.banks[i] - Lateness(turn, now) <= t.banks[i]
    ensures e.turn.Some? ==>
      e.turn.value.startedAt == now && TimedTurn(e.betting, e.turn.value, s.rules.value.actionClock)
  {
    hide B.ApplyAction, TurnFor, SeatsOk, AllHeld, BI.Invariant, ValidRules, BoardOk, SeatBanksWithin;
    var t, turn := s.current.value.betting, s.current.value.turn.value;
    PlayersDiffer(s);
    i := ActorIndex(t, turn, s.rules.value.actionClock);
    NewTurn(e.betting, s.rules.value.actionClock, now, e.turn);
  }

  /**
   * A move is taken exactly from the player on turn, for the betting version on the table, no later than
   * the deadline and with a 64-bit target if any, and if the betting rules accept it; the betting then is
   * theirs, and the clock refuses nobody.
   */
  lemma {:induction false} MoveIsTaken(s: State, playerId: PlayerId, move: B.Move, version: nat, now: int)
    requires TableOk(s) && s.current.Some? && s.status == HandActive
    ensures var hand, action := s.current.value, B.Action(playerId, version, move);
      DecideAct(s, playerId, move, version, now).Some?
      <==> && hand.turn.Some? && hand.turn.value.playerId == playerId && hand.betting.hand.version == version
           && now <= hand.turn.value.deadline && ValidTarget(move)
           && B.ApplyAction(hand.betting.hand, action).Ok?
    ensures DecideAct(s, playerId, move, version, now).Some? ==>
      var hand, e := s.current.value, DecideAct(s, playerId, move, version, now).value;
      e.ActionApplied? && B.ApplyAction(hand.betting.hand, B.Action(playerId, version, move)) == Ok(e.betting.hand)
  {
    hide B.ApplyAction, TurnFor, SeatsOk, AllHeld, BI.Invariant, ValidRules, BoardOk, ValidTarget;
    var hand, action := s.current.value, B.Action(playerId, version, move);
    if hand.turn.Some? && B.ApplyAction(hand.betting.hand, action).Ok? {
      var charged := Consumed(hand.betting, hand.turn.value, now);
      var next := B.ApplyAction(hand.betting.hand, action).value;
      assert B.Apply(hand.betting.hand, B.Act(action)) == Ok(next);
      StepOk(hand.betting.hand, B.Act(action), next);
      ClockFinds(charged.(hand := next), s.rules.value.actionClock, now);
    }
  }

  lemma {:induction false} PlayersDiffer(s: State)
    requires TableOk(s) && s.current.Some?
    ensures DistinctPlayers(s.current.value.betting.hand.players)
    ensures |s.current.value.betting.banks| == |s.current.value.betting.hand.players|
  {
    var f :| BI.Invariant(s.current.value.betting.hand, f);
  }

  /** A timeout is accepted from the deadline on, and leaves its player's bank empty. */
  lemma {:induction false} TimeoutCosts(s: State, version: nat, now: int, e: TableEvent) returns (i: nat)
    requires TableOk(s) && Clocked(s) && DecideTimeout(s, version, now) == Some(e)
    ensures s.current.Some? && s.current.value.turn.Some? && s.rules.Some? && e.ActionTimedOut?
    ensures var t, turn := s.current.value.betting, s.current.value.turn.value;
      && turn.deadline <= now
      && i < |t.banks| == |t.hand.players| && t.hand.players[i].playerId == turn.playerId
      && e.betting.banks == t.banks[i := 0]
    ensures e.turn.Some? ==>
      e.turn.value.startedAt == now && TimedTurn(e.betting, e.turn.value, s.rules.value.actionClock)
  {
    hide B.ApplyTimeout, TurnFor, SeatsOk, AllHeld, BI.Invariant, ValidRules, BoardOk, SeatBanksWithin;
    var t, turn := s.current.value.betting, s.current.value.turn.value;
    PlayersDiffer(s);
    i := ActorIndex(t, turn, s.rules.value.actionClock);
    NewTurn(e.betting, s.rules.value.actionClock, now, e.turn);
  }

  /** Dealing costs nobody time. */
  lemma {:induction false} DealingCostsNothing(s: State, r: Request, now: int, e: TableEvent)
    requires r.DealStreet? || r.DealRunout?
    requires match r
      case DealStreet(street, shown) => DecideStreet(s, street, shown, now) == Some(e)
      case DealRunout(shown) => DecideRunout(s, shown) == Some(e)
      case _ => false
    ensures s.current.Some? && s.rules.Some? && (if r.DealStreet? then e.StreetDealt? else e.RunoutDealt?)
    ensures e.betting.banks == s.current.value.betting.banks
    ensures e.StreetDealt? && e.turn.Some? ==>
      e.turn.value.startedAt == now && TimedTurn(e.betting, e.turn.value, s.rules.value.actionClock)
  {
    hide B.DealStreet, B.DealRemainingBoard, TurnFor, Dealing.VerifiedCards, PlanOf, Dealing.BoardPositions, TimedTurn;
    if r.DealStreet? {
      NewTurn(e.betting, s.rules.value.actionClock, now, e.turn);
    }
  }

  // ----- Every written log -----

  /** What a betting event brings: banks within the allowance, and a timed turn. */
  ghost predicate Brings(s: State, t: Timed, turn: Option<Turn>) {
    && s.rules.Some?
    && BanksWithin(t.banks, s.rules.value.timeBank)
    && (turn.Some? ==> TimedTurn(t, turn.value, s.rules.value.actionClock))
  }

  lemma {:induction false} SetBanksWithin(seats: seq<Seat>, players: seq<B.Player>, banks: seq<int>, most: int)
    requires SeatBanksWithin(seats, most) && BanksWithin(banks, most) && SetBanks(seats, players, banks).Ok?
    ensures SeatBanksWithin(SetBanks(seats, players, banks).value, most)
    decreases |players|
  {
    if players != [] && banks != [] {
      var next := UpdateSeat(seats, players[0].playerId, (s: Seat) => s.(timeBank := banks[0])).value;
      forall i | 0 <= i < |banks[1..]| ensures 0 <= banks[1..][i] <= most {
        assert banks[1..][i] == banks[i + 1];
      }
      SetBanksWithin(next, players[1..], banks[1..], most);
    }
  }

  /** Only the time bank of a seat is set anew. */
  predicate BankAside(x: Seat, y: Seat) { y == x.(timeBank := y.timeBank) }

  /** The seat of the k-th player holds the k-th bank. */
  ghost predicate HoldsBank(players: seq<B.Player>, banks: seq<int>, x: Seat) {
    forall k :: 0 <= k < |players| && k < |banks| && players[k].playerId == x.playerId ==> x.timeBank == banks[k]
  }

  ghost predicate NotAmong(players: seq<B.Player>, x: Seat) {
    forall k :: 0 <= k < |players| ==> players[k].playerId != x.playerId
  }

  lemma {:induction false} BanksSet(seats: seq<Seat>, players: seq<B.Player>, banks: seq<int>)
    requires SetBanks(seats, players, banks).Ok? && DistinctPlayers(players) && |players| == |banks|
    requires forall i, j :: 0 <= i < j < |seats| ==> seats[i].playerId != seats[j].playerId
    ensures var next := SetBanks(seats, players, banks).value;
      |next| == |seats| && forall j :: 0 <= j < |seats| ==>
        && BankAside(seats[j], next[j]) && HoldsBank(players, banks, next[j])
        && (NotAmong(players, seats[j]) ==> next[j] == seats[j])
    decreases |players|
  {
    if players != [] {
      var next := UpdateSeat(seats, players[0].playerId, (s: Seat) => s.(timeBank := banks[0])).value;
      BanksSet(next, players[1..], banks[1..]);
      var after := SetBanks(seats, players, banks).value;
      forall j | 0 <= j < |seats|
        ensures HoldsBank(players, banks, after[j]) && (NotAmong(players, seats[j]) ==> after[j] == seats[j])
      {
        FirstBank(players, banks, seats[j], next[j], after[j]);
      }
    }
  }

  lemma {:induction false} FirstBank(players: seq<B.Player>, banks: seq<int>, x: Seat, y: Seat, z: Seat)
    requires players != [] && |players| == |banks| && DistinctPlayers(players)
    requires y == if x.playerId == players[0].playerId then x.(timeBank := banks[0]) else x
    requires BankAside(y, z) && HoldsBank(players[1..], banks[1..], z) && (NotAmong(players[1..], y) ==> z == y)
    ensures BankAside(x, z) && HoldsBank(players, banks, z) && (NotAmong(players, x) ==> z == x)
  {
    forall k | 0 <= k < |players| && players[k].playerId == z.playerId ensures z.timeBank == banks[k] {
      if k > 0 {
        assert players[1..][k - 1] == players[k] && banks[1..][k - 1] == banks[k];
      } else {
        forall m | 0 <= m < |players[1..]| ensures players[1..][m].playerId != y.playerId {
          assert players[1..][m] == players[m + 1];
        }
      }
    }
    if NotAmong(players, x) {
      assert NotAmong(players[1..], y);
    }
  }

  /** After every step of a hand each of its players' seats holds the player's bank; bystanders' stay. */
  lemma {:induction false} SeatsTakeBanks(s: State, e: TableEvent, x: Seat)
    requires TableOk(s) && MovesBetting(e) && Step(s, e).Ok? && TableOk(Step(s, e).value) && x in s.seats
    ensures exists y ::
      && y in Step(s, e).value.seats && BankAside(x, y)
      && HoldsBank(e.betting.hand.players, e.betting.banks, y)
      && (NotAmong(e.betting.hand.players, x) ==> y == x)
  {
    hide SetBanks, PlayOk, HoldsBank, NotAmong;
    PlayersDiffer(Step(s, e).value);
    BanksSet(s.seats, e.betting.hand.players, e.betting.banks);
    var after := SetBanks(s.seats, e.betting.hand.players, e.betting.banks).value;
    var j :| 0 <= j < |s.seats| && s.seats[j] == x;
    assert after[j] in Step(s, e).value.seats;
  }

  lemma {:induction false} BettingClocked(s: State, shown: seq<D.Reveal>, t: Timed, turn: Option<Turn>)
    requires Clocked(s) && s.current.Some? && Brings(s, t, turn) && StepBetting(s, shown, t, turn).Ok?
    ensures Clocked(StepBetting(s, shown, t, turn).value)
  {
    hide SetBanks, TimedTurn;
    SetBanksWithin(s.seats, t.hand.players, t.banks, s.rules.value.timeBank);
  }

  /** Seats that come from other seats, with the bank they had. */
  ghost predicate KeepsBanks(seats: seq<Seat>, seats': seq<Seat>) {
    forall x :: x in seats' ==> exists y :: y in seats && y.timeBank == x.timeBank
  }

  lemma {:induction false} KeptWithin(seats: seq<Seat>, seats': seq<Seat>, most: int)
    requires SeatBanksWithin(seats, most) && KeepsBanks(seats, seats')
    ensures SeatBanksWithin(seats', most)
  {
    forall i | 0 <= i < |seats'| ensures 0 <= seats'[i].timeBank <= most {
      assert seats'[i] in seats';
      var y :| y in seats && y.timeBank == seats'[i].timeBank;
      var j :| 0 <= j < |seats| && seats[j] == y;
    }
  }

  lemma {:induction false} UpdateKeeps(seats: seq<Seat>, playerId: PlayerId, f: Seat -> Seat)
    requires UpdateSeat(seats, playerId, f).Ok? && forall x :: f(x).timeBank == x.timeBank
    ensures KeepsBanks(seats, UpdateSeat(seats, playerId, f).value)
  {
    var i := IndexOfId(seats, playerId).value;
    var next := UpdateSeat(seats, playerId, f).value;
    forall x | x in next ensures exists y :: y in seats && y.timeBank == x.timeBank {
      var j :| 0 <= j < |next| && next[j] == x;
      assert seats[j] in seats && seats[j].timeBank == x.timeBank;
    }
  }

  lemma {:induction false} KeepsTrans(a: seq<Seat>, b: seq<Seat>, c: seq<Seat>)
    requires KeepsBanks(a, b) && KeepsBanks(b, c)
    ensures KeepsBanks(a, c)
  {
    forall x | x in c ensures exists y :: y in a && y.timeBank == x.timeBank {
      var y :| y in b && y.timeBank == x.timeBank;
    }
  }

  lemma {:induction false} KeepsSelf(seats: seq<Seat>)
    ensures KeepsBanks(seats, seats)
  {
    forall x | x in seats ensures exists y :: y in seats && y.timeBank == x.timeBank {
      assert x in seats && x.timeBank == x.timeBank;
    }
  }

  lemma {:induction false} SettleKeeps(seats: seq<Seat>, stacks: seq<StackUpdate>)
    requires SettleSeats(seats, stacks).Ok?
    ensures KeepsBanks(seats, SettleSeats(seats, stacks).value)
    decreases |stacks|
  {
    KeepsSelf(seats);
    if stacks != [] {
      var f := (s: Seat) => WithSettled(s, stacks[0].stack);
      UpdateKeeps(seats, stacks[0].playerId, f);
      var next := UpdateSeat(seats, stacks[0].playerId, f).value;
      SettleKeeps(next, stacks[1..]);
      KeepsTrans(seats, next, SettleSeats(next, stacks[1..]).value);
    }
  }

  lemma {:induction false} FilterKeeps(keep: Seat -> bool, seats: seq<Seat>)
    ensures KeepsBanks(seats, Filter(keep, seats))
  {
    forall x | x in Filter(keep, seats) ensures exists y :: y in seats && y.timeBank == x.timeBank {
      assert x in seats;
    }
  }

  /** An event that starts no hand and moves no betting leaves every remaining seat its time bank. */
  lemma {:induction false} SeatsKeepBanks(s: State, e: TableEvent)
    requires Step(s, e).Ok? && !MovesBetting(e) && !e.HandStarted? && !e.PlayerSeated? && !e.TableCreated?
    ensures KeepsBanks(s.seats, Step(s, e).value.seats) && Step(s, e).value.rules == s.rules
    ensures Step(s, e).value.current.Some? ==> Step(s, e).value.current == s.current
  {
    hide Filter, SettleSeats, UpdateSeat, InHand;
    KeepsSelf(s.seats);
    match e
    case PlayerSatOut(id, afterHand) => UpdateKeeps(s.seats, id, (x: Seat) => WithSatOut(x, afterHand));
    case PlayerReturned(id) =>
      var playing := InHand(s.current, id);
      UpdateKeeps(s.seats, id, (x: Seat) => WithReturned(x, playing));
    case PlayerLeaving(id) => UpdateKeeps(s.seats, id, (x: Seat) => x.(leaving := true));
    case PlayerLeft(id) => FilterKeeps(Others(id), s.seats);
    case HandFinished(rake, stacks) =>
      SettleKeeps(s.seats, stacks);
      var settled := SettleSeats(s.seats, stacks).value;
      FilterKeeps(Staying, settled);
      KeepsTrans(s.seats, settled, Filter(Staying, settled));
    case _ =>
  }

  lemma {:induction false} OthersClocked(s: State, e: TableEvent)
    requires Clocked(s) && Step(s, e).Ok? && !MovesBetting(e) && !e.HandStarted? && !e.PlayerSeated?
      && !e.TableCreated?
    ensures Clocked(Step(s, e).value)
  {
    hide Step, KeepsBanks, TimedTurn, BanksWithin, SeatBanksWithin;
    SeatsKeepBanks(s, e);
    if s.rules.Some? {
      KeptWithin(s.seats, Step(s, e).value.seats, s.rules.value.timeBank);
    }
  }

  lemma {:induction false} ArrivalClocked(s: State, playerId: PlayerId, seat: int, buyIn: int, e: TableEvent)
    requires TableOk(s) && Clocked(s) && DecideSeat(s, playerId, seat, buyIn) == Some(e)
    ensures Step(s, e).Ok? && Clocked(Step(s, e).value)
  {
    hide DecideSeat, TableOk, TimedTurn, BanksWithin, SeatBanksWithin;
    ArrivalBrings(s, playerId, seat, buyIn, e);
    SortedWithin(s.seats + [e.player], s.rules.value.timeBank);
  }

  lemma {:induction false} ArrivalBrings(s: State, playerId: PlayerId, seat: int, buyIn: int, e: TableEvent)
    requires TableOk(s) && Clocked(s) && DecideSeat(s, playerId, seat, buyIn) == Some(e)
    ensures e.PlayerSeated? && s.rules.Some? && SeatBanksWithin(s.seats + [e.player], s.rules.value.timeBank)
  {
    hide TimedTurn, BanksWithin, SeatsOk, PlayOk;
  }

  lemma {:induction false} SortedWithin(all: seq<Seat>, most: int)
    requires SeatBanksWithin(all, most)
    ensures SeatBanksWithin(Seats.SortBySeat(SeatNumber, all), most)
  {
    var sorted := Seats.SortBySeat(SeatNumber, all);
    OrderedSeats(all);
    forall x | x in sorted ensures exists y :: y in all && y.timeBank == x.timeBank {
      assert x in all;
    }
    KeptWithin(all, sorted, most);
  }

  lemma {:induction false} StartClocked(s: State, number: nat, root: D.Digest, now: int, e: TableEvent)
    requires TableOk(s) && Clocked(s) && DecideStart(s, number, root, now) == Some(e)
    ensures Step(s, e).Ok? && Clocked(Step(s, e).value)
  {
    hide NextHandSetup, B.CreateBettingState, TurnFor, Filter, SeatsOk, PlayOk, TimedTurn;
    SoundSeats(s);
    StartSeatsEligible(s, number, root, now, e);
    NewTurn(e.betting, s.rules.value.actionClock, now, e.turn);
    var eligible := Filter(Eligible, s.seats);
    forall k | 0 <= k < |e.betting.banks| ensures 0 <= e.betting.banks[k] <= s.rules.value.timeBank {
      assert eligible[k] in eligible;
      assert eligible[k] in s.seats;
      var j :| 0 <= j < |s.seats| && s.seats[j] == eligible[k];
    }
    PlayingKeeps(s.seats, e.betting.hand.players, s.rules.value.timeBank);
  }

  lemma {:induction false} PlayingKeeps(seats: seq<Seat>, players: seq<B.Player>, most: int)
    requires SeatBanksWithin(seats, most)
    ensures SeatBanksWithin(MarkPlaying(seats, players), most)
  {
  }

  lemma {:induction false} MoveBrings(dealers: Dealers, s: State, r: Request, now: int, e: TableEvent)
    requires TableOk(s) && Clocked(s) && DecideOn(dealers, s, r, now) == Some(e) && MovesBetting(e)
    ensures s.current.Some? && Brings(s, e.betting, if e.RunoutDealt? then None else e.turn)
  {
    hide TableOk, Clocked, DecideAct, DecideTimeout, DecideStreet, DecideRunout, TimedTurn;
    EventKind(dealers, s, r, now, e);
    BanksNow(s);
    match r
    case Act(playerId, move, version) =>
      var i := MoveCosts(s, playerId, move, version, now, e);
    case Timeout(version) =>
      var i := TimeoutCosts(s, version, now, e);
    case _ => DealingCostsNothing(s, r, now, e);
  }

  lemma {:induction false} BanksNow(s: State)
    requires Clocked(s)
    ensures s.rules.Some? && s.current.Some? ==> BanksWithin(s.current.value.betting.banks, s.rules.value.timeBank)
  {
  }

  lemma {:induction false} EventClocked(dealers: Dealers, s: State, r: Request, now: int, e: TableEvent)
    requires TableOk(s) && Clocked(s) && DecideOn(dealers, s, r, now) == Some(e) && Step(s, e).Ok?
    requires r.CreateTable? ==> s == NO_TABLE
    ensures Clocked(Step(s, e).value)
  {
    hide TableOk, Clocked, Brings, Step, DecideStart, DecideSeat;
    EventKind(dealers, s, r, now, e);
    SeatKind(dealers, s, r, now, e);
    if MovesBetting(e) {
      MoveBrings(dealers, s, r, now, e);
      BettingStep(s, e);
    } else if r.StartHand? {
      StartClocked(s, r.number, r.deckRoot, now, e);
    } else if r.SeatPlayer? {
      ArrivalClocked(s, r.playerId, r.seat, r.buyIn, e);
    } else if r.CreateTable? {
      CreatedClocked(e);
    } else {
      OthersClocked(s, e);
    }
  }

  lemma {:induction false} CreatedClocked(e: TableEvent)
    requires e.TableCreated?
    ensures Step(NO_TABLE, e).Ok? && Clocked(Step(NO_TABLE, e).value)
  {
  }

  lemma {:induction false} BettingStep(s: State, e: TableEvent)
    requires Clocked(s) && s.current.Some? && MovesBetting(e) && Step(s, e).Ok?
    requires Brings(s, e.betting, if e.RunoutDealt? then None else e.turn)
    ensures Clocked(Step(s, e).value)
  {
    hide StepBetting, Clocked, Brings;
    BettingClocked(s, if e.StreetDealt? || e.RunoutDealt? then e.shown else [], e.betting,
      if e.RunoutDealt? then None else e.turn);
  }

  lemma {:induction false} SeatKind(dealers: Dealers, s: State, r: Request, now: int, e: TableEvent)
    requires DecideOn(dealers, s, r, now) == Some(e)
    ensures e.PlayerSeated? <==> r.SeatPlayer?
    ensures e.TableCreated? <==> r.CreateTable?
  {
    hide B.ApplyAction, B.ApplyTimeout, B.DealStreet, B.DealRemainingBoard, B.CreateBettingState, TurnFor, SettlementOf,
         PlanOf, DeckCovers, Consumed, Emptied, NextHandSetup, InHand;
  }

  /**
   * On every log the coordinator can write, every time bank lies between nothing and the table's
   * allowance, and the open turn ends exactly its player's bank after the action clock.
   */
  lemma {:induction false} LogsAreClocked(dealers: Dealers, log: seq<TableEvent>)
    requires EventLog.Written(Decide(dealers), log)
    ensures Reduce(log).Ok? && TableOk(Reduce(log).value) && Clocked(Reduce(log).value)
  {
    hide Decide, Step, DecideOn, TableOk, Clocked;
    LogsReplay(dealers, log);
    if log == [] {
      assert Reduce(log) == Ok(NO_TABLE);
      StartsClocked();
    } else {
      var front, e := WrittenFront(dealers, log);
      LogsAreClocked(dealers, front);
      var r, now := DecidedOnReduced(dealers, front, e);
      ReduceExtends(front, e);
      EventClocked(dealers, Reduce(front).value, r, now, e);
    }
  }

  lemma {:induction false} StartsClocked()
    ensures Clocked(NO_TABLE)
  {
  }
}
