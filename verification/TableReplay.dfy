/** The replay of table events as reduceTable runs it: one state object updated event by event. */
module TableReplay {
  import opened Wrappers
  import opened Seqs
  import opened Tables
  import B = Betting
  import D = DeckMerkle
  import EventLog
  import F = Fairness
  import Seats
  import TableInvariant
  import TableRuns

  class TableState {
    var status: TableStatus
    var rules: Option<TableRules>
    var seats: seq<Seat>
    var handNumber: nat
    var buttonSeat: Option<int>
    var current: Option<CurrentHand>
    var totalRake: int

    function View(): State
      reads this
    {
      State(status, rules, seats, handNumber, buttonSeat, current, totalRake)
    }

    /** The empty table, or a copy of a snapshot's state. */
    constructor (initial: State)
      ensures View() == initial
    {
      status, rules, seats, handNumber := initial.status, initial.rules, initial.seats, initial.handNumber;
      buttonSeat, current, totalRake := initial.buttonSeat, initial.current, initial.totalRake;
    }

    /** Finds a player's seat and replaces it; a player without a seat is an error. */
    method Change(playerId: PlayerId, f: Seat -> Seat) returns (error: Option<ReplayError>)
      modifies this`seats
      ensures error.None? <==> UpdateSeat(old(seats), playerId, f).Ok?
      ensures error.None? ==> seats == UpdateSeat(old(seats), playerId, f).value
      ensures error.Some? ==> seats == old(seats) && error == Some(MissingSeat)
    {
      match IndexOfId(seats, playerId) {
        case None => return Some(MissingSeat);
        case Some(i) => seats := seats[i := f(seats[i])];
      }
      return None;
    }

    method TakeBanks(players: seq<B.Player>, banks: seq<int>) returns (error: Option<ReplayError>)
      requires |players| == |banks|
      modifies this`seats
      ensures error.None? <==> SetBanks(old(seats), players, banks).Ok?
      ensures error.None? ==> seats == SetBanks(old(seats), players, banks).value
      ensures error.Some? ==> SetBanks(old(seats), players, banks) == Err(error.value)
    {
      for k := 0 to |players|
        invariant SetBanks(old(seats), players, banks) == SetBanks(seats, players[k..], banks[k..])
      {
        assert players[k..][1..] == players[k + 1..] && banks[k..][1..] == banks[k + 1..];
        assert players[k..][0] == players[k] && banks[k..][0] == banks[k];
        var bank := banks[k];
        var failed := Change(players[k].playerId, (s: Seat) => s.(timeBank := bank));
        if failed.Some? {
          return failed;
        }
      }
      return None;
    }

    method TakeStacks(stacks: seq<StackUpdate>) returns (error: Option<ReplayError>)
      modifies this`seats
      ensures error.None? <==> SettleSeats(old(seats), stacks).Ok?
      ensures error.None? ==> seats == SettleSeats(old(seats), stacks).value
      ensures error.Some? ==> SettleSeats(old(seats), stacks) == Err(error.value)
    {
      for k := 0 to |stacks|
        invariant SettleSeats(old(seats), stacks) == SettleSeats(seats, stacks[k..])
      {
        assert stacks[k..][1..] == stacks[k + 1..] && stacks[k..][0] == stacks[k];
        var stack := stacks[k].stack;
        var failed := Change(stacks[k].playerId, (s: Seat) => WithSettled(s, stack));
        if failed.Some? {
          return failed;
        }
      }
      return None;
    }

    /** A betting event: the hand's new state, and its players' banks back to their seats. */
    method Play(shown: seq<D.Reveal>, betting: Timed, turn: Option<Turn>) returns (error: Option<ReplayError>)
      requires |betting.banks| == |betting.hand.players|
      modifies this
      ensures error == Verdict(StepBetting(old(View()), shown, betting, turn))
      ensures error.None? ==> View() == StepBetting(old(View()), shown, betting, turn).value
    {
      if current.None? {
        return Some(MissingHand);
      }
      var hand := current.value;
      hand := hand.(betting := betting);
      hand := hand.(turn := turn);
      hand := hand.(shown := hand.shown + shown);
      current := Some(hand);
      error := TakeBanks(betting.hand.players, betting.banks);
    }

    method Start(number: nat, button: int, fairness: F.Rules, deckRoot: D.Digest, betting: Timed, turn: Option<Turn>)
      modifies this
      ensures Ok(View()) == Step(old(View()), HandStarted(number, button, fairness, deckRoot, betting, turn))
    {
      status := HandActive;
      handNumber := number;
      buttonSeat := Some(button);
      current := Some(CurrentHand(number, fairness, deckRoot, [], betting, turn));
      seats := MarkPlaying(seats, betting.hand.players);
    }

    method Finish(rake: int, stacks: seq<StackUpdate>) returns (error: Option<ReplayError>)
      modifies this
      ensures error == Verdict(Step(old(View()), HandFinished(rake, stacks)))
      ensures error.None? ==> View() == Step(old(View()), HandFinished(rake, stacks)).value
    {
      status := Waiting;
      totalRake := totalRake + rake;
      error := TakeStacks(stacks);
      if error.None? {
        seats := Filter(Staying, seats);
        current := None;
      }
    }

    /** One case of the reducer's switch. */
    method Apply(e: TableEvent) returns (error: Option<ReplayError>)
      requires WellTimed(e)
      modifies this
      ensures error == Verdict(Step(old(View()), e))
      ensures error.None? ==> View() == Step(old(View()), e).value
    {
      error := None;
      match e {
        case TableCreated(newRules) =>
          status := Waiting;
          rules := Some(newRules);
        case PlayerSeated(player) =>
          seats := seats + [player];
          seats := Seats.SortBySeat(SeatNumber, seats);
        case PlayerSatOut(playerId, afterHand) =>
          error := Change(playerId, (x: Seat) => WithSatOut(x, afterHand));
        case PlayerReturned(playerId) =>
          var playing := InHand(current, playerId);
          error := Change(playerId, (x: Seat) => WithReturned(x, playing));
        case PlayerLeaving(playerId) =>
          error := Change(playerId, (x: Seat) => x.(leaving := true));
        case PlayerLeft(playerId) =>
          seats := Filter(Others(playerId), seats);
        case HandStarted(number, button, fairness, deckRoot, betting, turn) =>
          Start(number, button, fairness, deckRoot, betting, turn);
        case ActionApplied(betting, turn) => error := Play([], betting, turn);
        case ActionTimedOut(betting, turn) => error := Play([], betting, turn);
        case StreetDealt(shown, betting, turn) => error := Play(shown, betting, turn);
        case RunoutDealt(shown, betting) => error := Play(shown, betting, None);
        case HandFinished(rake, stacks) => error := Finish(rake, stacks);
        case TablePaused => status := Paused;
        case TableResumed => status := Waiting;
        case TableClosed => status := Closed;
      }
    }
  }

  function Verdict(outcome: Result<State, ReplayError>): Option<ReplayError> {
    if outcome.Ok? then None else Some(outcome.error)
  }

  /** Every player of a betting state carries a time bank. */
  predicate WellTimed(e: TableEvent) {
    match e
    case ActionApplied(betting, _) => |betting.banks| == |betting.hand.players|
    case ActionTimedOut(betting, _) => |betting.banks| == |betting.hand.players|
    case StreetDealt(_, betting, _) => |betting.banks| == |betting.hand.players|
    case RunoutDealt(_, betting) => |betting.banks| == |betting.hand.players|
    case _ => true
  }

  /** Replays events on a state; a missing seat or hand ends the replay with its error. */
  method ReduceTable(events: seq<TableEvent>, initial: State) returns (r: Result<State, ReplayError>)
    requires forall e :: e in events ==> WellTimed(e)
    ensures r == Replay(initial, events)
  {
    var state := new TableState(initial);
    for k := 0 to |events|
      invariant Replay(initial, events) == Replay(state.View(), events[k..])
      invariant fresh(state)
    {
      assert events[k..][1..] == events[k + 1..] && events[k..][0] == events[k];
      assert events[k] in events;
      var failed := state.Apply(events[k]);
      if failed.Some? {
        return Err(failed.value);
      }
    }
    return Ok(state.View());
  }

  /** The coordinator only writes events the replay can take. */
  lemma {:induction false} WrittenEventsAreTimed(dealers: Dealers, log: seq<TableEvent>, k: nat)
    requires EventLog.Written(Decide(dealers), log) && k < |log|
    ensures WellTimed(log[k])
  {
    hide Decide, Reduce, Step, TableInvariant.TableOk, WellTimed;
    TableRuns.LogPrefix(dealers, log, k);
    TableRuns.LogPrefix(dealers, log, k + 1);
    assert log[..k + 1] == log[..k] + [log[k]];
    TableRuns.ReduceExtends(log[..k], log[k]);
    SoundStepIsTimed(Reduce(log[..k]).value, log[k]);
  }

  lemma {:induction false} SoundStepIsTimed(s: State, e: TableEvent)
    requires Step(s, e).Ok? && TableInvariant.TableOk(Step(s, e).value)
    ensures WellTimed(e)
  {
    hide SetBanks, SettleSeats, UpdateSeat, Filter;
  }
}
