/** What holds of every log the coordinator can write, and so of every table it replays. */
module TableRuns {
  import opened Wrappers
  import opened Seqs
  import opened Tables
  import opened TableSeats
  import opened TableInvariant
  import opened TableFinish
  import B = Betting
  import BettingRuns
  import D = DeckMerkle
  import EventLog

  // ----- Chips in and out -----

  /** Chips at the seats and in the house's rake. */
  function ChipsAt(s: State): int { SumOf(StackOf, s.seats) + s.totalRake }

  function BoughtBy(e: TableEvent): int { if e.PlayerSeated? then e.player.stack else 0 }

  /** Chips players take along when an event makes them leave. */
  function TakenBy(s: State, e: TableEvent): int {
    match e
    case PlayerLeft(playerId) => SumOf(StackOf, Filter(Named(playerId), s.seats))
    case HandFinished(_, stacks) =>
      (match SettleSeats(s.seats, stacks)
       case Err(_) => 0
       case Ok(settled) => SumOf(StackOf, Filter(Departing, settled)))
    case _ => 0
  }

  /** An event the coordinator may append: replay accepts it, the table stays sound, no chip is lost. */
  ghost predicate GoodEvent(s: State, e: TableEvent) {
    && Step(s, e).Ok?
    && TableOk(Step(s, e).value)
    && ChipsAt(Step(s, e).value) + TakenBy(s, e) == ChipsAt(s) + BoughtBy(e)
  }

  lemma {:induction false} QuietIsGood(s: State, e: TableEvent)
    requires Quiet(s, e) && !e.PlayerSeated? && !e.PlayerLeft? && !e.HandFinished?
    ensures GoodEvent(s, e)
  {
    SameStacksKeeps(s.seats, Step(s, e).value.seats, []);
  }

  lemma {:induction false} PresenceIsGood(s: State, r: Request, e: TableEvent)
    requires TableOk(s) && (r.SitOut? || r.ReturnPlayer? || r.Leave?) && DecidePresence(s, r) == Some(e)
    ensures GoodEvent(s, e)
  {
    if r.Leave? {
      LeaveOk(s, r.playerId, e);
      if e.PlayerLeaving? {
        QuietIsGood(s, e);
      }
    } else {
      PresenceOk(s, r, e);
      PresenceKinds(s, r, e);
      QuietIsGood(s, e);
    }
  }

  lemma {:induction false} PresenceKinds(s: State, r: Request, e: TableEvent)
    requires (r.SitOut? || r.ReturnPlayer?) && DecidePresence(s, r) == Some(e)
    ensures e.PlayerSatOut? || e.PlayerReturned?
  {
  }

  lemma {:induction false} FinishIsGood(dealers: Dealers, s: State, r: Request, e: TableEvent)
    requires TableOk(s) && r.FinishHand? && DecideFinish(dealers, s, r.record, r.serverSeed, r.playerSeeds) == Some(e)
    ensures GoodEvent(s, e)
  {
    FinishOk(dealers, s, r.record, r.serverSeed, r.playerSeeds, e);
    assert s.status == HandActive;
    SettledIsGood(s, e.rake, e.stacks);
  }

  lemma {:induction false} SettledIsGood(s: State, rake: int, stacks: seq<StackUpdate>)
    requires TableOk(s) && s.status == HandActive && rake >= 0
    requires SettleSeats(s.seats, stacks).Ok? && SeatsOk(SettleSeats(s.seats, stacks).value)
    requires SumOf(StackOf, SettleSeats(s.seats, stacks).value) + rake == SumOf(StackOf, s.seats)
    ensures GoodEvent(s, HandFinished(rake, stacks))
  {
    var settled := SettleSeats(s.seats, stacks).value;
    FinishedTable(s, settled, rake);
    FinishStep(s, rake, stacks);
    ReachesGood(s, HandFinished(rake, stacks), Finished(s, settled, rake));
  }

  lemma {:induction false} ReachesGood(s: State, e: TableEvent, s': State)
    requires Step(s, e) == Ok(s') && TableOk(s') && ChipsAt(s') + TakenBy(s, e) == ChipsAt(s) + BoughtBy(e)
    ensures GoodEvent(s, e)
  {
  }

  lemma {:induction false} FinishStep(s: State, rake: int, stacks: seq<StackUpdate>)
    requires SettleSeats(s.seats, stacks).Ok?
    ensures Step(s, HandFinished(rake, stacks)) == Ok(Finished(s, SettleSeats(s.seats, stacks).value, rake))
    ensures TakenBy(s, HandFinished(rake, stacks))
        == SumOf(StackOf, Filter(Departing, SettleSeats(s.seats, stacks).value))
    ensures BoughtBy(HandFinished(rake, stacks)) == 0
  {
  }

  lemma {:induction false} PlayKinds(s: State, r: Request, now: int, e: TableEvent)
    requires TableOk(s)
    requires match r
             case StartHand(number, root) => DecideStart(s, number, root, now) == Some(e)
             case Act(playerId, move, version) => DecideAct(s, playerId, move, version, now) == Some(e)
             case Timeout(version) => DecideTimeout(s, version, now) == Some(e)
             case DealStreet(street, shown) => DecideStreet(s, street, shown, now) == Some(e)
             case DealRunout(shown) => DecideRunout(s, shown) == Some(e)
             case _ => false
    ensures Quiet(s, e) && (e.HandStarted? || e.ActionApplied? || e.ActionTimedOut? || e.StreetDealt? || e.RunoutDealt?)
  {
    match r
    case StartHand(number, root) => StartOk(s, number, root, now, e);
    case Act(playerId, move, version) => ActOk(s, playerId, move, version, now, e);
    case Timeout(version) => TimeoutOk(s, version, now, e);
    case DealStreet(street, shown) => StreetOk(s, street, shown, now, e);
    case DealRunout(shown) => RunoutOk(s, shown, e);
  }

  lemma {:induction false} SeatIsGood(s: State, playerId: PlayerId, seat: int, buyIn: int, e: TableEvent)
    requires TableOk(s) && DecideSeat(s, playerId, seat, buyIn) == Some(e)
    ensures GoodEvent(s, e)
  {
    hide Step, TableOk;
    SeatOkStep(s, playerId, seat, buyIn, e);
  }

  lemma {:induction false} DecisionIsGood(dealers: Dealers, s: State, r: Request, now: int, e: TableEvent)
    requires TableOk(s) && DecideOn(dealers, s, r, now) == Some(e) && (r.CreateTable? ==> s == NO_TABLE)
    ensures GoodEvent(s, e)
  {
    hide GoodEvent, Step, TableOk, DecideStart, DecideAct, DecideTimeout, DecideStreet, DecideRunout, DecideFinish,
         DecidePresence, DecideSeat;
    match r {
      case CreateTable(rules) =>
        CreateOk(s, rules);
        QuietIsGood(s, e);
      case SeatPlayer(playerId, seat, buyIn) => SeatIsGood(s, playerId, seat, buyIn, e);
      case FinishHand(_, _, _) => FinishIsGood(dealers, s, r, e);
      case SitOut(_) => PresenceIsGood(s, r, e);
      case ReturnPlayer(_) => PresenceIsGood(s, r, e);
      case Leave(_) => PresenceIsGood(s, r, e);
      case _ =>
        PlayKinds(s, r, now, e);
        QuietIsGood(s, e);
    }
  }

  // ----- Whole logs -----

  /** Replaying the rest of a log from the state its beginning replays to. */
  lemma {:induction false} ReplayConcat(s: State, a: seq<TableEvent>, b: seq<TableEvent>)
    ensures Replay(s, a + b) == match Replay(s, a) case Ok(mid) => Replay(mid, b) case Err(e) => Err(e)
    decreases |a|
  {
    if a == [] {
      assert a + b == b;
    } else {
      assert (a + b)[1..] == a[1..] + b;
      match Step(s, a[0]) {
        case Ok(next) => ReplayConcat(next, a[1..], b);
        case Err(_) =>
      }
    }
  }

  function Bought(log: seq<TableEvent>): int { SumOf(BoughtBy, log) }

  /** Chips taken away over a log, each departure valued at the state it finds. */
  function Taken(s: State, log: seq<TableEvent>): int
    decreases |log|
  {
    if log == [] then 0
    else TakenBy(s, log[0]) + match Step(s, log[0]) case Ok(next) => Taken(next, log[1..]) case Err(_) => 0
  }

  lemma {:induction false} TakenConcat(s: State, a: seq<TableEvent>, b: seq<TableEvent>, mid: State)
    requires Replay(s, a) == Ok(mid)
    ensures Taken(s, a + b) == Taken(s, a) + Taken(mid, b)
    decreases |a|
  {
    if a == [] {
      assert a + b == b;
    } else {
      assert (a + b)[1..] == a[1..] + b;
      TakenConcat(Step(s, a[0]).value, a[1..], b, mid);
    }
  }

  lemma {:induction false} WrittenFront(dealers: Dealers, log: seq<TableEvent>)
    returns (front: seq<TableEvent>, e: TableEvent)
    requires log != [] && EventLog.Written(Decide(dealers), log)
    ensures front == log[..|log| - 1] && e == log[|log| - 1] && log == front + [e]
    ensures EventLog.Written(Decide(dealers), front) && EventLog.Decided(Decide(dealers), front, e)
  {
    hide Decide;
    front, e := log[..|log| - 1], log[|log| - 1];
    forall k | 0 <= k < |front| ensures EventLog.Decided(Decide(dealers), front[..k], front[k]) {
      assert front[..k] == log[..k];
    }
  }

  lemma {:induction false} DecidedOnReduced(dealers: Dealers, front: seq<TableEvent>, e: TableEvent)
    returns (r: Request, now: int)
    requires EventLog.Decided(Decide(dealers), front, e)
    ensures Reduce(front).Ok? && DecideOn(dealers, Reduce(front).value, r, now) == Some(e)
    ensures r.CreateTable? ==> Reduce(front).value == NO_TABLE
  {
    r, now :| Decide(dealers)(front, r, now) == Some(e);
  }

  lemma {:induction false} ReduceExtends(front: seq<TableEvent>, e: TableEvent)
    requires Reduce(front).Ok?
    ensures Reduce(front + [e]) == Step(Reduce(front).value, e)
  {
    ReplayConcat(NO_TABLE, front, [e]);
    assert [e][1..] == [];
  }

  /**
   * Every log the coordinator can write replays without looking up a missing seat or hand, to a sound
   * table whose seats and rake hold every chip bought in and not taken away.
   */
  lemma {:induction false} LogsReplay(dealers: Dealers, log: seq<TableEvent>)
    requires EventLog.Written(Decide(dealers), log)
    ensures Reduce(log).Ok? && TableOk(Reduce(log).value)
    ensures ChipsAt(Reduce(log).value) + Taken(NO_TABLE, log) == Bought(log)
  {
    if log != [] {
      var front, e := WrittenFront(dealers, log);
      LogsReplay(dealers, front);
      var r, now := DecidedOnReduced(dealers, front, e);
      var s := Reduce(front).value;
      DecisionIsGood(dealers, s, r, now, e);
      ReduceExtends(front, e);
      TakenConcat(NO_TABLE, front, [e], s);
      SumOfConcat(BoughtBy, front, [e]);
      assert [e][1..] == [];
    }
  }

  /** During a hand every participant's seat carries the chips the hand holds for the player. */
  lemma {:induction false} HandChipsMatchSeats(dealers: Dealers, log: seq<TableEvent>)
    requires EventLog.Written(Decide(dealers), log) && Reduce(log).Ok? && Reduce(log).value.current.Some?
    ensures AllHeld(Reduce(log).value.seats, Reduce(log).value.current.value.betting.hand.players)
  {
    LogsReplay(dealers, log);
  }

  /** The same of the stored log after any interleaving of calls on observed versions. */
  lemma {:induction false} InterleavedTablesConserve(dealers: Dealers, moves: seq<EventLog.Move<Request>>)
    requires EventLog.ObservedRun(Decide(dealers), EventLog.Start(), moves)
    ensures var store := EventLog.DoAll(Decide(dealers), EventLog.Start(), moves).store;
      var log := EventLog.Payloads(store.events);
      && EventLog.Chained(store.events, 0, EventLog.Genesis, None)
      && Reduce(log).Ok? && TableOk(Reduce(log).value)
      && ChipsAt(Reduce(log).value) + Taken(NO_TABLE, log) == Bought(log)
  {
    EventLog.InterleavingsAreSerial(Decide(dealers), moves);
    LogsReplay(dealers, EventLog.Payloads(EventLog.DoAll(Decide(dealers), EventLog.Start(), moves).store.events));
  }

  // ----- Extending a written log -----

  /** A request accepted on the replayed state extends the log. */
  lemma {:induction false} Extends(dealers: Dealers, log: seq<TableEvent>, r: Request, now: int, e: TableEvent)
    requires EventLog.Written(Decide(dealers), log) && Reduce(log).Ok? && !r.CreateTable?
    requires DecideOn(dealers, Reduce(log).value, r, now) == Some(e)
    ensures EventLog.Written(Decide(dealers), log + [e]) && log <= log + [e]
    ensures Reduce(log + [e]).Ok? && Step(Reduce(log).value, e) == Reduce(log + [e])
  {
    hide DecideOn, Step, Reduce;
    DecidesOnLog(dealers, log, r, now);
    assert EventLog.Decided(Decide(dealers), log, e);
    EventLog.WrittenExtends(Decide(dealers), log, e);
    ReduceExtends(log, e);
    LogsReplay(dealers, log + [e]);
  }

  lemma {:induction false} DecidesOnLog(dealers: Dealers, log: seq<TableEvent>, r: Request, now: int)
    requires Reduce(log).Ok? && !r.CreateTable?
    ensures Decide(dealers)(log, r, now) == DecideOn(dealers, Reduce(log).value, r, now)
  {
    hide DecideOn, Reduce;
  }

  // ----- Each betting version is advanced once -----

  predicate MovesBetting(e: TableEvent) {
    e.ActionApplied? || e.ActionTimedOut? || e.StreetDealt? || e.RunoutDealt?
  }

  /** Which hand is on and how often its betting has moved; between hands, the next hand at zero. */
  datatype Stamp = Stamp(hand: nat, version: nat)

  function StampOf(s: State): Stamp {
    if s.current.Some? then Stamp(s.handNumber, s.current.value.betting.hand.version) else Stamp(s.handNumber + 1, 0)
  }

  predicate Earlier(a: Stamp, b: Stamp) { a.hand < b.hand || (a.hand == b.hand && a.version < b.version) }

  predicate NotLater(a: Stamp, b: Stamp) { a == b || Earlier(a, b) }

  lemma {:induction false} ActAdvances(s: State, playerId: PlayerId, move: B.Move, version: nat, now: int,
      e: TableEvent)
    requires DecideAct(s, playerId, move, version, now) == Some(e)
    ensures e.ActionApplied? && s.current.Some? && e.betting.hand.version == s.current.value.betting.hand.version + 1
  {
    var charged := Consumed(s.current.value.betting, s.current.value.turn.value, now);
    BettingRuns.ActionVersion(charged.hand, B.Action(playerId, version, move), e.betting.hand);
  }

  lemma {:induction false} TimeoutAdvances(s: State, version: nat, now: int, e: TableEvent)
    requires DecideTimeout(s, version, now) == Some(e)
    ensures e.ActionTimedOut? && s.current.Some? && e.betting.hand.version == s.current.value.betting.hand.version + 1
  {
    var actor := s.current.value.turn.value.playerId;
    var emptied := Emptied(s.current.value.betting, actor);
    BettingRuns.StepSameHand(emptied.hand, B.TimeOut(actor, version), e.betting.hand);
  }

  lemma {:induction false} DealAdvances(s: State, r: Request, now: int, e: TableEvent)
    requires match r
             case DealStreet(street, shown) => DecideStreet(s, street, shown, now) == Some(e)
             case DealRunout(shown) => DecideRunout(s, shown) == Some(e)
             case _ => false
    ensures (e.StreetDealt? || e.RunoutDealt?) && s.current.Some?
    ensures e.betting.hand.version == s.current.value.betting.hand.version + 1
  {
  }

  /** How an event may move the stamp: one version on for betting events, never back otherwise. */
  ghost predicate StampMoves(s: State, e: TableEvent) {
    && Step(s, e).Ok?
    && NotLater(StampOf(s), StampOf(Step(s, e).value))
    && (MovesBetting(e) ==> s.current.Some? && StampOf(Step(s, e).value) == Stamp(s.handNumber, StampOf(s).version + 1))
  }

  lemma {:induction false} BettingStamp(s: State, e: TableEvent)
    requires Step(s, e).Ok? && MovesBetting(e) && s.current.Some?
    requires e.betting.hand.version == s.current.value.betting.hand.version + 1
    ensures StampMoves(s, e)
  {
  }

  lemma {:induction false} PresenceStamp(s: State, e: TableEvent)
    requires Step(s, e).Ok?
        && (e.PlayerSatOut? || e.PlayerReturned? || e.PlayerLeaving? || e.PlayerLeft? || e.PlayerSeated?)
    ensures StampMoves(s, e)
  {
  }

  lemma {:induction false} HandStamp(s: State, e: TableEvent)
    requires Step(s, e).Ok?
    requires (e.HandStarted? && e.number == s.handNumber + 1) || (e.HandFinished? && s.current.Some?)
      || (e.TableCreated? && s == NO_TABLE)
    ensures StampMoves(s, e)
  {
  }

  lemma {:induction false} DecisionReplays(dealers: Dealers, s: State, r: Request, now: int, e: TableEvent)
    requires TableOk(s) && DecideOn(dealers, s, r, now) == Some(e) && (r.CreateTable? ==> s == NO_TABLE)
    ensures Step(s, e).Ok?
  {
    DecisionIsGood(dealers, s, r, now, e);
  }

  lemma {:induction false} StampAdvances(dealers: Dealers, s: State, r: Request, now: int, e: TableEvent)
    requires TableOk(s) && DecideOn(dealers, s, r, now) == Some(e) && (r.CreateTable? ==> s == NO_TABLE)
    ensures StampMoves(s, e)
  {
    hide Step, StampMoves, Decide, DecideStart, DecideAct, DecideTimeout, DecideStreet, DecideRunout, PlayOk,
         SettlementOf, FinishEvent;
    DecisionReplays(dealers, s, r, now, e);
    match r {
      case Act(playerId, move, version) =>
        ActAdvances(s, playerId, move, version, now, e);
        BettingStamp(s, e);
      case Timeout(version) =>
        TimeoutAdvances(s, version, now, e);
        BettingStamp(s, e);
      case DealStreet(_, _) =>
        DealAdvances(s, r, now, e);
        BettingStamp(s, e);
      case DealRunout(_) =>
        DealAdvances(s, r, now, e);
        BettingStamp(s, e);
      case StartHand(number, root) =>
        StartNumber(s, number, root, now, e);
        HandStamp(s, e);
      case FinishHand(record, serverSeed, seeds) =>
        FinishOk(dealers, s, record, serverSeed, seeds, e);
        HandStamp(s, e);
      case CreateTable(_) => HandStamp(s, e);
      case _ => PresenceStamp(s, e);
    }
  }

  lemma {:induction false} StartNumber(s: State, number: nat, root: D.Digest, now: int, e: TableEvent)
    requires SeatsOk(s.seats) && DecideStart(s, number, root, now) == Some(e)
    ensures e.HandStarted? && e.number == s.handNumber + 1 && s.status == Waiting
  {
    SetupIsEligible(s, NextHandSetup(s).value);
  }

  /** The stamp of a log after its first k events. */
  function StampAt(log: seq<TableEvent>, k: nat): Stamp
    requires k <= |log|
  {
    match Reduce(log[..k]) case Ok(s) => StampOf(s) case Err(_) => Stamp(0, 0)
  }

  lemma {:induction false} StampsGrow(dealers: Dealers, log: seq<TableEvent>, j: nat, k: nat)
    requires EventLog.Written(Decide(dealers), log) && j <= k <= |log|
    ensures NotLater(StampAt(log, j), StampAt(log, k))
    decreases k - j
  {
    hide Decide;
    if j < k {
      StampsGrow(dealers, log, j, k - 1);
      StampStep(dealers, log, k - 1);
    }
  }

  lemma {:induction false} LogPrefix(dealers: Dealers, log: seq<TableEvent>, k: nat)
    requires EventLog.Written(Decide(dealers), log) && k <= |log|
    ensures EventLog.Written(Decide(dealers), log[..k]) && Reduce(log[..k]).Ok? && TableOk(Reduce(log[..k]).value)
  {
    forall i | 0 <= i < k ensures EventLog.Decided(Decide(dealers), log[..k][..i], log[..k][i]) {
      assert log[..k][..i] == log[..i];
    }
    LogsReplay(dealers, log[..k]);
  }

  lemma {:induction false} StampStep(dealers: Dealers, log: seq<TableEvent>, k: nat)
    requires EventLog.Written(Decide(dealers), log) && k < |log|
    ensures NotLater(StampAt(log, k), StampAt(log, k + 1))
    ensures MovesBetting(log[k]) ==> StampAt(log, k + 1) == Stamp(StampAt(log, k).hand, StampAt(log, k).version + 1)
  {
    hide Decide, Step, DecideOn;
    LogPrefix(dealers, log, k);
    assert EventLog.Decided(Decide(dealers), log[..k], log[k]);
    var r, now := DecidedOnReduced(dealers, log[..k], log[k]);
    StampAdvances(dealers, Reduce(log[..k]).value, r, now, log[k]);
    assert log[..k + 1] == log[..k] + [log[k]];
    ReduceExtends(log[..k], log[k]);
  }

  /**
   * Each betting version of each hand is advanced by exactly one event: two betting events of a log
   * never find the same hand at the same version, so a turn is never both acted on and timed out.
   */
  lemma {:induction false} BettingVersionsAreOnce(dealers: Dealers, log: seq<TableEvent>, j: nat, k: nat)
    requires EventLog.Written(Decide(dealers), log) && j < k < |log|
    requires MovesBetting(log[j]) && MovesBetting(log[k])
    ensures Earlier(StampAt(log, j), StampAt(log, k))
  {
    StampStep(dealers, log, j);
    StampsGrow(dealers, log, j + 1, k);
  }
}
