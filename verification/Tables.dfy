/**
 * The event-sourced table of server/table-coordinator.js: its state, the replay of its events, and what
 * each request appends. Amounts are integers and times are milliseconds.
 */
module Tables {
  import opened Wrappers
  import opened Seqs
  import opened Games
  import opened Ledgers
  import B = Betting
  import D = DeckMerkle
  import DealMaps
  import Dealing
  import EventLog
  import F = Fairness
  import FinishedHands
  import Seats
  import Showdown

  type PlayerId = nat

  const U64_MAX := 0xFFFF_FFFF_FFFF_FFFF

  datatype GameChoice = Always(game: Game) | RoundOfEach

  datatype TableRules = TableRules(
    choice: GameChoice,
    seats: int,
    smallBlind: int,
    bigBlind: int,
    ante: int,
    minimumBuyIn: int,
    maximumBuyIn: int,
    rakeBps: int,
    rakeCap: int,
    actionClock: int,
    timeBank: int,
    handsPerGame: int)

  datatype SeatStatus = Seated | Playing | SittingOut | Busted

  datatype Seat = Seat(
    playerId: PlayerId,
    seat: int,
    stack: int,
    status: SeatStatus,
    timeBank: int,
    sitOutNextHand: bool,
    leaving: bool)

  datatype Turn = Turn(playerId: PlayerId, startedAt: int, baseDeadline: int, deadline: int)

  /** The betting state with the time bank each of its players has left, in the players' order. */
  datatype Timed = Timed(hand: B.Hand, banks: seq<int>)

  datatype CurrentHand = CurrentHand(
    number: nat,
    fairness: F.Rules,
    deckRoot: D.Digest,
    shown: seq<D.Reveal>,
    betting: Timed,
    turn: Option<Turn>)

  datatype TableStatus = Missing | Waiting | HandActive | Paused | Closed

  datatype State = State(
    status: TableStatus,
    rules: Option<TableRules>,
    seats: seq<Seat>,
    handNumber: nat,
    buttonSeat: Option<int>,
    current: Option<CurrentHand>,
    totalRake: int)

  const NO_TABLE := State(Missing, None, [], 0, None, None, 0)

  datatype StackUpdate = StackUpdate(playerId: PlayerId, stack: int)

  datatype TableEvent =
    | TableCreated(rules: TableRules)
    | PlayerSeated(player: Seat)
    | PlayerSatOut(playerId: PlayerId, afterHand: bool)
    | PlayerReturned(playerId: PlayerId)
    | PlayerLeaving(playerId: PlayerId)
    | PlayerLeft(playerId: PlayerId)
    | HandStarted(number: nat, buttonSeat: int, fairness: F.Rules, deckRoot: D.Digest, betting: Timed,
      turn: Option<Turn>)
    | ActionApplied(betting: Timed, turn: Option<Turn>)
    | ActionTimedOut(betting: Timed, turn: Option<Turn>)
    | StreetDealt(shown: seq<D.Reveal>, betting: Timed, turn: Option<Turn>)
    | RunoutDealt(shown: seq<D.Reveal>, betting: Timed)
    | HandFinished(rake: int, stacks: seq<StackUpdate>)
    | TablePaused
    | TableResumed
    | TableClosed

  /** Where replaying an event would read a field of something that is not there. */
  datatype ReplayError = MissingSeat | MissingHand

  function SeatNumber(s: Seat): int { s.seat }

  function StackOf(s: Seat): int { s.stack }

  function IndexOfId(seats: seq<Seat>, playerId: PlayerId): Option<nat> {
    IndexWhere((s: Seat) => s.playerId == playerId, seats)
  }

  predicate InHand(hand: Option<CurrentHand>, playerId: PlayerId) {
    hand.Some? && exists p :: p in hand.value.betting.hand.players && p.playerId == playerId
  }

  // ----- Replay -----

  function WithSatOut(s: Seat, afterHand: bool): Seat {
    s.(sitOutNextHand := afterHand, status := if afterHand then s.status else SittingOut)
  }

  function WithReturned(s: Seat, playing: bool): Seat {
    s.(sitOutNextHand := false, status := if playing then Playing else Seated)
  }

  /** After a hand: the new stack, and the status it and the player's wish to sit out imply. */
  function WithSettled(s: Seat, stack: int): Seat {
    s.(stack := stack, status := if stack == 0 then Busted else if s.sitOutNextHand then SittingOut else Seated,
       sitOutNextHand := false)
  }

  function UpdateSeat(seats: seq<Seat>, playerId: PlayerId, f: Seat -> Seat): Result<seq<Seat>, ReplayError> {
    match IndexOfId(seats, playerId)
    case None => Err(MissingSeat)
    case Some(i) => Ok(seats[i := f(seats[i])])
  }

  function SetBanks(seats: seq<Seat>, players: seq<B.Player>, banks: seq<int>): Result<seq<Seat>, ReplayError>
    decreases |players|
  {
    if players == [] || banks == [] then Ok(seats)
    else
      var next :- UpdateSeat(seats, players[0].playerId, (s: Seat) => s.(timeBank := banks[0]));
      SetBanks(next, players[1..], banks[1..])
  }

  function SettleSeats(seats: seq<Seat>, stacks: seq<StackUpdate>): Result<seq<Seat>, ReplayError>
    decreases |stacks|
  {
    if stacks == [] then Ok(seats)
    else
      var next :- UpdateSeat(seats, stacks[0].playerId, (s: Seat) => WithSettled(s, stacks[0].stack));
      SettleSeats(next, stacks[1..])
  }

  function MarkPlaying(seats: seq<Seat>, players: seq<B.Player>): (r: seq<Seat>)
    ensures |r| == |seats|
  {
    Map((s: Seat) => if exists p :: p in players && p.playerId == s.playerId then s.(status := Playing) else s, seats)
  }

  predicate Staying(s: Seat) { !s.leaving }

  function Named(playerId: PlayerId): Seat -> bool { (s: Seat) => s.playerId == playerId }

  function Others(playerId: PlayerId): Seat -> bool { (s: Seat) => s.playerId != playerId }

  function StepBetting(s: State, shown: seq<D.Reveal>, betting: Timed, turn: Option<Turn>): Result<State, ReplayError> {
    if s.current.None? then Err(MissingHand)
    else
      var hand := s.current.value;
      var seats :- SetBanks(s.seats, betting.hand.players, betting.banks);
      Ok(s.(current := Some(hand.(betting := betting, turn := turn, shown := hand.shown + shown)), seats := seats))
  }

  function Step(s: State, e: TableEvent): Result<State, ReplayError> {
    match e
    case TableCreated(rules) => Ok(s.(status := Waiting, rules := Some(rules)))
    case PlayerSeated(player) => Ok(s.(seats := Seats.SortBySeat(SeatNumber, s.seats + [player])))
    case PlayerSatOut(playerId, afterHand) =>
      var seats :- UpdateSeat(s.seats, playerId, (x: Seat) => WithSatOut(x, afterHand));
      Ok(s.(seats := seats))
    case PlayerReturned(playerId) =>
      var playing := InHand(s.current, playerId);
      var seats :- UpdateSeat(s.seats, playerId, (x: Seat) => WithReturned(x, playing));
      Ok(s.(seats := seats))
    case PlayerLeaving(playerId) =>
      var seats :- UpdateSeat(s.seats, playerId, (x: Seat) => x.(leaving := true));
      Ok(s.(seats := seats))
    case PlayerLeft(playerId) => Ok(s.(seats := Filter(Others(playerId), s.seats)))
    case HandStarted(number, buttonSeat, fairness, deckRoot, betting, turn) =>
      Ok(s.(status := HandActive, handNumber := number, buttonSeat := Some(buttonSeat),
            current := Some(CurrentHand(number, fairness, deckRoot, [], betting, turn)),
            seats := MarkPlaying(s.seats, betting.hand.players)))
    case ActionApplied(betting, turn) => StepBetting(s, [], betting, turn)
    case ActionTimedOut(betting, turn) => StepBetting(s, [], betting, turn)
    case StreetDealt(shown, betting, turn) => StepBetting(s, shown, betting, turn)
    case RunoutDealt(shown, betting) => StepBetting(s, shown, betting, None)
    case HandFinished(rake, stacks) =>
      var seats :- SettleSeats(s.seats, stacks);
      Ok(s.(status := Waiting, totalRake := s.totalRake + rake, seats := Filter(Staying, seats), current := None))
    case TablePaused => Ok(s.(status := Paused))
    case TableResumed => Ok(s.(status := Waiting))
    case TableClosed => Ok(s.(status := Closed))
  }

  /** Replay of `events` on a state, first event first. */
  function Replay(s: State, events: seq<TableEvent>): Result<State, ReplayError>
    decreases |events|
  {
    if events == [] then Ok(s)
    else
      var next :- Step(s, events[0]);
      Replay(next, events[1..])
  }

  function Reduce(events: seq<TableEvent>): Result<State, ReplayError> { Replay(NO_TABLE, events) }

  // ----- The next hand -----

  datatype Setup = Setup(number: nat, game: Game, buttonSeat: int, playerIds: seq<PlayerId>, fairness: F.Rules)

  predicate Eligible(s: Seat) { s.status == Seated && s.stack > 0 && !s.leaving }

  function GameOf(rules: TableRules, number: nat): Game {
    match rules.choice
    case Always(game) => game
    case RoundOfEach =>
      if rules.handsPerGame > 0 && number > 0 && (number - 1) / rules.handsPerGame % 2 == 1 then PLO4 else NLH
  }

  /** The lowest seat if the button has no player left, else the next player's seat clockwise. */
  function NextButton(players: seq<Seat>, button: Option<int>): int
    requires players != []
  {
    if button.None? || forall p :: p in players ==> p.seat != button.value then
      Seats.SortKeepsMembers(SeatNumber, players);
      assert |multiset(Seats.SortBySeat(SeatNumber, players))| == |multiset(players)| == |players|;
      Seats.SortBySeat(SeatNumber, players)[0].seat
    else
      Seats.ClockwiseKeepsMembers(SeatNumber, players, button.value);
      Seats.Clockwise(SeatNumber, players, button.value)[0].seat
  }

  function NextHandSetup(s: State): Option<Setup> {
    if s.status != Waiting || s.rules.None? then None
    else
      var players := Filter(Eligible, s.seats);
      if |players| < 2 then None
      else
        var button := NextButton(players, s.buttonSeat);
        var game := GameOf(s.rules.value, s.handNumber + 1);
        var ordered := Seats.SortBySeat(SeatNumber, players);
        match IndexWhere((p: Seat) => p.seat == button, ordered)
        case None => None
        case Some(index) =>
          Some(Setup(s.handNumber + 1, game, button, Map((p: Seat) => p.playerId, ordered),
                     F.Rules(game, |ordered|, index, 1)))
  }

  function EntrantOf(s: Seat): B.Entrant { B.Entrant(s.playerId, s.seat, s.stack) }

  function Participants(s: State, setup: Setup): seq<Seat> {
    Filter((x: Seat) => x.playerId in setup.playerIds, s.seats)
  }

  function ConfigOf(s: State, setup: Setup): B.Config
    requires s.rules.Some?
  {
    var rules := s.rules.value;
    B.Config(setup.number, setup.game, Map(EntrantOf, Participants(s, setup)), setup.buttonSeat,
             rules.smallBlind, rules.bigBlind, rules.ante, None)
  }

  // ----- The clock -----

  datatype ClockError = MissingActor

  /** Whose turn it is and until when; no turn unless the hand is betting. */
  function TurnFor(t: Timed, actionClock: int, now: int): Result<Option<Turn>, ClockError> {
    if t.hand.status != B.Betting || t.hand.actionSeat.None? then Ok(None)
    else match B.IndexOfSeat(t.hand.players, t.hand.actionSeat.value)
      case None => Err(MissingActor)
      case Some(i) =>
        var bank := if i < |t.banks| then t.banks[i] else 0;
        Ok(Some(Turn(t.hand.players[i].playerId, now, now + actionClock, now + actionClock + bank)))
  }

  /** Time past the base deadline comes out of the actor's bank. */
  function Consumed(t: Timed, turn: Turn, now: int): Timed {
    match B.IndexOfPlayer(t.hand.players, turn.playerId)
    case None => t
    case Some(i) =>
      if i >= |t.banks| then t
      else
        var overage := if now > turn.baseDeadline then now - turn.baseDeadline else 0;
        t.(banks := t.banks[i := if t.banks[i] > overage then t.banks[i] - overage else 0])
  }

  function Emptied(t: Timed, playerId: PlayerId): Timed {
    match B.IndexOfPlayer(t.hand.players, playerId)
    case None => t
    case Some(i) => if i < |t.banks| then t.(banks := t.banks[i := 0]) else t
  }

  // ----- Requests -----

  datatype Request =
    | CreateTable(newRules: TableRules)
    | SeatPlayer(playerId: PlayerId, seat: int, buyIn: int)
    | SitOut(playerId: PlayerId)
    | ReturnPlayer(playerId: PlayerId)
    | Leave(playerId: PlayerId)
    | StartHand(number: nat, deckRoot: D.Digest)
    | Act(playerId: PlayerId, move: B.Move, bettingVersion: nat)
    | Timeout(bettingVersion: nat)
    | DealStreet(street: DealMaps.Street, shown: seq<D.Reveal>)
    | DealRunout(shown: seq<D.Reveal>)
    | FinishHand(record: F.PublicRecord, serverSeed: nat, playerSeeds: seq<F.Seed>)

  predicate ValidRules(r: TableRules) {
    && 2 <= r.seats <= 9
    && 0 < r.smallBlind <= r.bigBlind <= U64_MAX
    && 0 <= r.ante <= U64_MAX
    && 0 < r.minimumBuyIn <= r.maximumBuyIn <= U64_MAX
    && 0 <= r.rakeBps <= 1000 && 0 <= r.rakeCap <= U64_MAX
    && 5000 <= r.actionClock <= 120_000 && 0 <= r.timeBank <= 300_000
    && 1 <= r.handsPerGame <= 20
  }

  function DecideSeat(s: State, playerId: PlayerId, seat: int, buyIn: int): Option<TableEvent> {
    if s.status != Waiting || s.rules.None? then None
    else
      var rules := s.rules.value;
      if !(0 <= seat < rules.seats) then None
      else if exists p :: p in s.seats && (p.seat == seat || p.playerId == playerId) then None
      else if !(0 < buyIn <= U64_MAX && rules.minimumBuyIn <= buyIn <= rules.maximumBuyIn) then None
      else Some(PlayerSeated(Seat(playerId, seat, buyIn, Seated, rules.timeBank, false, false)))
  }

  function DecidePresence(s: State, r: Request): Option<TableEvent>
    requires r.SitOut? || r.ReturnPlayer? || r.Leave?
  {
    match IndexOfId(s.seats, r.playerId)
    case None => None
    case Some(i) =>
      var p := s.seats[i];
      match r
      case SitOut(id) =>
        if p.status == SittingOut || p.sitOutNextHand then None
        else Some(PlayerSatOut(id, s.status == HandActive && InHand(s.current, id)))
      case ReturnPlayer(id) =>
        if p.stack > 0 && (p.status == SittingOut || p.sitOutNextHand) then Some(PlayerReturned(id)) else None
      case Leave(id) =>
        if s.status == HandActive && InHand(s.current, id) then Some(PlayerLeaving(id)) else Some(PlayerLeft(id))
  }

  function BanksOf(participants: seq<Seat>): (r: seq<int>)
    ensures |r| == |participants|
  {
    Map((p: Seat) => p.timeBank, participants)
  }

  function DecideStart(s: State, number: nat, deckRoot: D.Digest, now: int): Option<TableEvent> {
    match NextHandSetup(s)
    case None => None
    case Some(setup) =>
      if number != setup.number || s.rules.None? then None
      else match B.CreateBettingState(ConfigOf(s, setup))
        case Err(_) => None
        case Ok(hand) =>
          var timed := Timed(hand, BanksOf(Participants(s, setup)));
          match TurnFor(timed, s.rules.value.actionClock, now)
          case Err(_) => None
          case Ok(turn) => Some(HandStarted(number, setup.buttonSeat, setup.fairness, deckRoot, timed, turn))
  }

  /** The active hand, if the table has one and rules to play it by. */
  function Playable(s: State): Option<(CurrentHand, TableRules)> {
    if s.status == HandActive && s.current.Some? && s.rules.Some? then Some((s.current.value, s.rules.value)) else None
  }

  /** A stated target must be a positive 64-bit amount. */
  predicate ValidTarget(move: B.Move) {
    match move
    case Bet(to) => 0 < to <= U64_MAX
    case Raise(to) => 0 < to <= U64_MAX
    case _ => true
  }

  function DecideAct(s: State, playerId: PlayerId, move: B.Move, bettingVersion: nat, now: int): Option<TableEvent> {
    match Playable(s)
    case None => None
    case Some((hand, rules)) =>
      if hand.turn.None? || hand.turn.value.playerId != playerId then None
      else if hand.betting.hand.version != bettingVersion || now > hand.turn.value.deadline || !ValidTarget(move) then
        None
      else
        var charged := Consumed(hand.betting, hand.turn.value, now);
        match B.ApplyAction(charged.hand, B.Action(playerId, bettingVersion, move))
        case Err(_) => None
        case Ok(next) =>
          match TurnFor(charged.(hand := next), rules.actionClock, now)
          case Err(_) => None
          case Ok(turn) => Some(ActionApplied(charged.(hand := next), turn))
  }

  function DecideTimeout(s: State, bettingVersion: nat, now: int): Option<TableEvent> {
    match Playable(s)
    case None => None
    case Some((hand, rules)) =>
      if hand.turn.None? || hand.betting.hand.version != bettingVersion || now < hand.turn.value.deadline then None
      else
        var emptied := Emptied(hand.betting, hand.turn.value.playerId);
        match B.ApplyTimeout(emptied.hand, hand.turn.value.playerId, bettingVersion)
        case Err(_) => None
        case Ok(next) =>
          match TurnFor(emptied.(hand := next), rules.actionClock, now)
          case Err(_) => None
          case Ok(turn) => Some(ActionTimedOut(emptied.(hand := next), turn))
  }

  function PlanOf(rules: F.Rules): Result<DealMaps.Plan, DealMaps.PlanError> {
    DealMaps.DealPlan(rules.game, rules.seats, rules.buttonSeat, rules.boards)
  }

  function PhaseOf(street: DealMaps.Street): B.Phase {
    match street case Preflop => B.Preflop case Flop => B.Flop case Turn => B.Turn case River => B.River
  }

  function DecideStreet(s: State, street: DealMaps.Street, shown: seq<D.Reveal>, now: int): Option<TableEvent> {
    match Playable(s)
    case None => None
    case Some((hand, rules)) =>
      match PlanOf(hand.fairness)
      case Err(_) => None
      case Ok(plan) =>
        if street == DealMaps.Preflop || plan.boards == [] then None
        else match Dealing.VerifiedCards(shown, DealMaps.OnStreet(plan.boards[0], street), hand.deckRoot)
          case Err(_) => None
          case Ok(cards) =>
            match B.DealStreet(hand.betting.hand, hand.betting.hand.version, PhaseOf(street), cards)
            case Err(_) => None
            case Ok(next) =>
              match TurnFor(hand.betting.(hand := next), rules.actionClock, now)
              case Err(_) => None
              case Ok(turn) => Some(StreetDealt(shown, hand.betting.(hand := next), turn))
  }

  function DecideRunout(s: State, shown: seq<D.Reveal>): Option<TableEvent> {
    match Playable(s)
    case None => None
    case Some((hand, rules)) =>
      match PlanOf(hand.fairness)
      case Err(_) => None
      case Ok(plan) =>
        if plan.boards == [] then None
        else
          var positions := Dealing.BoardPositions(plan);
          var missing := if |hand.betting.hand.board| <= |positions| then positions[|hand.betting.hand.board|..]
                         else [];
          match Dealing.VerifiedCards(shown, missing, hand.deckRoot)
          case Err(_) => None
          case Ok(cards) =>
            match B.DealRemainingBoard(hand.betting.hand, hand.betting.hand.version, cards)
            case Err(_) => None
            case Ok(next) => Some(RunoutDealt(shown, hand.betting.(hand := next)))
  }

  // ----- Finishing a hand -----

  /** Every position a hand of that many players reads lies in the deck. */
  predicate DeckCovers(order: seq<int>, plan: DealMaps.Plan, seats: nat) {
    && plan.boards != []
    && InDeck(Dealing.BoardPositions(plan), |order|)
    && forall r :: 0 <= r < seats ==> r in plan.holeCards && InDeck(plan.holeCards[r], |order|)
  }

  predicate InDeck(positions: seq<int>, size: nat) {
    forall k :: 0 <= k < |positions| ==> 0 <= positions[k] < size
  }

  /** Each player's hole cards, by the player's rank in seat order. */
  function HolesOf(order: seq<int>, plan: DealMaps.Plan, players: seq<B.Player>): (holes: seq<seq<int>>)
    requires DeckCovers(order, plan, |players|)
    ensures |holes| == |players|
  {
    seq(|players|, i requires 0 <= i < |players| => HoleOf(order, plan, players, i))
  }

  function HoleOf(order: seq<int>, plan: DealMaps.Plan, players: seq<B.Player>, i: nat): seq<int>
    requires DeckCovers(order, plan, |players|) && i < |players|
  {
    Dealing.RankBelow(players, i);
    Dealing.CardsAt(order, plan.holeCards[Dealing.SeatRank(players, players[i].seat)])
  }

  function SettlementOf(h: B.Hand, holes: seq<seq<int>>, expectedBoard: seq<int>, rules: TableRules)
    : Result<Showdown.Outcome, Showdown.Failure>
    requires |holes| == |h.players|
  {
    var players := FinishedHands.Contenders(h.players, holes);
    if h.status == B.Complete then
      Showdown.SettleUncontested(players, h.buttonSeat, |h.board| >= 3, rules.rakeBps, rules.rakeCap)
    else Showdown.SettleShowdown(h.game, players, [expectedBoard], h.buttonSeat, rules.rakeBps, rules.rakeCap)
  }

  function StacksAfter(players: seq<B.Player>, payouts: Ledger): (r: seq<StackUpdate>)
    ensures |r| == |players|
  {
    seq(|players|, i requires 0 <= i < |players| =>
      StackUpdate(players[i].playerId, FinishedHands.StackAfter(players[i], payouts)))
  }

  /** The settled hand as an event, unless the stacks and rake fail to add up to the chips at the table. */
  function FinishEvent(h: B.Hand, o: Showdown.Outcome): Option<TableEvent> {
    if SumOf(B.ChipsOf, h.players) != FinishedHands.TotalAfter(h.players, o.payouts) + o.totalRake then None
    else Some(HandFinished(o.totalRake, StacksAfter(h.players, o.payouts)))
  }

  /** The hand number stands for the hand id, which enters every hash of that hand's audit. */
  type Dealers = nat -> F.Dealer

  function DecideFinish(dealers: Dealers, s: State, record: F.PublicRecord, serverSeed: nat,
      playerSeeds: seq<F.Seed>): Option<TableEvent> {
    match Playable(s)
    case None => None
    case Some((hand, rules)) =>
      var h := hand.betting.hand;
      if h.status != B.Complete && h.status != B.Showdown then None
      else if record.deckRoot != hand.deckRoot || record.rules != hand.fairness then None
      else match F.VerifyAudit(dealers(hand.number), record, serverSeed, playerSeeds)
        case None => None
        case Some(deck) =>
          match PlanOf(hand.fairness)
          case Err(_) => None
          case Ok(plan) =>
            if !DeckCovers(deck.order, plan, |h.players|) || !Dealing.CommittedBoard(deck.order, plan, h.board) then
              None
            else match SettlementOf(h, HolesOf(deck.order, plan, h.players), Dealing.BoardCards(deck.order, plan),
              rules)
              case Err(_) => None
              case Ok(o) => FinishEvent(h, o)
  }

  /** What the coordinator appends for a request, None where it throws. */
  function DecideOn(dealers: Dealers, s: State, r: Request, now: int): Option<TableEvent> {
    match r
    case CreateTable(rules) => if ValidRules(rules) then Some(TableCreated(rules)) else None
    case SeatPlayer(playerId, seat, buyIn) => DecideSeat(s, playerId, seat, buyIn)
    case SitOut(_) => DecidePresence(s, r)
    case ReturnPlayer(_) => DecidePresence(s, r)
    case Leave(_) => DecidePresence(s, r)
    case StartHand(number, deckRoot) => DecideStart(s, number, deckRoot, now)
    case Act(playerId, move, version) => DecideAct(s, playerId, move, version, now)
    case Timeout(version) => DecideTimeout(s, version, now)
    case DealStreet(street, shown) => DecideStreet(s, street, shown, now)
    case DealRunout(shown) => DecideRunout(s, shown)
    case FinishHand(record, serverSeed, playerSeeds) => DecideFinish(dealers, s, record, serverSeed, playerSeeds)
  }

  /** A request on a log; creating the table is decided without loading and commits only first. */
  function Decide(dealers: Dealers): EventLog.Decision<Request, TableEvent> {
    (log: seq<TableEvent>, r: Request, now: int) =>
      if r.CreateTable? && log != [] then None
      else match Reduce(log)
        case Err(_) => None
        case Ok(s) => DecideOn(dealers, s, r, now)
  }
}
