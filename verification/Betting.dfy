/**
 * The betting rules of server/poker/betting.js as functions on immutable hands.
 * BettingMachine runs the same rules on an object that is updated in place.
 */
module Betting {
  import opened Wrappers
  import opened Seqs
  import opened Seats
  import opened Games

  type PlayerId = nat

  datatype Phase = Preflop | Flop | Turn | River
  datatype Status = Betting | AwaitingDeal | AwaitingRunout | Showdown | Complete

  datatype Player = Player(
    playerId: PlayerId,
    seat: int,
    stack: int,
    street: int,
    contributed: int,
    folded: bool,
    allIn: bool
  )

  datatype Straddle = Straddle(seat: int, amount: int)

  datatype Hand = Hand(
    version: nat,
    handId: nat,
    game: Game,
    phase: Phase,
    status: Status,
    pendingStreet: Option<Phase>,
    buttonSeat: int,
    smallBlindSeat: int,
    bigBlindSeat: int,
    smallBlind: int,
    bigBlind: int,
    ante: int,
    straddle: Option<Straddle>,
    currentBet: int,
    lastFullRaise: int,
    acted: seq<PlayerId>,
    actionSeat: Option<int>,
    board: seq<int>,
    winner: Option<PlayerId>,
    players: seq<Player>
  )

  datatype Error =
    | PlayerCount | DuplicatePlayer | DuplicateSeat | ButtonNotActive
    | BadSmallBlind | BadBigBlind | BadAnte | BadStack | BadSeat
    | StraddleTooFewPlayers | StraddleTooSmall | StraddleWrongSeat | StraddleNotCovered
    | VersionConflict | NotBetting | NotInHand | OutOfTurn
    | FoldIllegal | CheckIllegal | CallIllegal | BetIllegal | RaiseIllegal
    | NotAnIncrease | AboveMaximum | NotReopened | BelowMinimum | UnsupportedAction
    | NoNextActor
    | NotAwaitingDeal | UnexpectedStreet | NotAwaitingRunout
    | WrongCardCount | InvalidCard | DuplicateCard

  // ----- Seats and players -----

  function StackOf(p: Player): int { p.stack }

  function ContributedOf(p: Player): int { p.contributed }

  function ChipsOf(p: Player): int { p.stack + p.contributed }

  predicate Active(p: Player) { !p.folded }

  predicate Actionable(p: Player) { !p.folded && !p.allIn }

  predicate AnyPlayer(p: Player) { true }

  function SeatOfPlayer(p: Player): int { p.seat }

  function NextSeat(ps: seq<Player>, after: int, pred: Player -> bool): Option<int> {
    var order := Clockwise(SeatOfPlayer, ps, after);
    match IndexWhere(pred, order)
    case None => None
    case Some(i) => Some(order[i].seat)
  }

  function IndexOfSeat(ps: seq<Player>, seat: int): Option<nat> {
    IndexWhere((p: Player) => p.seat == seat, ps)
  }

  function IndexOfPlayer(ps: seq<Player>, playerId: PlayerId): Option<nat> {
    IndexWhere((p: Player) => p.playerId == playerId, ps)
  }

  function PotSize(ps: seq<Player>): int { SumOf(ContributedOf, ps) }

  function ToCall(h: Hand, p: Player): int {
    if h.currentBet > p.street then h.currentBet - p.street else 0
  }

  predicate Pending(h: Hand, p: Player) {
    Actionable(p) && (p.street < h.currentBet || p.playerId !in h.acted)
  }

  predicate Settled(h: Hand, p: Player) {
    p.street == h.currentBet && p.playerId in h.acted
  }

  function AddActed(acted: seq<PlayerId>, playerId: PlayerId): seq<PlayerId> {
    if playerId in acted then acted else acted + [playerId]
  }

  function NextPhase(phase: Phase): Phase {
    match phase case Preflop => Flop case Flop => Turn case _ => River
  }

  // ----- Opening a hand -----

  datatype Entrant = Entrant(playerId: PlayerId, seat: int, stack: int)

  datatype Config = Config(
    handId: nat,
    game: Game,
    players: seq<Entrant>,
    buttonSeat: int,
    smallBlind: int,
    bigBlind: int,
    ante: int,
    straddle: Option<Straddle>
  )

  function PayAnte(p: Player, amount: int): Player {
    var paid := Min(p.stack, amount);
    p.(stack := p.stack - paid, contributed := p.contributed + paid, allIn := p.stack - paid == 0)
  }

  function PostForcedBet(p: Player, amount: int): Player {
    var paid := Min(p.stack, amount);
    p.(stack := p.stack - paid, street := p.street + paid, contributed := p.contributed + paid,
       allIn := p.stack - paid == 0)
  }

  function PostAt(ps: seq<Player>, seat: int, amount: int): (r: seq<Player>)
    ensures |r| == |ps|
  {
    match IndexOfSeat(ps, seat)
    case None => ps
    case Some(i) => ps[i := PostForcedBet(ps[i], amount)]
  }

  function Seated(e: Entrant): Player {
    Player(e.playerId, e.seat, e.stack, 0, 0, false, false)
  }

  function IdOf(e: Entrant): PlayerId { e.playerId }

  function SeatOf(e: Entrant): int { e.seat }

  function CheckConfig(c: Config): Result<(), Error> {
    if !(2 <= |c.players| <= 9) then Err(PlayerCount)
    else if !Distinct(Map(IdOf, c.players)) then Err(DuplicatePlayer)
    else if !Distinct(Map(SeatOf, c.players)) then Err(DuplicateSeat)
    else if forall e :: e in c.players ==> e.seat != c.buttonSeat then Err(ButtonNotActive)
    else if c.smallBlind <= 0 then Err(BadSmallBlind)
    else if c.bigBlind < c.smallBlind then Err(BadBigBlind)
    else if c.ante < 0 then Err(BadAnte)
    else match IndexWhere((e: Entrant) => e.stack <= 0 || !(0 <= e.seat <= 8), c.players)
      case None => Ok(())
      case Some(i) => Err(if c.players[i].stack <= 0 then BadStack else BadSeat)
  }

  function AfterAntes(c: Config): (r: seq<Player>)
    ensures |r| == |c.players|
  {
    Map((e: Entrant) => if c.ante > 0 then PayAnte(Seated(e), c.ante) else Seated(e), c.players)
  }

  function SeatAfter(ps: seq<Player>, after: int): int {
    match NextSeat(ps, after, AnyPlayer) case None => after case Some(s) => s
  }

  function SmallBlindSeat(c: Config): int {
    if |c.players| == 2 then c.buttonSeat else SeatAfter(AfterAntes(c), c.buttonSeat)
  }

  function BigBlindSeat(c: Config): int {
    SeatAfter(AfterAntes(c), SmallBlindSeat(c))
  }

  function AfterBlinds(c: Config): (r: seq<Player>)
    ensures |r| == |c.players|
  {
    PostAt(PostAt(AfterAntes(c), SmallBlindSeat(c), c.smallBlind), BigBlindSeat(c), c.bigBlind)
  }

  function CheckStraddle(c: Config, s: Straddle): Result<(), Error> {
    if |c.players| < 3 then Err(StraddleTooFewPlayers)
    else if s.amount < 2 * c.bigBlind then Err(StraddleTooSmall)
    else if NextSeat(AfterBlinds(c), BigBlindSeat(c), Active) != Some(s.seat) then Err(StraddleWrongSeat)
    else match IndexOfSeat(AfterBlinds(c), s.seat)
      case None => Err(StraddleWrongSeat)
      case Some(i) => if AfterBlinds(c)[i].stack < s.amount then Err(StraddleNotCovered) else Ok(())
  }

  function AfterStraddle(c: Config, ps: seq<Player>): (r: seq<Player>)
    ensures |r| == |ps|
  {
    match c.straddle case None => ps case Some(s) => PostAt(ps, s.seat, s.amount)
  }

  /** The hand once all forced bets are posted, before anyone is asked to act. */
  function Opened(c: Config): Hand {
    Hand(
      0, c.handId, c.game, Preflop, Betting, None, c.buttonSeat, SmallBlindSeat(c), BigBlindSeat(c),
      c.smallBlind, c.bigBlind, c.ante, c.straddle,
      match c.straddle case None => c.bigBlind case Some(s) => s.amount,
      match c.straddle case None => c.bigBlind case Some(s) => s.amount - c.bigBlind,
      [], None, [], None, AfterStraddle(c, AfterBlinds(c)))
  }

  function FirstActor(h: Hand): Option<int> {
    var smallBlindCanAct := exists p :: p in h.players && p.seat == h.smallBlindSeat && Actionable(p);
    if |h.players| == 2 && smallBlindCanAct then Some(h.smallBlindSeat)
    else NextSeat(h.players, match h.straddle case None => h.bigBlindSeat case Some(s) => s.seat, Actionable)
  }

  function CreateBettingState(c: Config): Result<Hand, Error> {
    var _ :- CheckConfig(c);
    var _ :- match c.straddle case None => Ok(()) case Some(s) => CheckStraddle(c, s);
    var h := Opened(c);
    match FirstActor(h)
    case Some(seat) => Ok(h.(actionSeat := Some(seat)))
    case None => FinishOrAdvance(h, h.bigBlindSeat)
  }

  // ----- What the actor may do -----

  function MaximumTarget(h: Hand, p: Player): int {
    var available := p.street + p.stack;
    if h.game == NLH then available
    else
      var callPaid := Min(ToCall(h, p), p.stack);
      Min(p.street + callPaid + (PotSize(h.players) + callPaid), available)
  }

  datatype Legal = Legal(
    index: nat,
    toCall: int,
    callAmount: int,
    canFold: bool,
    canCheck: bool,
    canCall: bool,
    canBet: bool,
    canRaise: bool,
    raiseRightsOpen: bool,
    minimumTarget: int,
    maximumTarget: int,
    allInTarget: int
  )

  function LegalFor(h: Hand, i: nat): (r: Legal)
    requires i < |h.players|
    ensures r.index == i
  {
    var p := h.players[i];
    var toCall := ToCall(h, p);
    var available := p.street + p.stack;
    var maximum := MaximumTarget(h, p);
    var open := p.playerId !in h.acted;
    var opening := h.currentBet == 0;
    var canIncrease := available > h.currentBet && maximum > h.currentBet && open;
    Legal(i, toCall, Min(toCall, p.stack), toCall > 0, toCall == 0, toCall > 0,
          opening && canIncrease, !opening && canIncrease, open,
          if opening then h.bigBlind else h.currentBet + h.lastFullRaise, maximum, available)
  }

  function LegalActions(h: Hand, playerId: PlayerId): (r: Result<Legal, Error>)
    ensures r.Ok? ==> r.value.index < |h.players|
                      && h.players[r.value.index].playerId == playerId
                      && h.actionSeat == Some(h.players[r.value.index].seat)
                      && r.value == LegalFor(h, r.value.index)
                      && h.status == Betting
  {
    if h.status != Betting then Err(NotBetting)
    else match IndexOfPlayer(h.players, playerId)
      case None => Err(NotInHand)
      case Some(i) =>
        if h.actionSeat != Some(h.players[i].seat) then Err(OutOfTurn) else Ok(LegalFor(h, i))
  }

  // ----- Acting -----

  datatype Move = Fold | Check | Call | Bet(to: int) | Raise(to: int) | AllIn | Unknown

  datatype Action = Action(playerId: PlayerId, expectedVersion: nat, move: Move)

  function PayTo(p: Player, target: int): Player {
    var amount := target - p.street;
    p.(stack := p.stack - amount, street := p.street + amount,
       contributed := p.contributed + amount, allIn := p.stack - amount == 0)
  }

  function WithPlayer(h: Hand, i: nat, p: Player): Hand
    requires i < |h.players|
  {
    h.(players := h.players[i := p])
  }

  predicate IsFullRaise(h: Hand, target: int) {
    if h.currentBet == 0 then target >= h.bigBlind else target - h.currentBet >= h.lastFullRaise
  }

  function Increase(h: Hand, legal: Legal, target: int): Result<Hand, Error>
    requires legal.index < |h.players|
  {
    var p := h.players[legal.index];
    if target <= h.currentBet then Err(NotAnIncrease)
    else if target > legal.maximumTarget then Err(AboveMaximum)
    else if !legal.raiseRightsOpen then Err(NotReopened)
    else if target < legal.minimumTarget && target != legal.allInTarget then Err(BelowMinimum)
    else
      var paid := WithPlayer(h, legal.index, PayTo(p, target)).(currentBet := target);
      Ok(if IsFullRaise(h, target)
         then paid.(lastFullRaise := if h.currentBet == 0 then target else target - h.currentBet,
                    acted := [p.playerId])
         else paid.(acted := AddActed(h.acted, p.playerId)))
  }

  /** The effect of a move on bets and flags, before the round is judged finished or not. */
  function Enact(h: Hand, legal: Legal, move: Move): Result<Hand, Error>
    requires legal.index < |h.players|
  {
    var i := legal.index;
    var p := h.players[i];
    var marked := h.(acted := AddActed(h.acted, p.playerId));
    match move
    case Fold =>
      if !legal.canFold then Err(FoldIllegal) else Ok(WithPlayer(marked, i, p.(folded := true)))
    case Check =>
      if !legal.canCheck then Err(CheckIllegal) else Ok(marked)
    case Call =>
      if !legal.canCall then Err(CallIllegal)
      else Ok(WithPlayer(marked, i, PayTo(p, p.street + legal.callAmount)))
    case Bet(to) =>
      if !legal.canBet then Err(BetIllegal) else Increase(h, legal, to)
    case Raise(to) =>
      if !legal.canRaise then Err(RaiseIllegal) else Increase(h, legal, to)
    case AllIn =>
      if legal.allInTarget <= h.currentBet then Ok(WithPlayer(marked, i, PayTo(p, legal.allInTarget)))
      else Increase(h, legal, legal.allInTarget)
    case Unknown => Err(UnsupportedAction)
  }

  function FinishOrAdvance(h: Hand, actorSeat: int): Result<Hand, Error> {
    var remaining := Filter(Active, h.players);
    if |remaining| == 1 then
      Ok(h.(status := Complete, winner := Some(remaining[0].playerId), actionSeat := None))
    else
      var canAct := Filter(Actionable, h.players);
      if |canAct| == 0 then
        Ok(h.(status := AwaitingRunout, actionSeat := None))
      else if |canAct| == 1 && canAct[0].street == h.currentBet then
        Ok(h.(status := if h.phase == River then Showdown else AwaitingRunout, actionSeat := None))
      else if forall p :: p in canAct ==> Settled(h, p) then
        Ok(if h.phase == River then h.(status := Showdown, actionSeat := None)
           else h.(status := AwaitingDeal, actionSeat := None, pendingStreet := Some(NextPhase(h.phase))))
      else
        match NextSeat(h.players, actorSeat, (p: Player) => Pending(h, p))
        case None => Err(NoNextActor)
        case Some(seat) => Ok(h.(actionSeat := Some(seat)))
  }

  function ApplyAction(h: Hand, a: Action): Result<Hand, Error> {
    if a.expectedVersion != h.version then Err(VersionConflict)
    else
      var legal :- LegalActions(h, a.playerId);
      var enacted :- Enact(h, legal, a.move);
      FinishOrAdvance(enacted.(version := h.version + 1), h.players[legal.index].seat)
  }

  function ApplyTimeout(h: Hand, playerId: PlayerId, expectedVersion: nat): Result<Hand, Error> {
    var legal :- LegalActions(h, playerId);
    ApplyAction(h, Action(playerId, expectedVersion, if legal.canCheck then Check else Fold))
  }

  // ----- Dealing -----

  predicate ValidCards(cards: seq<int>) {
    forall c :: c in cards ==> 0 <= c < 52
  }

  function NewStreet(p: Player): Player { p.(street := 0) }

  function DealStreet(h: Hand, expectedVersion: nat, street: Phase, cards: seq<int>): Result<Hand, Error> {
    if expectedVersion != h.version then Err(VersionConflict)
    else if h.status != AwaitingDeal then Err(NotAwaitingDeal)
    else if h.pendingStreet != Some(street) then Err(UnexpectedStreet)
    else if |cards| != (if street == Flop then 3 else 1) then Err(WrongCardCount)
    else if !ValidCards(cards) then Err(InvalidCard)
    else if !Distinct(h.board + cards) then Err(DuplicateCard)
    else
      var dealt := h.(
        version := h.version + 1, phase := street, status := Betting, pendingStreet := None,
        board := h.board + cards, currentBet := 0, lastFullRaise := h.bigBlind, acted := [],
        players := Map(NewStreet, h.players));
      Ok(match NextSeat(dealt.players, h.buttonSeat, Actionable)
         case None => dealt.(actionSeat := None, status := if street == River then Showdown else AwaitingRunout)
         case Some(seat) => dealt.(actionSeat := Some(seat)))
  }

  function DealRemainingBoard(h: Hand, expectedVersion: nat, cards: seq<int>): Result<Hand, Error> {
    if expectedVersion != h.version then Err(VersionConflict)
    else if h.status != AwaitingRunout then Err(NotAwaitingRunout)
    else if |cards| != 5 - |h.board| then Err(WrongCardCount)
    else if !ValidCards(cards) then Err(InvalidCard)
    else if !Distinct(h.board + cards) then Err(DuplicateCard)
    else Ok(h.(version := h.version + 1, board := h.board + cards, phase := River,
               status := Showdown, actionSeat := None))
  }

  // ----- Runs -----

  /** Everything a caller can do to a hand. */
  datatype Step =
    | Act(action: Action)
    | TimeOut(playerId: PlayerId, expectedVersion: nat)
    | Street(expectedVersion: nat, street: Phase, cards: seq<int>)
    | Runout(expectedVersion: nat, cards: seq<int>)

  function Apply(h: Hand, s: Step): Result<Hand, Error> {
    match s
    case Act(action) => ApplyAction(h, action)
    case TimeOut(playerId, version) => ApplyTimeout(h, playerId, version)
    case Street(version, street, cards) => DealStreet(h, version, street, cards)
    case Runout(version, cards) => DealRemainingBoard(h, version, cards)
  }

  /** A run of accepted steps; a rejected step throws and changes nothing, so runs leave it out. */
  function Play(h: Hand, steps: seq<Step>): Result<Hand, Error>
    decreases |steps|
  {
    if steps == [] then Ok(h)
    else
      var next :- Apply(h, steps[0]);
      Play(next, steps[1..])
  }

  function PlayFrom(c: Config, steps: seq<Step>): Result<Hand, Error> {
    var h :- CreateBettingState(c);
    Play(h, steps)
  }
}
