/**
 * The betting state as server/poker/betting.js keeps it: an object cloned from its predecessor and
 * then updated field by field. Every operation is proved against the rules in module Betting.
 */
module BettingMachine {
  import opened Wrappers
  import opened Seqs
  import opened Games
  import opened Betting

  // ----- The stages the operations go through -----

  /** The state before any chip is posted. */
  function Blank(c: Config): Hand {
    Hand(0, c.handId, c.game, Preflop, Status.Betting, None, c.buttonSeat, 0, 0, c.smallBlind, c.bigBlind, c.ante,
         None, 0, c.bigBlind, [], None, [], None, Map(Seated, c.players))
  }

  function Blinded(c: Config): Hand {
    Blank(c).(smallBlindSeat := SmallBlindSeat(c), bigBlindSeat := BigBlindSeat(c), currentBet := c.bigBlind,
              players := AfterBlinds(c))
  }

  function Asked(h: Hand): Result<Hand, Error> {
    match FirstActor(h)
    case Some(seat) => Ok(h.(actionSeat := Some(seat)))
    case None => Betting.FinishOrAdvance(h, h.bigBlindSeat)
  }

  function Acted(h: Hand, legal: Legal, move: Move): Result<Hand, Error>
    requires legal.index < |h.players|
  {
    var enacted :- Enact(h, legal, move);
    Advanced(enacted, h.players[legal.index].seat)
  }

  function Advanced(h: Hand, actorSeat: int): Result<Hand, Error> {
    Betting.FinishOrAdvance(h.(version := h.version + 1), actorSeat)
  }

  function StreetBegun(h: Hand, street: Phase, cards: seq<int>): Hand {
    var players := Map(NewStreet, h.players);
    var first := NextSeat(players, h.buttonSeat, Actionable);
    h.(version := h.version + 1, phase := street, pendingStreet := None, board := h.board + cards,
       currentBet := 0, lastFullRaise := h.bigBlind, acted := [], players := players, actionSeat := first,
       status := if first.Some? then Status.Betting else if street == River then Showdown else AwaitingRunout)
  }

  lemma {:induction false} AntesByPlayer(c: Config, ps: seq<Player>)
    requires ps == if c.ante > 0 then Map((p: Player) => PayAnte(p, c.ante), Map(Seated, c.players))
                   else Map(Seated, c.players)
    ensures ps == AfterAntes(c)
  {
  }

  lemma {:induction false} CreateInSteps(c: Config)
    ensures CreateBettingState(c) ==
      if CheckConfig(c).Err? then Err(CheckConfig(c).error)
      else if c.straddle.Some? && CheckStraddle(c, c.straddle.value).Err? then
        Err(CheckStraddle(c, c.straddle.value).error)
      else Asked(Opened(c))
    ensures c.straddle.None? ==> Opened(c) == Blinded(c)
  {
  }

  lemma {:induction false} ActionInSteps(h: Hand, a: Action)
    ensures Betting.ApplyAction(h, a) ==
      if a.expectedVersion != h.version then Err(VersionConflict)
      else match LegalActions(h, a.playerId)
        case Err(e) => Err(e)
        case Ok(legal) => Acted(h, legal, a.move)
  {
    hide Betting.FinishOrAdvance;
  }

  class BettingState {
    var version: nat
    const handId: nat
    const game: Game
    var phase: Phase
    var status: Status
    var pendingStreet: Option<Phase>
    const buttonSeat: int
    var smallBlindSeat: int
    var bigBlindSeat: int
    const smallBlind: int
    const bigBlind: int
    const ante: int
    var straddle: Option<Straddle>
    var currentBet: int
    var lastFullRaise: int
    var acted: seq<PlayerId>
    var actionSeat: Option<int>
    var board: seq<int>
    var winner: Option<PlayerId>
    var players: seq<Player>

    /** The hand this object currently stands for. */
    function View(): Hand
      reads this
    {
      Hand(version, handId, game, phase, status, pendingStreet, buttonSeat, smallBlindSeat, bigBlindSeat,
           smallBlind, bigBlind, ante, straddle, currentBet, lastFullRaise, acted, actionSeat, board, winner, players)
    }

    constructor (h: Hand)
      ensures View() == h
    {
      version, handId, game, phase, status := h.version, h.handId, h.game, h.phase, h.status;
      pendingStreet, buttonSeat, smallBlindSeat, bigBlindSeat := h.pendingStreet, h.buttonSeat, h.smallBlindSeat,
        h.bigBlindSeat;
      smallBlind, bigBlind, ante, straddle := h.smallBlind, h.bigBlind, h.ante, h.straddle;
      currentBet, lastFullRaise, acted, actionSeat := h.currentBet, h.lastFullRaise, h.acted, h.actionSeat;
      board, winner, players := h.board, h.winner, h.players;
    }

    // ----- Opening -----

    method PostAntes()
      modifies this`players
      ensures players == Map((p: Player) => PayAnte(p, ante), old(players))
    {
      var i := 0;
      while i < |players|
        invariant 0 <= i <= |players| == |old(players)|
        invariant forall k :: 0 <= k < i ==> players[k] == PayAnte(old(players)[k], ante)
        invariant forall k :: i <= k < |players| ==> players[k] == old(players)[k]
      {
        players := players[i := PayAnte(players[i], ante)];
        i := i + 1;
      }
    }

    method PostBlind(seat: int, amount: int)
      modifies this`players
      ensures players == PostAt(old(players), seat, amount)
    {
      var found := IndexOfSeat(players, seat);
      if found.Some? {
        players := players[found.value := PostForcedBet(players[found.value], amount)];
      }
    }

    /** Antes, blinds and the nominal big blind as the bet to match. */
    method PostForcedBets(c: Config)
      requires View() == Blank(c)
      modifies this`players, this`smallBlindSeat, this`bigBlindSeat, this`currentBet
      ensures View() == Blinded(c)
    {
      hide PostAt, SeatAfter, AfterAntes, Map;
      if c.ante > 0 {
        PostAntes();
      }
      AntesByPlayer(c, players);
      smallBlindSeat := if |c.players| == 2 then c.buttonSeat else SeatAfter(players, c.buttonSeat);
      bigBlindSeat := SeatAfter(players, smallBlindSeat);
      PostBlind(smallBlindSeat, c.smallBlind);
      PostBlind(bigBlindSeat, c.bigBlind);
      currentBet := c.bigBlind;
    }

    method PostStraddle(c: Config, s: Straddle)
      requires View() == Blinded(c) && c.straddle == Some(s)
      modifies this`players, this`straddle, this`currentBet, this`lastFullRaise
      ensures View() == Opened(c)
    {
      PostBlind(s.seat, s.amount);
      straddle := Some(s);
      currentBet := s.amount;
      lastFullRaise := s.amount - c.bigBlind;
    }

    method AskFirst() returns (r: Result<(), Error>)
      modifies this`status, this`winner, this`actionSeat, this`pendingStreet
      ensures match Asked(old(View()))
        case Ok(h) => r.Ok? && View() == h
        case Err(e) => r == Err(e)
    {
      var first := FirstActor(View());
      if first.Some? {
        actionSeat := first;
        return Ok(());
      }
      r := FinishOrAdvance(bigBlindSeat);
    }

    static method Create(c: Config) returns (r: Result<BettingState, Error>)
      ensures match CreateBettingState(c)
        case Ok(h) => r.Ok? && fresh(r.value) && r.value.View() == h
        case Err(e) => r == Err(e)
    {
      CreateInSteps(c);
      var checked := CheckConfig(c);
      if checked.Err? {
        return Err(checked.error);
      }
      var state := new BettingState(Blank(c));
      state.PostForcedBets(c);
      if c.straddle.Some? {
        var fits := CheckStraddle(c, c.straddle.value);
        if fits.Err? {
          return Err(fits.error);
        }
        state.PostStraddle(c, c.straddle.value);
      }
      var asked := state.AskFirst();
      if asked.Err? {
        return Err(asked.error);
      }
      return Ok(state);
    }

    // ----- Acting -----

    /** Moves chips from the stack of player `i` until the street contribution reaches `target`. */
    method Pay(i: nat, target: int)
      requires i < |players|
      modifies this`players
      ensures players == old(players)[i := PayTo(old(players)[i], target)]
    {
      var p := players[i];
      var amount := target - p.street;
      p := p.(stack := p.stack - amount);
      p := p.(street := p.street + amount);
      p := p.(contributed := p.contributed + amount);
      p := p.(allIn := p.stack == 0);
      players := players[i := p];
    }

    method MarkActed(playerId: PlayerId)
      modifies this`acted
      ensures acted == AddActed(old(acted), playerId)
    {
      if playerId !in acted {
        acted := acted + [playerId];
      }
    }

    method ApplyIncrease(legal: Legal, target: int) returns (r: Result<(), Error>)
      requires legal.index < |players|
      modifies this`players, this`currentBet, this`lastFullRaise, this`acted
      ensures match Increase(old(View()), legal, target)
        case Ok(h) => r.Ok? && View() == h
        case Err(e) => r == Err(e)
    {
      if target <= currentBet { return Err(NotAnIncrease); }
      if target > legal.maximumTarget { return Err(AboveMaximum); }
      if !legal.raiseRightsOpen { return Err(NotReopened); }
      if target < legal.minimumTarget && target != legal.allInTarget { return Err(BelowMinimum); }
      var playerId := players[legal.index].playerId;
      var previousBet := currentBet;
      var raiseSize := target - previousBet;
      Pay(legal.index, target);
      currentBet := target;
      var fullRaise := if previousBet == 0 then target >= bigBlind else raiseSize >= lastFullRaise;
      if fullRaise {
        lastFullRaise := if previousBet == 0 then target else raiseSize;
        acted := [playerId];
      } else {
        MarkActed(playerId);
      }
      return Ok(());
    }

    method Perform(legal: Legal, move: Move) returns (r: Result<(), Error>)
      requires legal.index < |players|
      modifies this`players, this`currentBet, this`lastFullRaise, this`acted
      ensures match Enact(old(View()), legal, move)
        case Ok(h) => r.Ok? && View() == h
        case Err(e) => r == Err(e)
    {
      var i := legal.index;
      var playerId := players[i].playerId;
      match move {
        case Fold =>
          if !legal.canFold { return Err(FoldIllegal); }
          players := players[i := players[i].(folded := true)];
          MarkActed(playerId);
        case Check =>
          if !legal.canCheck { return Err(CheckIllegal); }
          MarkActed(playerId);
        case Call =>
          if !legal.canCall { return Err(CallIllegal); }
          Pay(i, players[i].street + legal.callAmount);
          MarkActed(playerId);
        case Bet(to) =>
          if !legal.canBet { return Err(BetIllegal); }
          r := ApplyIncrease(legal, to);
          return;
        case Raise(to) =>
          if !legal.canRaise { return Err(RaiseIllegal); }
          r := ApplyIncrease(legal, to);
          return;
        case AllIn =>
          if legal.allInTarget <= currentBet {
            Pay(i, legal.allInTarget);
            MarkActed(playerId);
          } else {
            r := ApplyIncrease(legal, legal.allInTarget);
            return;
          }
        case Unknown =>
          return Err(UnsupportedAction);
      }
      return Ok(());
    }

    method FinishOrAdvance(actorSeat: int) returns (r: Result<(), Error>)
      modifies this`status, this`winner, this`actionSeat, this`pendingStreet
      ensures match Betting.FinishOrAdvance(old(View()), actorSeat)
        case Ok(h) => r.Ok? && View() == h
        case Err(e) => r == Err(e)
    {
      var remaining := Filter(Active, players);
      if |remaining| == 1 {
        status := Complete;
        winner := Some(remaining[0].playerId);
        actionSeat := None;
        return Ok(());
      }
      var canAct := Filter(Actionable, players);
      if |canAct| == 0 {
        status := AwaitingRunout;
        actionSeat := None;
        return Ok(());
      }
      if |canAct| == 1 && canAct[0].street == currentBet {
        status := if phase == River then Showdown else AwaitingRunout;
        actionSeat := None;
        return Ok(());
      }
      var hand := View();
      if forall p :: p in canAct ==> Settled(hand, p) {
        actionSeat := None;
        if phase == River {
          status := Showdown;
        } else {
          status := AwaitingDeal;
          pendingStreet := Some(NextPhase(phase));
        }
        return Ok(());
      }
      var next := NextSeat(players, actorSeat, (p: Player) => Pending(hand, p));
      if next.None? {
        return Err(NoNextActor);
      }
      actionSeat := next;
      return Ok(());
    }

    method Advance(actorSeat: int) returns (r: Result<(), Error>)
      modifies this`version, this`status, this`winner, this`actionSeat, this`pendingStreet
      ensures match Advanced(old(View()), actorSeat)
        case Ok(h) => r.Ok? && View() == h
        case Err(e) => r == Err(e)
    {
      hide Betting.FinishOrAdvance;
      ghost var next := View().(version := version + 1);
      version := version + 1;
      assert View() == next;
      r := FinishOrAdvance(actorSeat);
    }

    /** The move and the judgement of the street, on the clone. */
    method Act(legal: Legal, move: Move) returns (r: Result<(), Error>)
      requires legal.index < |players|
      modifies this`version, this`players, this`currentBet, this`lastFullRaise, this`acted
      modifies this`status, this`winner, this`actionSeat, this`pendingStreet
      ensures match Acted(old(View()), legal, move)
        case Ok(h) => r.Ok? && View() == h
        case Err(e) => r == Err(e)
    {
      var actorSeat := players[legal.index].seat;
      r := Perform(legal, move);
      if r.Ok? {
        r := Advance(actorSeat);
      }
    }

    /** A clone of the input with the action applied; the input itself is left as it was. */
    static method ApplyAction(input: BettingState, a: Action) returns (r: Result<BettingState, Error>)
      ensures match Betting.ApplyAction(input.View(), a)
        case Ok(h) => r.Ok? && fresh(r.value) && r.value.View() == h
        case Err(e) => r == Err(e)
    {
      ActionInSteps(input.View(), a);
      if a.expectedVersion != input.version {
        return Err(VersionConflict);
      }
      var state := new BettingState(input.View());
      var found := LegalActions(state.View(), a.playerId);
      if found.Err? {
        return Err(found.error);
      }
      var acted := state.Act(found.value, a.move);
      if acted.Err? {
        return Err(acted.error);
      }
      return Ok(state);
    }

    static method ApplyTimeout(input: BettingState, playerId: PlayerId, expectedVersion: nat)
      returns (r: Result<BettingState, Error>)
      ensures match Betting.ApplyTimeout(input.View(), playerId, expectedVersion)
        case Ok(h) => r.Ok? && fresh(r.value) && r.value.View() == h
        case Err(e) => r == Err(e)
    {
      var found := LegalActions(input.View(), playerId);
      if found.Err? {
        return Err(found.error);
      }
      r := ApplyAction(input, Action(playerId, expectedVersion, if found.value.canCheck then Check else Fold));
    }

    // ----- Dealing -----

    static method DealStreet(input: BettingState, expectedVersion: nat, street: Phase, cards: seq<int>)
      returns (r: Result<BettingState, Error>)
      ensures match Betting.DealStreet(input.View(), expectedVersion, street, cards)
        case Ok(h) => r.Ok? && fresh(r.value) && r.value.View() == h
        case Err(e) => r == Err(e)
    {
      if expectedVersion != input.version { return Err(VersionConflict); }
      if input.status != AwaitingDeal { return Err(NotAwaitingDeal); }
      if input.pendingStreet != Some(street) { return Err(UnexpectedStreet); }
      if |cards| != (if street == Flop then 3 else 1) { return Err(WrongCardCount); }
      if !ValidCards(cards) { return Err(InvalidCard); }
      if !Distinct(input.board + cards) { return Err(DuplicateCard); }
      var state := new BettingState(input.View());
      state.BeginStreet(street, cards);
      return Ok(state);
    }

    method BeginStreet(street: Phase, cards: seq<int>)
      modifies this
      ensures View() == StreetBegun(old(View()), street, cards)
    {
      TurnCards(street, cards);
      var first := NextSeat(players, buttonSeat, Actionable);
      actionSeat := first;
      if first.None? {
        status := if street == River then Showdown else AwaitingRunout;
      }
    }

    method TurnCards(street: Phase, cards: seq<int>)
      modifies this
      ensures View() == old(View()).(
        version := old(version) + 1, phase := street, status := Status.Betting, pendingStreet := None,
        board := old(board) + cards, currentBet := 0, lastFullRaise := bigBlind, acted := [],
        players := Map(NewStreet, old(players)))
    {
      hide Map;
      version, phase, status, pendingStreet := version + 1, street, Status.Betting, None;
      board := board + cards;
      ClearBets();
    }

    method ClearBets()
      modifies this`currentBet, this`lastFullRaise, this`acted, this`players
      ensures currentBet == 0 && lastFullRaise == bigBlind && acted == []
      ensures players == Map(NewStreet, old(players))
    {
      currentBet := 0;
      lastFullRaise := bigBlind;
      acted := [];
      ClearStreet();
    }

    method ClearStreet()
      modifies this`players
      ensures players == Map(NewStreet, old(players))
    {
      var i := 0;
      while i < |players|
        invariant 0 <= i <= |players| == |old(players)|
        invariant forall k :: 0 <= k < i ==> players[k] == NewStreet(old(players)[k])
        invariant forall k :: i <= k < |players| ==> players[k] == old(players)[k]
      {
        players := players[i := players[i].(street := 0)];
        i := i + 1;
      }
    }

    static method DealRemainingBoard(input: BettingState, expectedVersion: nat, cards: seq<int>)
      returns (r: Result<BettingState, Error>)
      ensures match Betting.DealRemainingBoard(input.View(), expectedVersion, cards)
        case Ok(h) => r.Ok? && fresh(r.value) && r.value.View() == h
        case Err(e) => r == Err(e)
    {
      if expectedVersion != input.version { return Err(VersionConflict); }
      if input.status != AwaitingRunout { return Err(NotAwaitingRunout); }
      if |cards| != 5 - |input.board| { return Err(WrongCardCount); }
      if !ValidCards(cards) { return Err(InvalidCard); }
      if !Distinct(input.board + cards) { return Err(DuplicateCard); }
      var state := new BettingState(input.View());
      state.version := state.version + 1;
      state.board := state.board + cards;
      state.phase := River;
      state.status := Showdown;
      state.actionSeat := None;
      return Ok(state);
    }
  }
}
