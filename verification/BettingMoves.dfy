/**
 * What each accepted step does to chips, bets and turn, in the terms of the table: who pays how much,
 * what the bet to match becomes, when the round is over and whose turn is next.
 */
module BettingMoves {
  import opened Wrappers
  import opened Seqs
  import opened Seats
  import opened Betting
  import opened BettingInvariant
  import opened BettingOpening
  import opened BettingOrder
  import opened BettingProgress
  import opened BettingRuns

  // ----- Chips -----

  /** The player moves this many chips from the stack into the bet, and is all-in if none are left. */
  ghost predicate PutsIn(p: Player, q: Player, amount: int) {
    && 0 <= amount <= p.stack
    && q == Player(p.playerId, p.seat, p.stack - amount, p.street + amount, p.contributed + amount, p.folded,
                   p.stack == amount)
  }

  /** The effect of a move on the actor's chips and on the bet to match. */
  ghost predicate Moves(p: Player, q: Player, move: Move, bet: int, bet': int) {
    match move
    case Fold => p.street < bet && q == p.(folded := true) && bet' == bet
    case Check => p.street == bet && q == p && bet' == bet
    case Call => p.street < bet && PutsIn(p, q, Min(bet - p.street, p.stack)) && bet' == bet
    case Bet(to) => bet == 0 && to > 0 && PutsIn(p, q, to - p.street) && bet' == to
    case Raise(to) => bet > 0 && to > bet && PutsIn(p, q, to - p.street) && bet' == to
    case AllIn => PutsIn(p, q, p.stack) && bet' == (if p.street + p.stack > bet then p.street + p.stack else bet)
    case Unknown => false
  }

  /**
   * An accepted action is made at the version seen, by the player whose turn it is; it moves exactly the
   * chips its name says, leaves everybody else's alone, and touches neither board nor street.
   */
  lemma {:induction false} ActionEffect(h: Hand, f: Floor, a: Action, h': Hand) returns (i: nat)
    requires Invariant(h, f) && ApplyAction(h, a) == Ok(h')
    ensures h.status == Betting && a.expectedVersion == h.version
    ensures i < |h.players| == |h'.players| && h.players[i].playerId == a.playerId
    ensures h.actionSeat == Some(h.players[i].seat)
    ensures Moves(h.players[i], h'.players[i], a.move, h.currentBet, h'.currentBet)
    ensures forall j :: 0 <= j < |h.players| && j != i ==> h'.players[j] == h.players[j]
    ensures h'.phase == h.phase && h'.board == h.board && h'.straddle == h.straddle
  {
    hide Enact, FinishOrAdvance, LegalFor, Covered, Matched, Nominal, Board;
    var enacted;
    i, enacted := ActionParts(h, a, h');
    ActorIsPending(h, f, i);
    EnactEffect(h, i, a.move, enacted);
    FinishSameHand(enacted.(version := h.version + 1), h.players[i].seat, h');
  }

  /** Running out of time folds a hand that faces a bet and checks one that does not; no chip moves. */
  lemma {:induction false} TimeoutEffect(h: Hand, f: Floor, playerId: PlayerId, version: nat, h': Hand)
    returns (i: nat)
    requires Invariant(h, f) && ApplyTimeout(h, playerId, version) == Ok(h')
    ensures h.status == Betting && version == h.version
    ensures i < |h.players| && h.players[i].playerId == playerId && h.actionSeat == Some(h.players[i].seat)
    ensures h'.players == h.players[i := h.players[i].(folded := h.players[i].street < h.currentBet)]
    ensures h'.currentBet == h.currentBet && h'.phase == h.phase && h'.board == h.board
  {
    hide Enact, FinishOrAdvance, Covered, Matched, Nominal, Board;
    var legal := LegalActions(h, playerId).value;
    i := ActionEffect(h, f, Action(playerId, version, if legal.canCheck then Check else Fold), h');
    ActorIsPending(h, f, i);
  }

  lemma {:induction false} EnactEffect(h: Hand, i: nat, move: Move, h': Hand)
    requires i < |h.players| && ChipsOk(h.players[i]) && 0 <= h.currentBet && h.players[i].street <= h.currentBet
    requires Pending(h, h.players[i])
    requires Enact(h, LegalFor(h, i), move) == Ok(h')
    ensures |h'.players| == |h.players| && Moves(h.players[i], h'.players[i], move, h.currentBet, h'.currentBet)
    ensures forall j :: 0 <= j < |h.players| && j != i ==> h'.players[j] == h.players[j]
    ensures h'.phase == h.phase && h'.board == h.board && h'.straddle == h.straddle
  {
  }

  // ----- What is accepted -----

  /** The most a player may have bet: everything in no limit, in pot limit the bet raised by the pot after a call. */
  function Most(h: Hand, p: Player): int {
    if h.game.NLH? then p.street + p.stack
    else Min(h.currentBet + (PotSize(h.players) + (h.currentBet - p.street)), p.street + p.stack)
  }

  /** A target the rules allow, given the size of the raise to beat. */
  ghost predicate MayTarget(h: Hand, p: Player, size: int, target: int) {
    && p.playerId !in h.acted
    && h.currentBet < target <= Most(h, p)
    && (target >= (if h.currentBet == 0 then h.bigBlind else h.currentBet + size) || target == p.street + p.stack)
  }

  ghost predicate Allowed(h: Hand, p: Player, move: Move) {
    match move
    case Fold => p.street < h.currentBet
    case Check => p.street == h.currentBet
    case Call => p.street < h.currentBet
    case Bet(to) => h.currentBet == 0 && MayTarget(h, p, h.lastFullRaise, to)
    case Raise(to) => h.currentBet > 0 && MayTarget(h, p, h.lastFullRaise, to)
    case AllIn => p.street + p.stack <= h.currentBet || MayTarget(h, p, h.lastFullRaise, p.street + p.stack)
    case Unknown => false
  }

  /** On its turn a player may fold or call facing a bet, check otherwise, and increase within the limits. */
  lemma {:induction false} AcceptedIffAllowed(h: Hand, f: Floor, i: nat, move: Move)
    requires Invariant(h, f) && h.status == Betting && ToAct(h, i)
    ensures ApplyAction(h, Action(h.players[i].playerId, h.version, move)).Ok? <==> Allowed(h, h.players[i], move)
  {
    hide Enact, FinishOrAdvance, LegalFor, LegalActions, Matched, Nominal, Board, Covered, Allowed;
    ActorIsLegal(h, i);
    EnactedIffAllowed(h, f, i, move);
    if Enact(h, LegalFor(h, i), move).Ok? {
      EnactedIsAccepted(h, f, i, move);
    }
  }

  lemma {:induction false} EnactedIffAllowed(h: Hand, f: Floor, i: nat, move: Move)
    requires Mid(h, f) && ToAct(h, i)
    ensures Enact(h, LegalFor(h, i), move).Ok? <==> Allowed(h, h.players[i], move)
  {
    hide FinishOrAdvance, LegalActions, Matched, Nominal, Board, PotSize, Covered, Count;
    PotNotNegative(h, f);
    var p, legal := h.players[i], LegalFor(h, i);
    assert ChipsOk(p);
    assert legal.maximumTarget > h.currentBet ==> legal.maximumTarget == Most(h, p);
    assert legal.maximumTarget <= h.currentBet ==> Most(h, p) <= h.currentBet;
    assert legal.allInTarget == p.street + p.stack && legal.raiseRightsOpen == (p.playerId !in h.acted);
  }

  lemma {:induction false} PotNotNegative(h: Hand, f: Floor)
    requires Mid(h, f)
    ensures PotSize(h.players) >= 0
  {
    forall p | p in h.players ensures ContributedOf(p) >= 0 {
      var j :| 0 <= j < |h.players| && h.players[j] == p;
      assert ChipsOk(h.players[j]);
    }
    SumOfNonNegative(ContributedOf, h.players);
  }

  // ----- The verdict -----

  /** Whoever can act has matched the bet. */
  ghost predicate AllMatched(h: Hand) {
    forall p :: p in h.players && Actionable(p) ==> p.street == h.currentBet
  }

  /** Whoever can act has acted since the last full raise. */
  ghost predicate AllActed(h: Hand) {
    forall p :: p in h.players && Actionable(p) ==> p.playerId in h.acted
  }

  /** Where the hand stands, from its players alone. */
  ghost function Standing(h: Hand): Status {
    var unfolded, able := Count(Active, h.players), Count(Actionable, h.players);
    if unfolded == 1 then Complete
    else if able == 0 then AwaitingRunout
    else if able == 1 && AllMatched(h) then (if h.phase == River then Showdown else AwaitingRunout)
    else if AllMatched(h) && AllActed(h) then (if h.phase == River then Showdown else AwaitingDeal)
    else Betting
  }

  /** The player whose turn it is owes something, and nobody who does sits closer after the seat. */
  ghost predicate TurnPasses(h: Hand, after: int) {
    exists i :: ToAct(h, i) && forall q :: q in h.players && Pending(h, q) ==>
      Distance(after, h.players[i].seat) <= Distance(after, q.seat)
  }

  ghost predicate Judged(h: Hand, after: int) {
    && h.status == Standing(h)
    && (h.status == Complete ==> exists p :: p in h.players && Active(p) && h.winner == Some(p.playerId))
    && (h.status == AwaitingDeal ==> h.pendingStreet == Some(NextPhase(h.phase)))
    && (h.status == Betting ==> TurnPasses(h, after))
    && (h.status != Betting ==> h.actionSeat.None?)
  }

  /**
   * After every accepted action the round goes on exactly while somebody owes a call or a first action,
   * and the turn passes to the next such player clockwise of the one who acted.
   */
  lemma {:induction false} ActionIsJudged(h: Hand, f: Floor, a: Action, h': Hand)
    requires Invariant(h, f) && ApplyAction(h, a) == Ok(h')
    ensures h.actionSeat.Some? && Judged(h', h.actionSeat.value)
  {
    hide Enact, FinishOrAdvance, LegalFor, Judged, Covered, Matched, Nominal, Board, Raises, Count;
    var i, enacted := ActionParts(h, a, h');
    ActorIsPending(h, f, i);
    EnactKeeps(h, f, i, a.move, enacted);
    var stamped := enacted.(version := h.version + 1);
    SameBets(enacted, f, stamped);
    MidIsCovered(stamped, f);
    var live :| 0 <= live < |stamped.players| && Active(stamped.players[live]);
    CountPositive(Active, stamped.players, live);
    StatusKept(h, LegalFor(h, i), a.move, enacted);
    FinishJudges(stamped, h.players[i].seat, h');
  }

  lemma {:induction false} StatusKept(h: Hand, legal: Legal, move: Move, h': Hand)
    requires legal.index < |h.players| && Enact(h, legal, move) == Ok(h')
    ensures h'.status == h.status
  {
  }

  lemma {:induction false} FinishJudges(h: Hand, after: int, h': Hand)
    requires h.status == Betting && FinishOrAdvance(h, after) == Ok(h')
    requires Table(h.players) && 0 <= after <= 8 && Count(Active, h.players) >= 1
    requires forall i :: 0 <= i < |h.players| ==> h.players[i].street <= h.currentBet
    ensures Judged(h', after)
  {
    hide Count, Filter, Distance, NextSeat;
    var ps := h.players;
    var remaining, canAct := Filter(Active, ps), Filter(Actionable, ps);
    assert |remaining| == Count(Active, ps) && |canAct| == Count(Actionable, ps);
    FinishSameHand(h, after, h');
    CanActMatched(h, canAct);
    if |remaining| == 1 {
      assert remaining[0] in ps;
    } else if |canAct| == 0 || (|canAct| == 1 && canAct[0].street == h.currentBet) {
    } else if forall p :: p in canAct ==> Settled(h, p) {
      SeveralCanAct(canAct, h.currentBet);
    } else {
      assert h' == h.(actionSeat := h'.actionSeat);
      ForwardTurn(h, after, h');
    }
  }

  /** The filtered list says what the quantified statements say. */
  lemma {:induction false} CanActMatched(h: Hand, canAct: seq<Player>)
    requires canAct == Filter(Actionable, h.players)
    ensures AllMatched(h) <==> forall p :: p in canAct ==> p.street == h.currentBet
    ensures AllMatched(h) && AllActed(h) <==> forall p :: p in canAct ==> Settled(h, p)
    ensures |canAct| == 1 ==> (AllMatched(h) <==> canAct[0].street == h.currentBet)
  {
    hide Filter;
    if |canAct| == 1 {
      assert canAct[0] in canAct;
    }
  }

  lemma {:induction false} ForwardTurn(h: Hand, after: int, h': Hand)
    requires Table(h.players) && 0 <= after <= 8
    requires NextSeat(h.players, after, (p: Player) => Pending(h, p)).Some?
    requires h' == h.(actionSeat := NextSeat(h.players, after, (p: Player) => Pending(h, p)))
    ensures TurnPasses(h', after)
  {
    hide NextSeat, Distance;
    var pred := (p: Player) => Pending(h, p);
    NextSeatIsClosest(h.players, after, pred);
    var i :| 0 <= i < |h.players| && pred(h.players[i])
             && NextSeat(h.players, after, pred) == Some(h.players[i].seat);
    assert ToAct(h', i);
    forall q | q in h'.players && Pending(h', q)
      ensures Distance(after, h'.players[i].seat) <= Distance(after, q.seat)
    {
      assert pred(q);
    }
  }

  // ----- Dealing -----

  /**
   * A dealt street appends its cards, clears the bets of the street and starts the action with the first
   * player able to act clockwise of the button; a bet is the big blind at least.
   */
  lemma {:induction false} StreetEffect(h: Hand, f: Floor, version: nat, street: Phase, cards: seq<int>, h': Hand)
    requires Invariant(h, f) && DealStreet(h, version, street, cards) == Ok(h')
    requires 0 <= h.buttonSeat <= 8
    ensures h.status == AwaitingDeal && street == NextPhase(h.phase) == h'.phase && h'.status == Betting
    ensures h'.board == h.board + cards && |cards| == (if street == Flop then 3 else 1)
    ensures h'.currentBet == 0 && h'.lastFullRaise == h.bigBlind && h'.acted == []
    ensures |h'.players| == |h.players|
    ensures forall i :: 0 <= i < |h.players| ==> h'.players[i] == h.players[i].(street := 0)
    ensures TurnPasses(h', h.buttonSeat)
  {
    hide NextSeat, Distance, DealStreet, Covered, Matched, Nominal, Board, Distinct;
    DealKeeps(h, f, version, street, cards, h');
    StreetFields(h, version, street, cards, h');
    NextSeatIsClosest(h'.players, h.buttonSeat, Actionable);
    var i :| 0 <= i < |h'.players| && Actionable(h'.players[i]) && h'.actionSeat == Some(h'.players[i].seat);
    assert ToAct(h', i);
  }

  lemma {:induction false} StreetFields(h: Hand, version: nat, street: Phase, cards: seq<int>, h': Hand)
    requires DealStreet(h, version, street, cards) == Ok(h')
    ensures h.status == AwaitingDeal && h.pendingStreet == Some(street) && h'.phase == street
    ensures h'.board == h.board + cards && |cards| == (if street == Flop then 3 else 1)
    ensures h'.currentBet == 0 && h'.lastFullRaise == h.bigBlind && h'.acted == []
    ensures |h'.players| == |h.players|
    ensures forall i :: 0 <= i < |h.players| ==> h'.players[i] == h.players[i].(street := 0)
    ensures h'.actionSeat == NextSeat(h'.players, h.buttonSeat, Actionable)
  {
    hide NextSeat;
  }

  /** A runout completes the board and leads to showdown; nothing else changes. */
  lemma {:induction false} RunoutEffect(h: Hand, version: nat, cards: seq<int>, h': Hand)
    requires DealRemainingBoard(h, version, cards) == Ok(h')
    ensures h.status == AwaitingRunout && version == h.version && |h.board| + |cards| == 5
    ensures Distinct(h'.board) && ValidCards(cards)
    ensures h' == h.(version := h.version + 1, board := h.board + cards, phase := River, status := Showdown,
                     actionSeat := None)
  {
    assert Distinct(h.board + cards);
  }

  /** The first to act before the flop: the button heads-up, otherwise the player after the last forced bet. */
  lemma {:induction false} OpeningTurn(c: Config, h: Hand)
    requires CreateBettingState(c) == Ok(h) && h.status == Betting
    ensures h.handId == c.handId && h.game == c.game && h.buttonSeat == c.buttonSeat && h.straddle == c.straddle
    ensures if |c.players| == 2 && (exists p :: p in h.players && p.seat == h.smallBlindSeat && Actionable(p))
            then h.actionSeat == Some(h.smallBlindSeat)
            else TurnPasses(h, match h.straddle case None => h.bigBlindSeat case Some(s) => s.seat)
  {
    hide NextSeat, Distance;
    hide FirstActor, FinishOrAdvance, Posting, Around, Opened, CheckConfig, CheckStraddle, AfterBlinds, StraddleFits,
         ValidConfig, Filter;
    CheckedConfig(c);
    AcceptedStraddle(c);
    var sb, bb, straddler := OpeningPosts(c);
    OpenedTable(c, sb, bb, straddler);
    AskedFirst(Opened(c), h);
    OpenedFields(c, h);
  }

  lemma {:induction false} OpenedTable(c: Config, sb: nat, bb: nat, straddler: int)
    requires Accepted(c) && ValidConfig(c) && Posting(c, sb, bb, straddler, Opened(c))
    ensures var o := Opened(c);
      && Table(o.players) && o.status == Betting && o.acted == [] && 0 <= o.bigBlindSeat <= 8
      && (o.straddle.Some? ==> 0 <= o.straddle.value.seat <= 8)
  {
    hide NextSeat, PostedAll, CheckConfig, CheckStraddle, StraddleFits, AfterBlinds, AfterStraddle;
    if c.straddle.Some? {
      StraddleOnTable(c);
    }
  }

  lemma {:induction false} StraddleOnTable(c: Config)
    requires Accepted(c) && c.straddle.Some?
    ensures 0 <= c.straddle.value.seat <= 8
  {
    hide NextSeat, CheckConfig, AfterBlinds;
    CheckedConfig(c);
    AcceptedStraddle(c);
    var sb, bb := OpeningSeats(c);
    BlindsPosted(c, sb, bb);
    NextSeatFinds(AfterBlinds(c), BigBlindSeat(c), Active);
  }

  lemma {:induction false} OpenedFields(c: Config, h: Hand)
    requires CreateBettingState(c) == Ok(h)
    ensures |h.players| == |c.players| && h.players == Opened(c).players
        && h.straddle == Opened(c).straddle == c.straddle
    ensures h.smallBlindSeat == Opened(c).smallBlindSeat && h.bigBlindSeat == Opened(c).bigBlindSeat
    ensures h.handId == c.handId && h.game == c.game && h.buttonSeat == c.buttonSeat
  {
    hide FirstActor, CheckConfig, CheckStraddle, AfterBlinds;
    if FirstActor(Opened(c)).None? {
      FinishSameHand(Opened(c), Opened(c).bigBlindSeat, h);
    }
  }

  lemma {:induction false} AskedFirst(o: Hand, h: Hand)
    requires Table(o.players) && o.status == Betting && o.acted == [] && 0 <= o.bigBlindSeat <= 8
    requires o.straddle.Some? ==> 0 <= o.straddle.value.seat <= 8
    requires h.status == Betting
    requires match FirstActor(o)
      case Some(seat) => h == o.(actionSeat := Some(seat))
      case None => FinishOrAdvance(o, o.bigBlindSeat) == Ok(h)
    ensures if |o.players| == 2 && (exists p :: p in o.players && p.seat == o.smallBlindSeat && Actionable(p))
            then h.players == o.players && h.actionSeat == Some(o.smallBlindSeat)
            else TurnPasses(h, match o.straddle case None => o.bigBlindSeat case Some(s) => s.seat)
  {
    hide NextSeat, Distance;
    var after := match o.straddle case None => o.bigBlindSeat case Some(s) => s.seat;
    NextSeatIsClosest(o.players, after, Actionable);
    if FirstActor(o).None? {
      NobodyActs(o, h);
    } else if !(|o.players| == 2 && exists p :: p in o.players && p.seat == o.smallBlindSeat && Actionable(p)) {
      var i :| 0 <= i < |o.players| && Actionable(o.players[i]) && h.actionSeat == Some(o.players[i].seat);
      assert ToAct(h, i);
    }
  }

  lemma {:induction false} NobodyActs(o: Hand, h: Hand)
    requires (forall p :: p in o.players ==> !Actionable(p)) && FinishOrAdvance(o, o.bigBlindSeat) == Ok(h)
    ensures h.status != Betting
  {
    if Filter(Actionable, o.players) != [] {
      KeptFirst(Actionable, o.players);
    }
  }

  lemma {:induction false} KeptFirst<T(!new)>(p: T -> bool, xs: seq<T>)
    requires Filter(p, xs) != []
    ensures exists x :: x in xs && p(x)
  {
    assert Filter(p, xs)[0] in Filter(p, xs);
  }
}
