/**
 * The size of the last full raise and the players who have acted since, read off the history of the bet
 * alone: the hand's own record of both agrees with it over every run.
 */
module RaiseSizes {
  import opened Wrappers
  import opened Betting
  import opened BettingInvariant
  import opened BettingMoves
  import opened BettingOpening
  import opened BettingRuns

  // ----- The history of the bet -----

  /** The bet to match before each step of a run and after the last. */
  function BetsAlong(h: Hand, steps: seq<Step>): (bets: seq<int>)
    requires Play(h, steps).Ok?
    ensures |bets| == |steps| + 1 && bets[0] == h.currentBet
    decreases |steps|
  {
    if steps == [] then [h.currentBet] else [h.currentBet] + BetsAlong(Apply(h, steps[0]).value, steps[1..])
  }

  /** A first bet is full from the big blind on, a raise if it is at least the size in force. */
  predicate Full(bigBlind: int, size: int, before: int, after: int) {
    before < after && (if before == 0 then after >= bigBlind else after - before >= size)
  }

  /** The size in force once the bet has gone from one amount to another. */
  function SizeAfter(bigBlind: int, size: int, s: Step, before: int, after: int): int {
    if s.Street? then bigBlind else if Full(bigBlind, size, before, after) then after - before else size
  }

  /** The size of the last full raise along a history of the bet. */
  function SizeInForce(bigBlind: int, size: int, steps: seq<Step>, bets: seq<int>): int
    requires |bets| == |steps| + 1
    decreases |steps|
  {
    if steps == [] then size
    else SizeInForce(bigBlind, SizeAfter(bigBlind, size, steps[0], bets[0], bets[1]), steps[1..], bets[1..])
  }

  /** Who acted in a step. */
  function ActorOf(s: Step): Option<PlayerId> {
    match s
    case Act(action) => Some(action.playerId)
    case TimeOut(playerId, _) => Some(playerId)
    case _ => None
  }

  /** Who has acted once a step is done: a street asks everybody again, a full raise everybody else. */
  function ActedAfter(bigBlind: int, size: int, acted: set<PlayerId>, s: Step, before: int,
      after: int): set<PlayerId> {
    if s.Street? then {}
    else if ActorOf(s).None? then acted
    else if Full(bigBlind, size, before, after) then {ActorOf(s).value}
    else acted + {ActorOf(s).value}
  }

  function ActedSince(bigBlind: int, size: int, acted: set<PlayerId>, steps: seq<Step>, bets: seq<int>): set<PlayerId>
    requires |bets| == |steps| + 1
    decreases |steps|
  {
    if steps == [] then acted
    else
      ActedSince(bigBlind, SizeAfter(bigBlind, size, steps[0], bets[0], bets[1]),
        ActedAfter(bigBlind, size, acted, steps[0], bets[0], bets[1]), steps[1..], bets[1..])
  }

  function ActedOf(h: Hand): set<PlayerId> { set id | id in h.acted }

  // ----- One step -----

  lemma {:induction false} MoveRecords(h: Hand, i: nat, move: Move, h': Hand)
    requires i < |h.players| && Enact(h, LegalFor(h, i), move) == Ok(h')
    requires 0 <= h.players[i].street <= h.currentBet && h.players[i].stack >= 0
    ensures h'.lastFullRaise
      == if Full(h.bigBlind, h.lastFullRaise, h.currentBet, h'.currentBet) then h'.currentBet - h.currentBet
         else h.lastFullRaise
    ensures ActedOf(h')
      == if Full(h.bigBlind, h.lastFullRaise, h.currentBet, h'.currentBet) then {h.players[i].playerId}
         else ActedOf(h) + {h.players[i].playerId}
  {
  }

  lemma {:induction false} ActionRecords(h: Hand, f: Floor, a: Action, h': Hand)
    requires Invariant(h, f) && ApplyAction(h, a) == Ok(h')
    ensures h'.lastFullRaise
      == if Full(h.bigBlind, h.lastFullRaise, h.currentBet, h'.currentBet) then h'.currentBet - h.currentBet
         else h.lastFullRaise
    ensures ActedOf(h')
      == if Full(h.bigBlind, h.lastFullRaise, h.currentBet, h'.currentBet) then {a.playerId}
         else ActedOf(h) + {a.playerId}
  {
    hide Enact, FinishOrAdvance, LegalFor, Full, ActedOf, Covered, Matched, Nominal, Board;
    var i, enacted := ActionParts(h, a, h');
    ActorIsPending(h, f, i);
    assert ChipsOk(h.players[i]);
    MoveRecords(h, i, a.move, enacted);
    FinishSameHand(enacted.(version := h.version + 1), h.players[i].seat, h');
    SameActed(enacted, h');
  }

  lemma {:induction false} SameActed(h: Hand, h': Hand)
    requires h'.acted == h.acted
    ensures ActedOf(h') == ActedOf(h)
  {
  }

  /** Every step records the size and the actors as the history of the bet says. */
  lemma {:induction false} StepRecords(h: Hand, f: Floor, s: Step, h': Hand)
    requires Invariant(h, f) && Apply(h, s) == Ok(h')
    ensures h'.lastFullRaise == SizeAfter(h.bigBlind, h.lastFullRaise, s, h.currentBet, h'.currentBet)
    ensures ActedOf(h') == ActedAfter(h.bigBlind, h.lastFullRaise, ActedOf(h), s, h.currentBet, h'.currentBet)
  {
    hide ApplyAction, ApplyTimeout, Invariant;
    match s
    case Act(action) => ActionRecords(h, f, action, h');
    case TimeOut(playerId, version) =>
      var a := TimeoutIsAction(h, playerId, version, h');
      ActionRecords(h, f, a, h');
    case Street(version, street, cards) => StreetRecords(h, version, street, cards, h');
    case Runout(_, _) =>
  }

  lemma {:induction false} StreetRecords(h: Hand, version: nat, street: Phase, cards: seq<int>, h': Hand)
    requires DealStreet(h, version, street, cards) == Ok(h')
    ensures h'.lastFullRaise == h.bigBlind && h'.acted == [] && ActedOf(h') == {}
  {
    hide NextSeat;
  }

  // ----- Whole runs -----

  lemma {:induction false} PlayRecords(h: Hand, f: Floor, steps: seq<Step>, h': Hand)
    requires Invariant(h, f) && Play(h, steps) == Ok(h')
    ensures h'.lastFullRaise == SizeInForce(h.bigBlind, h.lastFullRaise, steps, BetsAlong(h, steps))
    ensures ActedOf(h') == ActedSince(h.bigBlind, h.lastFullRaise, ActedOf(h), steps, BetsAlong(h, steps))
    decreases |steps|
  {
    hide Apply, Invariant, ActedOf, SizeAfter, ActedAfter;
    if steps != [] {
      var next := Apply(h, steps[0]).value;
      StepRecords(h, f, steps[0], next);
      StepSameHand(h, steps[0], next);
      var f' := StepKeeps(h, f, steps[0], next);
      PlayRecords(next, f', steps[1..], h');
      assert BetsAlong(h, steps)[1..] == BetsAlong(next, steps[1..]);
    }
  }

  /** What the forced bets leave as the raise to beat: the big blind, or the straddle's excess over it. */
  function OpeningSize(c: Config): int {
    match c.straddle case None => c.bigBlind case Some(s) => s.amount - c.bigBlind
  }

  /** The bet along a run from an opening. */
  function History(c: Config, steps: seq<Step>): (bets: seq<int>)
    requires PlayFrom(c, steps).Ok?
    ensures |bets| == |steps| + 1
  {
    BetsAlong(CreateBettingState(c).value, steps)
  }

  function RaiseToBeat(c: Config, steps: seq<Step>): int
    requires PlayFrom(c, steps).Ok?
  {
    SizeInForce(c.bigBlind, OpeningSize(c), steps, History(c, steps))
  }

  function HaveActed(c: Config, steps: seq<Step>): set<PlayerId>
    requires PlayFrom(c, steps).Ok?
  {
    ActedSince(c.bigBlind, OpeningSize(c), {}, steps, History(c, steps))
  }

  /**
   * Over every run from an accepted opening, the recorded raise is the size of the last full increase of
   * the bet on the street, and those recorded as having acted are those who did so since.
   */
  lemma {:induction false} RaisesAreRecorded(c: Config, steps: seq<Step>, h: Hand)
    requires PlayFrom(c, steps) == Ok(h)
    ensures h.lastFullRaise == RaiseToBeat(c, steps)
    ensures ActedOf(h) == HaveActed(c, steps)
    ensures History(c, steps)[0] == match c.straddle case None => c.bigBlind case Some(s) => s.amount
  {
    hide Apply, Invariant, CreateBettingState, SizeInForce, ActedSince;
    var start := CreateBettingState(c).value;
    OpeningHolds(c, start);
    OpeningRecords(c, start);
    PlayRecords(start, Floor(c.ante, !StrandsPot(c)), steps, h);
  }

  lemma {:induction false} OpeningRecords(c: Config, h: Hand)
    requires CreateBettingState(c) == Ok(h)
    ensures h.bigBlind == c.bigBlind && h.lastFullRaise == OpeningSize(c) && ActedOf(h) == {}
    ensures h.currentBet == match c.straddle case None => c.bigBlind case Some(s) => s.amount
  {
    hide FirstActor, CheckConfig, CheckStraddle, AfterBlinds;
    if FirstActor(Opened(c)).None? {
      FinishSameHand(Opened(c), Opened(c).bigBlindSeat, h);
    }
  }

  // ----- What may be bet -----

  /**
   * Over every run: the player whose turn it is may increase the bet to a target exactly if the player
   * has not acted since the last full raise, the target beats the bet within the limits of the game, and
   * it is all-in or raises by at least the last full raise; a first bet is the big blind at least.
   */
  lemma {:induction false} IncreasesFromHistory(c: Config, steps: seq<Step>, h: Hand, i: nat, target: int)
    requires PlayFrom(c, steps) == Ok(h) && h.status == Betting && ToAct(h, i)
    ensures var p := h.players[i];
      ApplyAction(h, Action(p.playerId, h.version, if h.currentBet == 0 then Bet(target) else Raise(target))).Ok?
      <==>
        && p.playerId !in HaveActed(c, steps)
        && h.currentBet < target <= Most(h, p)
        && (target >= (if h.currentBet == 0 then c.bigBlind else h.currentBet + RaiseToBeat(c, steps))
            || target == p.street + p.stack)
  {
    hide Invariant, ApplyAction, Most, HaveActed, RaiseToBeat, PlayFrom, ToAct;
    var f := ReachableInvariant(c, steps, h);
    RaisesAreRecorded(c, steps, h);
    SameBlinds(c, steps, h);
    AcceptedIffAllowed(h, f, i, if h.currentBet == 0 then Bet(target) else Raise(target));
    BetNotNegative(h, f);
  }

  lemma {:induction false} BetNotNegative(h: Hand, f: Floor)
    requires Invariant(h, f) && h.status == Betting
    ensures h.currentBet >= 0
  {
  }

  lemma {:induction false} SameBlinds(c: Config, steps: seq<Step>, h: Hand)
    requires PlayFrom(c, steps) == Ok(h)
    ensures h.bigBlind == c.bigBlind
  {
    hide CreateBettingState, Apply;
    var start := CreateBettingState(c).value;
    OpeningRecords(c, start);
    PlaySameHand(start, steps, h);
  }

  /** After a full raise from a bet to a target, the next raise must be to the target plus as much again. */
  lemma {:induction false} RaiseAfterRaise(h: Hand, f: Floor, a: Action, h': Hand, next: PlayerId)
    requires Invariant(h, f) && ApplyAction(h, a) == Ok(h') && h.currentBet > 0
    requires h'.currentBet - h.currentBet >= h.lastFullRaise && h'.currentBet > h.currentBet
    requires LegalActions(h', next).Ok?
    ensures LegalActions(h', next).value.minimumTarget == h'.currentBet + (h'.currentBet - h.currentBet)
  {
    hide ApplyAction, Invariant;
    ActionRecords(h, f, a, h');
  }
}
