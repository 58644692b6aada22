/** What every reachable hand keeps, and why the pots of a finished hand always have an owner. */
module BettingInvariant {
  import opened Wrappers
  import opened Seqs
  import opened Betting
  import opened BettingOrder

  // ----- The invariant -----

  ghost predicate Table(ps: seq<Player>) {
    && 2 <= |ps| <= 9
    && (forall i, j :: 0 <= i < j < |ps| ==> ps[i].playerId != ps[j].playerId)
    && (forall i, j :: 0 <= i < j < |ps| ==> ps[i].seat != ps[j].seat)
    && (forall i :: 0 <= i < |ps| ==> 0 <= ps[i].seat <= 8)
  }

  ghost predicate ChipsOk(p: Player) {
    && p.stack >= 0
    && 0 <= p.street <= p.contributed
    && (p.allIn <==> p.stack == 0)
    && (p.folded ==> !p.allIn)
  }

  ghost predicate Chips(ps: seq<Player>) {
    forall i :: 0 <= i < |ps| ==> ChipsOk(ps[i])
  }

  /** What a player had put in before the current street. */
  function Base(p: Player): int { p.contributed - p.street }

  /**
   * What everyone still able to act had put in before this street, and whether the hand was opened
   * in a way that cannot strand the pot.
   */
  datatype Floor = Floor(base: int, safe: bool)

  /** `base` is what everyone still able to act had put in before this street. */
  ghost predicate Bets(h: Hand, base: int) {
    && 0 <= h.currentBet
    && 0 <= base
    && forall i :: 0 <= i < |h.players| ==>
         && h.players[i].street <= h.currentBet
         && Base(h.players[i]) <= base
         && (Actionable(h.players[i]) ==> Base(h.players[i]) == base)
  }

  ghost predicate Holds(h: Hand, base: int, i: int) {
    && 0 <= i < |h.players|
    && Active(h.players[i])
    && Base(h.players[i]) == base
    && h.players[i].street == h.currentBet
  }

  /** An unfolded player holds the top contribution. */
  ghost predicate Matched(h: Hand, base: int) {
    exists i :: Holds(h, base, i)
  }

  ghost predicate AllInLive(ps: seq<Player>, i: int) {
    0 <= i < |ps| && Active(ps[i]) && ps[i].allIn
  }

  ghost predicate Anchor(ps: seq<Player>, base: int, i: int) {
    AllInLive(ps, i) && ps[i].contributed >= base
  }

  /** Before anyone pays the nominal big blind in full, only the small blind folds chips above the ante. */
  ghost predicate Nominal(h: Hand, f: Floor) {
    && h.phase == Preflop
    && h.currentBet == h.bigBlind
    && (forall i :: 0 <= i < |h.players| && h.players[i].seat != h.smallBlindSeat ==>
          && (Actionable(h.players[i]) ==> h.players[i].street == 0)
          && (h.players[i].folded ==> h.players[i].contributed <= f.base))
    && (exists i :: AllInLive(h.players, i))
    && (f.safe ==>
          || (exists i :: Anchor(h.players, f.base, i))
          || (forall i, j :: 0 <= i < j < |h.players| ==> h.players[i].allIn || h.players[j].allIn))
  }

  ghost predicate Raises(h: Hand) {
    && 0 < h.smallBlind <= h.bigBlind
    && 0 <= h.ante
    && 0 < h.lastFullRaise
    && (h.lastFullRaise <= h.currentBet || h.lastFullRaise <= h.bigBlind)
    && (h.phase == Preflop ==> h.bigBlind <= h.currentBet)
    && (h.phase != Preflop ==> PotSize(h.players) >= 2 * h.bigBlind)
  }

  function BoardSize(phase: Phase): nat {
    match phase case Preflop => 0 case Flop => 3 case Turn => 4 case River => 5
  }

  ghost predicate Board(h: Hand) {
    |h.board| == BoardSize(h.phase) && Distinct(h.board) && ValidCards(h.board)
  }

  /** The part of the invariant that holds while a street is being bet, between a move and its verdict. */
  ghost predicate Mid(h: Hand, f: Floor) {
    && Table(h.players)
    && Chips(h.players)
    && Bets(h, f.base)
    && (Matched(h, f.base) || Nominal(h, f))
    && Raises(h)
    && Board(h)
  }

  ghost predicate ToAct(h: Hand, i: int) {
    0 <= i < |h.players| && h.actionSeat == Some(h.players[i].seat) && Pending(h, h.players[i])
  }

  /** At most one folded player has more in the pot than some unfolded player. */
  ghost predicate CoveredBy(ps: seq<Player>, owner: int, exempt: int) {
    && 0 <= owner < |ps|
    && Active(ps[owner])
    && forall j :: 0 <= j < |ps| && j != exempt && ps[j].folded ==> ps[j].contributed <= ps[owner].contributed
  }

  ghost predicate Covered(ps: seq<Player>) {
    exists owner, exempt :: CoveredBy(ps, owner, exempt)
  }

  ghost predicate Invariant(h: Hand, f: Floor) {
    && Table(h.players)
    && Chips(h.players)
    && (f.safe ==> Covered(h.players))
    && Board(h)
    && match h.status
       case Betting =>
         Mid(h, f) && Count(Active, h.players) >= 2 && (exists i :: ToAct(h, i))
       case AwaitingDeal =>
         && Mid(h, f)
         && h.phase != River
         && h.pendingStreet == Some(NextPhase(h.phase))
         && Count(Actionable, h.players) >= 2
         && (forall i :: 0 <= i < |h.players| && Actionable(h.players[i]) ==> h.players[i].street == h.currentBet)
       case AwaitingRunout => Count(Active, h.players) >= 2
       case Showdown => h.phase == River && Count(Active, h.players) >= 2
       case Complete =>
         && Count(Active, h.players) == 1
         && exists i :: 0 <= i < |h.players| && Active(h.players[i]) && h.winner == Some(h.players[i].playerId)
  }

  // ----- A settled betting round leaves every level owned -----

  lemma {:induction false} MidIsCovered(h: Hand, f: Floor)
    requires Mid(h, f)
    ensures f.safe ==> Covered(h.players)
    ensures exists i :: 0 <= i < |h.players| && Active(h.players[i])
  {
    var ps := h.players;
    if Matched(h, f.base) {
      var i :| Holds(h, f.base, i);
      assert CoveredBy(ps, i, -1);
    } else if f.safe {
      var a :| AllInLive(ps, a);
      if i :| Anchor(ps, f.base, i) {
        var exempt := if k :| 0 <= k < |ps| && ps[k].seat == h.smallBlindSeat then k else -1;
        assert CoveredBy(ps, i, exempt);
      } else {
        var exempt := if k :| 0 <= k < |ps| && ps[k].folded then k else -1;
        assert CoveredBy(ps, a, exempt);
      }
    }
  }

  // ----- Moves keep the invariant -----

  lemma {:induction false} PotGrows(ps: seq<Player>, i: nat, p: Player)
    requires i < |ps| && ps[i].contributed <= p.contributed
    ensures PotSize(ps) <= PotSize(ps[i := p])
  {
    SumOfUpdate(ContributedOf, ps, i, p);
  }

  lemma {:induction false} FoldKeeps(h: Hand, f: Floor, i: nat, h': Hand)
    requires Mid(h, f) && i < |h.players| && Actionable(h.players[i])
    requires h.players[i].street < h.currentBet
    requires h' == WithPlayer(h, i, h.players[i].(folded := true)).(acted := h'.acted)
    ensures Mid(h', f)
  {
    var ps, ps' := h.players, h'.players;
    PotGrows(ps, i, ps'[i]);
    if Matched(h, f.base) {
      var k :| Holds(h, f.base, k);
      assert Holds(h', f.base, k);
    } else {
      FoldKeepsNominal(h, f, i, h');
    }
  }

  lemma {:induction false} FoldKeepsNominal(h: Hand, f: Floor, i: nat, h': Hand)
    requires Chips(h.players) && Bets(h, f.base) && Nominal(h, f)
    requires i < |h.players| && Actionable(h.players[i])
    requires h' == WithPlayer(h, i, h.players[i].(folded := true)).(acted := h'.acted)
    ensures Nominal(h', f)
  {
    var a :| AllInLive(h.players, a);
    assert AllInLive(h'.players, a);
    if k :| Anchor(h.players, f.base, k) {
      assert Anchor(h'.players, f.base, k);
    }
  }

  lemma {:induction false} PayKeeps(h: Hand, f: Floor, i: nat, target: int, h': Hand)
    requires Mid(h, f) && i < |h.players| && Actionable(h.players[i])
    requires h.players[i].street <= target <= h.players[i].street + h.players[i].stack
    requires target <= h.currentBet
    requires target == h.currentBet || target == h.players[i].street + h.players[i].stack
    requires h' == WithPlayer(h, i, PayTo(h.players[i], target)).(acted := h'.acted)
    ensures Mid(h', f)
  {
    var ps, ps' := h.players, h'.players;
    PotGrows(ps, i, ps'[i]);
    if Matched(h, f.base) {
      var k :| Holds(h, f.base, k);
      assert Holds(h', f.base, k);
    } else if target == h.currentBet {
      assert Holds(h', f.base, i);
    } else {
      assert AllInLive(ps', i) && Anchor(ps', f.base, i);
    }
  }

  lemma {:induction false} IncreaseKeeps(h: Hand, f: Floor, legal: Legal, target: int, h': Hand)
    requires Mid(h, f) && legal.index < |h.players| && Actionable(h.players[legal.index])
    requires legal == LegalFor(h, legal.index)
    requires Increase(h, legal, target) == Ok(h')
    ensures Mid(h', f)
  {
    var i := legal.index;
    var p := h.players[i];
    assert h.currentBet < target <= p.street + p.stack;
    assert h'.currentBet == target && h'.players == h.players[i := PayTo(p, target)];
    assert Table(h'.players) && Chips(h'.players) && Bets(h', f.base);
    assert Raises(h') by {
      PotGrows(h.players, i, PayTo(p, target));
    }
    assert Holds(h', f.base, i);
  }

  lemma {:induction false} EnactKeeps(h: Hand, f: Floor, i: nat, move: Move, h': Hand)
    requires Mid(h, f) && ToAct(h, i)
    requires Enact(h, LegalFor(h, i), move) == Ok(h')
    ensures Mid(h', f)
    ensures h' == h.(players := h'.players, acted := h'.acted, currentBet := h'.currentBet,
        lastFullRaise := h'.lastFullRaise)
    ensures |h'.players| == |h.players|
  {
    var p := h.players[i];
    var legal := LegalFor(h, i);
    match move
    case Fold => FoldKeeps(h, f, i, h');
    case Check => SameBets(h, f, h');
    case Call => PayKeeps(h, f, i, p.street + legal.callAmount, h');
    case Bet(to) => IncreaseKeeps(h, f, legal, to, h');
    case Raise(to) => IncreaseKeeps(h, f, legal, to, h');
    case AllIn =>
      if legal.allInTarget <= h.currentBet {
        PayKeeps(h, f, i, legal.allInTarget, h');
      } else {
        IncreaseKeeps(h, f, legal, legal.allInTarget, h');
      }
  }

  /** The invariant of a street reads neither the version, nor who acted, nor the fields a verdict sets. */
  lemma {:induction false} SameBets(h: Hand, f: Floor, h': Hand)
    requires Mid(h, f)
    requires h' == h.(acted := h'.acted, version := h'.version, status := h'.status, winner := h'.winner,
                      actionSeat := h'.actionSeat, pendingStreet := h'.pendingStreet)
    ensures Mid(h', f)
  {
    if Matched(h, f.base) {
      var i :| Holds(h, f.base, i);
      assert Holds(h', f.base, i);
    } else {
      assert Nominal(h', f);
    }
  }

  /** What the judgement of a street may say, in terms of the players rather than of filtered lists. */
  ghost predicate Verdict(h: Hand, h': Hand) {
    && h' == h.(status := h'.status, winner := h'.winner, actionSeat := h'.actionSeat,
      pendingStreet := h'.pendingStreet)
    && match h'.status
       case Betting => Count(Active, h.players) >= 2 && exists i :: ToAct(h', i)
       case AwaitingDeal =>
         && h.phase != River
         && h'.pendingStreet == Some(NextPhase(h.phase))
         && Count(Actionable, h.players) >= 2
         && (forall i :: 0 <= i < |h.players| && Actionable(h.players[i]) ==> Settled(h, h.players[i]))
       case AwaitingRunout => Count(Active, h.players) >= 2
       case Showdown => h.phase == River && Count(Active, h.players) >= 2
       case Complete =>
         && Count(Active, h.players) == 1
         && exists i :: 0 <= i < |h.players| && Active(h.players[i]) && h'.winner == Some(h.players[i].playerId)
  }

  /** A street is always judged: the search for a next actor cannot come back empty-handed. */
  lemma {:induction false} FinishVerdict(h: Hand, actor: int)
    requires h.status == Betting
    requires exists i :: 0 <= i < |h.players| && Active(h.players[i])
    requires forall i :: 0 <= i < |h.players| ==> h.players[i].street <= h.currentBet
    ensures FinishOrAdvance(h, actor).Ok? && Verdict(h, FinishOrAdvance(h, actor).value)
  {
    hide Filter, Count;
    var ps := h.players;
    var live :| 0 <= live < |ps| && Active(ps[live]);
    CountPositive(Active, ps, live);
    var remaining, canAct := Filter(Active, ps), Filter(Actionable, ps);
    var r := FinishOrAdvance(h, actor);
    if |remaining| == 1 {
      assert remaining[0] in ps;
    } else if |canAct| == 0 || (|canAct| == 1 && canAct[0].street == h.currentBet) {
    } else if forall p :: p in canAct ==> Settled(h, p) {
      forall i | 0 <= i < |ps| && Actionable(ps[i]) ensures Settled(h, ps[i]) {
        assert ps[i] in canAct;
      }
      SeveralCanAct(canAct, h.currentBet);
    } else {
      var p :| p in canAct && !Settled(h, p);
      var i := SomeoneIsNext(h, actor, p);
      assert ToAct(r.value, i);
    }
  }

  lemma {:induction false} SeveralCanAct(canAct: seq<Player>, bet: int)
    requires canAct != [] && !(|canAct| == 1 && canAct[0].street == bet) && forall p :: p in canAct ==> p.street == bet
    ensures |canAct| >= 2
  {
    assert canAct[0] in canAct;
  }

  lemma {:induction false} SomeoneIsNext(h: Hand, actor: int, p: Player) returns (i: nat)
    requires p in h.players && Pending(h, p)
    ensures i < |h.players| && Pending(h, h.players[i])
    ensures NextSeat(h.players, actor, (q: Player) => Pending(h, q)) == Some(h.players[i].seat)
  {
    NextSeatFinds(h.players, actor, (q: Player) => Pending(h, q));
    i :| 0 <= i < |h.players| && Pending(h, h.players[i])
         && NextSeat(h.players, actor, (q: Player) => Pending(h, q)) == Some(h.players[i].seat);
  }

  lemma {:induction false} VerdictKeeps(h: Hand, f: Floor, h': Hand)
    requires Mid(h, f) && h.status == Betting
    requires Verdict(h, h')
    ensures Invariant(h', f)
  {
    MidIsCovered(h, f);
    SameBets(h, f, h');
  }

  lemma {:induction false} MidVerdict(h: Hand, f: Floor, actor: int)
    requires Mid(h, f) && h.status == Betting
    ensures FinishOrAdvance(h, actor).Ok? && Verdict(h, FinishOrAdvance(h, actor).value)
  {
    MidIsCovered(h, f);
    FinishVerdict(h, actor);
  }

  /** An accepted action is a legal move of the player at the action seat, then judged. */
  lemma {:induction false} ActionParts(h: Hand, a: Action, h': Hand) returns (i: nat, enacted: Hand)
    requires ApplyAction(h, a) == Ok(h')
    ensures h.status == Betting && i < |h.players| && h.players[i].playerId == a.playerId
    ensures h.actionSeat == Some(h.players[i].seat) && a.expectedVersion == h.version
    ensures Enact(h, LegalFor(h, i), a.move) == Ok(enacted)
    ensures FinishOrAdvance(enacted.(version := h.version + 1), h.players[i].seat) == Ok(h')
  {
    hide Enact, FinishOrAdvance, LegalFor;
    i := LegalActions(h, a.playerId).value.index;
    enacted := Enact(h, LegalFor(h, i), a.move).value;
  }

  /** A legal move, once judged, keeps the invariant. */
  lemma {:induction false} JudgedKeeps(h: Hand, f: Floor, i: nat, move: Move, enacted: Hand, version: nat, h': Hand)
    requires Mid(h, f) && h.status == Betting && ToAct(h, i)
    requires Enact(h, LegalFor(h, i), move) == Ok(enacted)
    requires FinishOrAdvance(enacted.(version := version), h.players[i].seat) == Ok(h')
    ensures Invariant(h', f)
  {
    hide Enact, FinishOrAdvance, LegalFor, Mid, Invariant, Verdict;
    EnactKeeps(h, f, i, move, enacted);
    var stamped := enacted.(version := version);
    SameBets(enacted, f, stamped);
    MidVerdict(stamped, f, h.players[i].seat);
    VerdictKeeps(stamped, f, h');
  }

  lemma {:induction false} ActionKeeps(h: Hand, f: Floor, a: Action, h': Hand)
    requires Invariant(h, f)
    requires ApplyAction(h, a) == Ok(h')
    ensures Invariant(h', f)
  {
    hide Enact, FinishOrAdvance, LegalFor, Mid, Table, Chips, Covered;
    var i, enacted := ActionParts(h, a, h');
    ActorIsPending(h, f, i);
    JudgedKeeps(h, f, i, a.move, enacted, h.version + 1, h');
  }

  lemma {:induction false} ActorIsPending(h: Hand, f: Floor, i: nat)
    requires Invariant(h, f) && h.status == Betting
    requires i < |h.players| && h.actionSeat == Some(h.players[i].seat)
    ensures ToAct(h, i)
  {
    var k :| ToAct(h, k);
    assert k == i;
  }
}
