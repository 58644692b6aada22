/** Every accepted step keeps the invariant and the chips, over whole runs. */
module BettingRuns {
  import opened Wrappers
  import opened Seqs
  import opened Betting
  import opened BettingOrder
  import opened BettingInvariant
  import opened BettingOpening

  // ----- Dealing -----

  lemma {:induction false} SameContributions(ps: seq<Player>)
    ensures PotSize(Map(NewStreet, ps)) == PotSize(ps)
  {
    if ps != [] {
      SameContributions(ps[1..]);
      assert Map(NewStreet, ps)[1..] == Map(NewStreet, ps[1..]);
    }
  }

  /** Two players who matched the bet put at least two big blinds into the pot. */
  lemma {:induction false} PotAfterStreet(h: Hand, f: Floor)
    requires Invariant(h, f) && h.status == AwaitingDeal
    ensures PotSize(h.players) >= 2 * h.bigBlind
  {
    if h.phase == Preflop {
      var ps := h.players;
      var i, j := TwoPositions(Actionable, ps);
      assert ps[i].contributed >= h.bigBlind && ps[j].contributed >= h.bigBlind;
      SumOfAtLeastTwo(ContributedOf, ps, i, j);
    }
  }

  lemma {:induction false} FreshPlayers(h: Hand, f: Floor, ps: seq<Player>)
    requires Invariant(h, f) && h.status == AwaitingDeal
    requires ps == Map(NewStreet, h.players)
    ensures Table(ps) && Chips(ps)
    ensures forall i :: 0 <= i < |ps| ==>
              && ps[i].street == 0
              && Base(ps[i]) <= f.base + h.currentBet
              && (Actionable(ps[i]) ==> Base(ps[i]) == f.base + h.currentBet)
  {
    assert Mid(h, f);
    forall i | 0 <= i < |ps|
      ensures ChipsOk(ps[i]) && Base(ps[i]) <= f.base + h.currentBet
        && (Actionable(ps[i]) ==> Base(ps[i]) == f.base + h.currentBet)
    {
      assert ps[i] == NewStreet(h.players[i]) && ChipsOk(h.players[i]);
    }
  }

  lemma {:induction false} FreshLive(ps: seq<Player>, before: seq<Player>)
    requires ps == Map(NewStreet, before) && Count(Actionable, before) >= 2
    ensures Count(Active, ps) >= 2
    ensures exists i :: 0 <= i < |ps| && Actionable(ps[i])
  {
    var i, j := TwoPositions(Actionable, before);
    CountAtLeastTwo(Active, ps, i, j);
    assert Actionable(ps[i]);
  }

  lemma {:induction false} FreshBets(h: Hand, f: Floor, dealt: Hand)
    requires Invariant(h, f) && h.status == AwaitingDeal
    requires dealt.currentBet == 0 && dealt.lastFullRaise == h.bigBlind
    requires dealt.phase != Preflop && dealt.smallBlind == h.smallBlind && dealt.bigBlind == h.bigBlind
        && dealt.ante == h.ante
    requires PotSize(dealt.players) >= 2 * h.bigBlind
    ensures Raises(dealt) && f.base + h.currentBet >= 0
  {
    assert Mid(h, f);
  }

  lemma {:induction false} FreshStreet(h: Hand, f: Floor, dealt: Hand)
    requires Invariant(h, f) && h.status == AwaitingDeal
    requires dealt.players == Map(NewStreet, h.players)
    requires dealt.currentBet == 0 && dealt.lastFullRaise == h.bigBlind
    requires dealt.phase != Preflop && dealt.smallBlind == h.smallBlind && dealt.bigBlind == h.bigBlind
        && dealt.ante == h.ante
    requires Board(dealt)
    ensures Mid(dealt, Floor(f.base + h.currentBet, f.safe))
    ensures Count(Active, dealt.players) >= 2
    ensures exists i :: 0 <= i < |dealt.players| && Actionable(dealt.players[i])
  {
    hide Map, Raises, Count, Nominal, Table, Covered;
    var ps := dealt.players;
    FreshPlayers(h, f, ps);
    FreshLive(ps, h.players);
    PotAfterStreet(h, f);
    SameContributions(h.players);
    FreshBets(h, f, dealt);
    var i :| 0 <= i < |ps| && Actionable(ps[i]);
    assert Holds(dealt, f.base + h.currentBet, i);
  }

  /** A dealt street starts with a player to act: nobody is all-in unnoticed. */
  lemma {:induction false} DealKeeps(h: Hand, f: Floor, version: nat, street: Phase, cards: seq<int>, h': Hand)
    requires Invariant(h, f)
    requires DealStreet(h, version, street, cards) == Ok(h')
    ensures Invariant(h', Floor(f.base + h.currentBet, f.safe)) && h'.status == Betting
  {
    var dealt := h.(
      version := h.version + 1, phase := street, status := Betting, pendingStreet := None,
      board := h.board + cards, currentBet := 0, lastFullRaise := h.bigBlind, acted := [],
      players := Map(NewStreet, h.players));
    DealtBoard(h, f, street, cards);
    FreshStreet(h, f, dealt);
    FirstToAct(dealt, h.buttonSeat);
    AskDealt(dealt, Floor(f.base + h.currentBet, f.safe), h');
  }

  lemma {:induction false} AskDealt(dealt: Hand, f: Floor, h': Hand)
    requires Mid(dealt, f) && dealt.status == Betting && dealt.acted == [] && Count(Active, dealt.players) >= 2
    requires h' == dealt.(actionSeat := h'.actionSeat)
    requires exists i ::
               0 <= i < |dealt.players| && Actionable(dealt.players[i]) && h'.actionSeat == Some(dealt.players[i].seat)
    ensures Invariant(h', f)
  {
    MidIsCovered(dealt, f);
    SameBets(dealt, f, h');
    var i :| 0 <= i < |dealt.players| && Actionable(dealt.players[i]) && h'.actionSeat == Some(dealt.players[i].seat);
    assert ToAct(h', i);
  }

  lemma {:induction false} FirstToAct(dealt: Hand, buttonSeat: int)
    requires exists i :: 0 <= i < |dealt.players| && Actionable(dealt.players[i])
    ensures NextSeat(dealt.players, buttonSeat, Actionable).Some?
    ensures exists i :: 0 <= i < |dealt.players| && Actionable(dealt.players[i])
                        && dealt.players[i].seat == NextSeat(dealt.players, buttonSeat, Actionable).value
  {
    NextSeatFinds(dealt.players, buttonSeat, Actionable);
    var i :| 0 <= i < |dealt.players| && Actionable(dealt.players[i]);
    assert dealt.players[i] in dealt.players;
  }

  lemma {:induction false} DealtBoard(h: Hand, f: Floor, street: Phase, cards: seq<int>)
    requires Invariant(h, f) && h.status == AwaitingDeal && h.pendingStreet == Some(street)
    requires |cards| == (if street == Flop then 3 else 1) && ValidCards(cards) && Distinct(h.board + cards)
    ensures |h.board + cards| == BoardSize(street) && ValidCards(h.board + cards)
    ensures street != Preflop
  {
  }

  lemma {:induction false} RunoutKeeps(h: Hand, f: Floor, version: nat, cards: seq<int>, h': Hand)
    requires Invariant(h, f)
    requires DealRemainingBoard(h, version, cards) == Ok(h')
    ensures Invariant(h', f)
  {
  }

  // ----- Steps and runs -----

  lemma {:induction false} TimeoutIsAction(h: Hand, playerId: PlayerId, version: nat, h': Hand) returns (a: Action)
    requires ApplyTimeout(h, playerId, version) == Ok(h')
    ensures ApplyAction(h, a) == Ok(h') && a.playerId == playerId && a.move in {Check, Fold}
  {
    var legal := LegalActions(h, playerId).value;
    a := Action(playerId, version, if legal.canCheck then Check else Fold);
  }

  lemma {:induction false} PlayCons(h: Hand, s: Step, next: Hand, steps: seq<Step>, h': Hand)
    requires Apply(h, s) == Ok(next) && Play(next, steps) == Ok(h')
    ensures Play(h, [s] + steps) == Ok(h')
  {
    assert ([s] + steps)[1..] == steps;
  }

  lemma {:induction false} StepKeeps(h: Hand, f: Floor, s: Step, h': Hand) returns (f': Floor)
    requires Invariant(h, f)
    requires Apply(h, s) == Ok(h')
    ensures Invariant(h', f') && f'.safe == f.safe
  {
    f' := f;
    match s
    case Act(action) => ActionKeeps(h, f, action, h');
    case TimeOut(playerId, version) =>
      var a := TimeoutIsAction(h, playerId, version, h');
      ActionKeeps(h, f, a, h');
    case Street(version, street, cards) =>
      DealKeeps(h, f, version, street, cards, h');
      f' := Floor(f.base + h.currentBet, f.safe);
    case Runout(version, cards) => RunoutKeeps(h, f, version, cards, h');
  }

  lemma {:induction false} PlayKeeps(h: Hand, f: Floor, steps: seq<Step>, h': Hand) returns (f': Floor)
    requires Invariant(h, f)
    requires Play(h, steps) == Ok(h')
    ensures Invariant(h', f') && f'.safe == f.safe
    decreases |steps|
  {
    if steps == [] {
      f' := f;
    } else {
      var next := Apply(h, steps[0]).value;
      f' := StepKeeps(h, f, steps[0], next);
      f' := PlayKeeps(next, f', steps[1..], h');
    }
  }

  /** Every reachable hand satisfies the invariant. */
  lemma {:induction false} ReachableInvariant(c: Config, steps: seq<Step>, h: Hand) returns (f: Floor)
    requires PlayFrom(c, steps) == Ok(h)
    ensures Invariant(h, f) && f.safe == !StrandsPot(c)
  {
    var start := CreateBettingState(c).value;
    OpeningHolds(c, start);
    f := PlayKeeps(start, Floor(c.ante, !StrandsPot(c)), steps, h);
  }

  // ----- Chips and fixed facts -----

  /** What no step changes: who plays, where, for which blinds, and every player's chips in total. */
  ghost predicate SameHand(h: Hand, h': Hand) {
    && h'.handId == h.handId && h'.game == h.game && h'.buttonSeat == h.buttonSeat
    && h'.smallBlind == h.smallBlind && h'.bigBlind == h.bigBlind && h'.ante == h.ante
    && h'.smallBlindSeat == h.smallBlindSeat && h'.bigBlindSeat == h.bigBlindSeat
    && |h'.players| == |h.players|
    && forall i :: 0 <= i < |h.players| ==>
         && h'.players[i].playerId == h.players[i].playerId
         && h'.players[i].seat == h.players[i].seat
         && h'.players[i].stack + h'.players[i].contributed == h.players[i].stack + h.players[i].contributed
  }

  lemma {:induction false} ActionSameHand(h: Hand, a: Action, h': Hand)
    requires ApplyAction(h, a) == Ok(h')
    ensures SameHand(h, h')
  {
    hide Enact, FinishOrAdvance, LegalFor;
    var i, enacted := ActionParts(h, a, h');
    EnactSameHand(h, LegalFor(h, i), a.move, enacted);
    FinishSameHand(enacted.(version := h.version + 1), h.players[i].seat, h');
  }

  lemma {:induction false} EnactSameHand(h: Hand, legal: Legal, move: Move, h': Hand)
    requires legal.index < |h.players| && Enact(h, legal, move) == Ok(h')
    ensures SameHand(h, h')
  {
  }

  lemma {:induction false} FinishSameHand(h: Hand, actor: int, h': Hand)
    requires FinishOrAdvance(h, actor) == Ok(h')
    ensures h' == h.(status := h'.status, winner := h'.winner, actionSeat := h'.actionSeat,
        pendingStreet := h'.pendingStreet)
  {
  }

  lemma {:induction false} StepSameHand(h: Hand, s: Step, h': Hand)
    requires Apply(h, s) == Ok(h')
    ensures SameHand(h, h') && h'.version == h.version + 1
  {
    match s
    case Act(action) =>
      ActionSameHand(h, action, h');
      ActionVersion(h, action, h');
    case TimeOut(playerId, version) =>
      var a := TimeoutIsAction(h, playerId, version, h');
      ActionSameHand(h, a, h');
      ActionVersion(h, a, h');
    case _ =>
  }

  lemma {:induction false} ActionVersion(h: Hand, a: Action, h': Hand)
    requires ApplyAction(h, a) == Ok(h')
    ensures h'.version == h.version + 1
  {
    hide Enact, FinishOrAdvance, LegalFor;
    var i, enacted := ActionParts(h, a, h');
    FinishSameHand(enacted.(version := h.version + 1), h.players[i].seat, h');
  }

  /** Over a whole run no player's stack plus contribution changes, and each step is one version. */
  lemma {:induction false} PlaySameHand(h: Hand, steps: seq<Step>, h': Hand)
    requires Play(h, steps) == Ok(h')
    ensures SameHand(h, h') && h'.version == h.version + |steps|
    decreases |steps|
  {
    if steps != [] {
      var next := Apply(h, steps[0]).value;
      StepSameHand(h, steps[0], next);
      PlaySameHand(next, steps[1..], h');
    }
  }
}
