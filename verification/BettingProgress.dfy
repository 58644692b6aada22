/** Every hand ends: each step uses up a bounded measure, and no state before the end is stuck. */
module BettingProgress {
  import opened Wrappers
  import opened Seqs
  import opened Betting
  import opened BettingInvariant
  import opened BettingOpening
  import opened BettingRuns

  function StreetsLeft(phase: Phase): nat {
    match phase case Preflop => 4 case Flop => 3 case Turn => 2 case River => 1
  }

  function Rank(h: Hand): nat {
    match h.status
    case Betting => 2 * StreetsLeft(h.phase)
    case AwaitingDeal => 2 * StreetsLeft(h.phase) - 1
    case AwaitingRunout => 1
    case _ => 0
  }

  function Stacks(h: Hand): int { SumOf(StackOf, h.players) }

  function AllChips(h: Hand): int { SumOf(ChipsOf, h.players) }

  function Unfolded(h: Hand): nat { Count(Active, h.players) }

  function Waiting(h: Hand): nat {
    Count((p: Player) => Actionable(p) && p.playerId !in h.acted, h.players)
  }

  /** Streets left, then stacks, then unfolded players, then players still to act, as one number. */
  function Measure(h: Hand, chips: int): int {
    Rank(h) * ((chips + 1) * 100) + (Stacks(h) * 10 + Unfolded(h)) * 10 + Waiting(h)
  }

  ghost predicate Terminal(h: Hand) { h.status == Showdown || h.status == Complete }

  // ----- Bounds -----

  lemma {:induction false} StacksBounded(ps: seq<Player>)
    requires Chips(ps)
    ensures 0 <= SumOf(StackOf, ps) <= SumOf(ChipsOf, ps)
  {
    if ps != [] {
      assert ChipsOk(ps[0]);
      assert Chips(ps[1..]);
      StacksBounded(ps[1..]);
    }
  }

  lemma {:induction false} MeasureParts(h: Hand)
    requires Table(h.players) && Chips(h.players)
    ensures 0 <= Stacks(h) <= AllChips(h)
    ensures Unfolded(h) <= 9 && Waiting(h) <= 9
  {
    StacksBounded(h.players);
    CountBounded(Active, h.players);
    CountBounded((p: Player) => Actionable(p) && p.playerId !in h.acted, h.players);
  }

  lemma {:induction false} Lexicographic(r: nat, r': nat, chips: nat, low: int, low': int)
    requires 0 <= low < (chips + 1) * 100 && 0 <= low' < (chips + 1) * 100
    requires r' < r || (r' == r && low' < low)
    ensures r' * ((chips + 1) * 100) + low' < r * ((chips + 1) * 100) + low
  {
    var unit := (chips + 1) * 100;
    if r' < r {
      assert (r' + 1) * unit <= r * unit;
      assert (r' + 1) * unit == r' * unit + unit;
    }
  }

  lemma {:induction false} LowBound(chips: int, s: int, u: nat, w: nat)
    requires 0 <= s <= chips && u <= 9 && w <= 9
    ensures 0 <= (s * 10 + u) * 10 + w < (chips + 1) * 100
  {
  }

  // ----- A betting move uses something up -----

  lemma {:induction false} FewerWaiting(h: Hand, i: nat)
    requires Table(h.players) && i < |h.players| && Actionable(h.players[i]) && h.players[i].playerId !in h.acted
    ensures Waiting(h.(acted := AddActed(h.acted, h.players[i].playerId))) < Waiting(h)
  {
    var ps := h.players;
    var id := ps[i].playerId;
    var before := (p: Player) => Actionable(p) && p.playerId !in h.acted;
    var after := (p: Player) => Actionable(p) && p.playerId !in AddActed(h.acted, id);
    DropOne(before, after, ps, i);
  }

  lemma {:induction false} DropOne(p: Player -> bool, q: Player -> bool, ps: seq<Player>, i: nat)
    requires i < |ps| && p(ps[i]) && !q(ps[i]) && forall j :: 0 <= j < |ps| && q(ps[j]) ==> p(ps[j])
    ensures Count(q, ps) < Count(p, ps)
  {
    if i == 0 {
      CountMonotone(q, p, ps[1..]);
    } else {
      DropOne(p, q, ps[1..], i - 1);
    }
  }

  /** Within a street a move takes chips from a stack, or a player from the unfolded, or from the waiting. */
  lemma {:induction false} MoveUsesUp(h: Hand, f: Floor, i: nat, move: Move, h': Hand)
    requires Mid(h, f) && ToAct(h, i)
    requires Enact(h, LegalFor(h, i), move) == Ok(h')
    ensures Stacks(h') < Stacks(h)
         || (Stacks(h') == Stacks(h) && Unfolded(h') < Unfolded(h))
         || (Stacks(h') == Stacks(h) && Unfolded(h') == Unfolded(h) && Waiting(h') < Waiting(h))
  {
    var p := h.players[i];
    SumOfUpdate(StackOf, h.players, i, h'.players[i]);
    assert ChipsOk(p);
    match move
    case Fold => CountUpdate(Active, h.players, i, p.(folded := true));
    case Check =>
      FewerWaiting(h, i);
    case Unknown =>
    case _ => assert h'.players[i].stack < p.stack;
  }

  lemma {:induction false} ActionUsesUp(h: Hand, f: Floor, a: Action, h': Hand)
    requires Invariant(h, f) && ApplyAction(h, a) == Ok(h')
    ensures AllChips(h') == AllChips(h)
    ensures Measure(h', AllChips(h)) < Measure(h, AllChips(h))
  {
    hide Enact, FinishOrAdvance, LegalFor, ApplyAction, Measure, Mid, Table, Chips, Covered, SumOf, Count;
    var i, enacted := ActionParts(h, a, h');
    ActorIsPending(h, f, i);
    MoveUsesUp(h, f, i, a.move, enacted);
    EnactKeeps(h, f, i, a.move, enacted);
    var stamped := enacted.(version := h.version + 1);
    FinishSameHand(stamped, h.players[i].seat, h');
    ActionSameHand(h, a, h');
    SameChips(h, h');
    ActionKeeps(h, f, a, h');
    RankAfter(h, h');
    CompareMeasures(h, h');
  }

  lemma {:induction false} RankAfter(h: Hand, h': Hand)
    requires h.status == Betting && h'.phase == h.phase
    ensures Rank(h') <= Rank(h)
  {
  }

  lemma {:induction false} CompareMeasures(h: Hand, h': Hand)
    requires Table(h.players) && Chips(h.players) && Table(h'.players) && Chips(h'.players)
    requires AllChips(h') == AllChips(h)
    requires Rank(h') < Rank(h)
      || (Rank(h') == Rank(h)
          && (|| Stacks(h') < Stacks(h)
              || (Stacks(h') == Stacks(h) && Unfolded(h') < Unfolded(h))
              || (Stacks(h') == Stacks(h) && Unfolded(h') == Unfolded(h) && Waiting(h') < Waiting(h))))
    ensures Measure(h', AllChips(h)) < Measure(h, AllChips(h))
  {
    MeasureParts(h);
    MeasureParts(h');
    LowBound(AllChips(h), Stacks(h), Unfolded(h), Waiting(h));
    LowBound(AllChips(h), Stacks(h'), Unfolded(h'), Waiting(h'));
    Lexicographic(Rank(h), Rank(h'), AllChips(h), (Stacks(h) * 10 + Unfolded(h)) * 10 + Waiting(h),
                  (Stacks(h') * 10 + Unfolded(h')) * 10 + Waiting(h'));
  }

  lemma {:induction false} SameChips(h: Hand, h': Hand)
    requires SameHand(h, h')
    ensures AllChips(h') == AllChips(h)
  {
    SameSum(h.players, h'.players);
  }

  lemma {:induction false} SameSum(ps: seq<Player>, ps': seq<Player>)
    requires |ps'| == |ps| && forall i :: 0 <= i < |ps| ==> ChipsOf(ps'[i]) == ChipsOf(ps[i])
    ensures SumOf(ChipsOf, ps') == SumOf(ChipsOf, ps)
  {
    if ps != [] {
      SameSum(ps[1..], ps'[1..]);
    }
  }

  // ----- Every step uses up the measure -----

  lemma {:induction false} StepUsesUp(h: Hand, f: Floor, s: Step, h': Hand)
    requires Invariant(h, f) && Apply(h, s) == Ok(h')
    ensures AllChips(h') == AllChips(h)
    ensures Measure(h', AllChips(h)) < Measure(h, AllChips(h))
  {
    match s
    case Act(action) => ActionUsesUp(h, f, action, h');
    case TimeOut(playerId, version) =>
      var a := TimeoutIsAction(h, playerId, version, h');
      ActionUsesUp(h, f, a, h');
    case Street(version, street, cards) =>
      StepSameHand(h, s, h');
      SameChips(h, h');
      DealKeeps(h, f, version, street, cards, h');
      CompareMeasures(h, h');
    case Runout(version, cards) =>
      StepSameHand(h, s, h');
      SameChips(h, h');
      RunoutKeeps(h, f, version, cards, h');
      CompareMeasures(h, h');
  }

  /** A run of `n` steps lowers the measure by at least `n`. */
  lemma {:induction false} PlayUsesUp(h: Hand, f: Floor, steps: seq<Step>, h': Hand)
    requires Invariant(h, f) && Play(h, steps) == Ok(h')
    ensures AllChips(h') == AllChips(h)
    ensures |steps| + Measure(h', AllChips(h)) <= Measure(h, AllChips(h))
    decreases |steps|
  {
    if steps != [] {
      var next := Apply(h, steps[0]).value;
      StepUsesUp(h, f, steps[0], next);
      var f' := StepKeeps(h, f, steps[0], next);
      PlayUsesUp(next, f', steps[1..], h');
    }
  }

  lemma {:induction false} MeasureBounds(h: Hand)
    requires Table(h.players) && Chips(h.players)
    ensures 0 <= Measure(h, AllChips(h)) < 900 * (AllChips(h) + 1)
  {
    MeasureParts(h);
    LowBound(AllChips(h), Stacks(h), Unfolded(h), Waiting(h));
    var unit := (AllChips(h) + 1) * 100;
    assert 0 <= Rank(h) * unit <= 8 * unit;
  }

  /** No hand runs forever: with T chips on the table it has fewer than 900 (T + 1) steps. */
  lemma {:induction false} HandsAreFinite(c: Config, steps: seq<Step>, h: Hand)
    requires PlayFrom(c, steps) == Ok(h)
    ensures |steps| < 900 * (AllChips(h) + 1)
  {
    var start := CreateBettingState(c).value;
    OpeningHolds(c, start);
    PlayUsesUp(start, Floor(c.ante, !StrandsPot(c)), steps, h);
    var f := PlayKeeps(start, Floor(c.ante, !StrandsPot(c)), steps, h);
    MeasureBounds(start);
    MeasureBounds(h);
  }

  // ----- No state before the end is stuck -----

  /** While betting, the player at the action seat can act, is pending, and is the one who may time out. */
  lemma {:induction false} TimeoutIsLegal(h: Hand, f: Floor) returns (i: nat)
    requires Invariant(h, f) && h.status == Betting
    ensures ToAct(h, i) && i < |h.players|
    ensures ApplyTimeout(h, h.players[i].playerId, h.version).Ok?
    ensures forall j :: 0 <= j < |h.players| && j != i ==> ApplyTimeout(h, h.players[j].playerId, h.version).Err?
  {
    i :| ToAct(h, i);
    ActorMayTimeOut(h, f, i);
    forall j | 0 <= j < |h.players| && j != i ensures ApplyTimeout(h, h.players[j].playerId, h.version).Err? {
      OutOfTurnFails(h, i, j);
    }
  }

  lemma {:induction false} ActorIsLegal(h: Hand, i: nat)
    requires Table(h.players) && h.status == Betting && ToAct(h, i)
    ensures LegalActions(h, h.players[i].playerId) == Ok(LegalFor(h, i))
  {
    assert h.players[i] in h.players;
  }

  lemma {:induction false} ActorMayTimeOut(h: Hand, f: Floor, i: nat)
    requires Mid(h, f) && h.status == Betting && ToAct(h, i)
    ensures ApplyTimeout(h, h.players[i].playerId, h.version).Ok?
  {
    hide FinishOrAdvance, ApplyAction, Matched, Nominal, Raises, Board, Chips, Bets, Table;
    ActorIsLegal(h, i);
    EnactedIsAccepted(h, f, i, if LegalFor(h, i).canCheck then Check else Fold);
  }

  /** Whatever the actor's move, if its own rules allow it the action is accepted. */
  lemma {:induction false} EnactedIsAccepted(h: Hand, f: Floor, i: nat, move: Move)
    requires Mid(h, f) && h.status == Betting && ToAct(h, i)
    requires Enact(h, LegalFor(h, i), move).Ok?
    ensures ApplyAction(h, Action(h.players[i].playerId, h.version, move)).Ok?
  {
    hide Enact, FinishOrAdvance, LegalFor, LegalActions, Matched, Nominal, Raises, Board, Chips, Bets;
    ActorIsLegal(h, i);
    MoveIsJudged(h, f, i, move);
  }

  /** A move that is enacted is judged, so the action is accepted. */
  lemma {:induction false} MoveIsJudged(h: Hand, f: Floor, i: nat, move: Move)
    requires Mid(h, f) && h.status == Betting && ToAct(h, i)
    requires Enact(h, LegalFor(h, i), move).Ok?
    ensures FinishOrAdvance(Enact(h, LegalFor(h, i), move).value.(version := h.version + 1), h.players[i].seat).Ok?
  {
    hide Enact, FinishOrAdvance, LegalFor, Mid, Verdict;
    var enacted := Enact(h, LegalFor(h, i), move).value;
    EnactKeeps(h, f, i, move, enacted);
    var stamped := enacted.(version := h.version + 1);
    SameBets(enacted, f, stamped);
    MidVerdict(stamped, f, h.players[i].seat);
  }

  lemma {:induction false} OutOfTurnFails(h: Hand, i: nat, j: nat)
    requires Table(h.players) && i < |h.players| && j < |h.players| && i != j
    requires h.actionSeat == Some(h.players[i].seat)
    ensures LegalActions(h, h.players[j].playerId).Err?
  {
    assert h.players[j] in h.players;
  }

  ghost predicate PrefixOf(board: seq<int>, full: seq<int>) {
    |board| <= |full| && board == full[..|board|]
  }

  lemma {:induction false} NextCards(board: seq<int>, full: seq<int>, upTo: nat)
    requires Distinct(full) && ValidCards(full) && PrefixOf(board, full) && |board| <= upTo <= |full|
    ensures board + full[|board|..upTo] == full[..upTo]
    ensures Distinct(board + full[|board|..upTo]) && ValidCards(full[|board|..upTo])
  {
    forall c | c in full[|board|..upTo] ensures 0 <= c < 52 {
      assert c in full;
    }
  }

  /** Dealing on from a full board of five always succeeds. */
  lemma {:induction false} DealingIsLegal(h: Hand, f: Floor, full: seq<int>) returns (s: Step, h': Hand)
    requires Invariant(h, f) && (h.status == AwaitingDeal || h.status == AwaitingRunout)
    requires |full| == 5 && Distinct(full) && ValidCards(full) && PrefixOf(h.board, full)
    ensures Apply(h, s) == Ok(h') && PrefixOf(h'.board, full)
  {
    var n := |h.board|;
    if h.status == AwaitingDeal {
      var street := NextPhase(h.phase);
      NextCards(h.board, full, BoardSize(street));
      s := Step.Street(h.version, street, full[n..BoardSize(street)]);
    } else {
      NextCards(h.board, full, 5);
      s := Step.Runout(h.version, full[n..5]);
    }
    h' := Apply(h, s).value;
  }

  /**
   * From every reachable state, timeouts and dealing alone finish the hand, whatever five cards the
   * board will show.
   */
  lemma {:induction false} TimeoutsFinishTheHand(h: Hand, f: Floor, full: seq<int>) returns (steps: seq<Step>, h': Hand)
    requires Invariant(h, f)
    requires |full| == 5 && Distinct(full) && ValidCards(full) && PrefixOf(h.board, full)
    ensures Play(h, steps) == Ok(h') && Terminal(h')
    decreases Measure(h, AllChips(h))
  {
    MeasureBounds(h);
    if Terminal(h) {
      return [], h;
    }
    var s: Step, next: Hand;
    if h.status == Betting {
      var i := TimeoutIsLegal(h, f);
      s := TimeOut(h.players[i].playerId, h.version);
      next := Apply(h, s).value;
      TimeoutKeepsBoard(h, h.players[i].playerId, next);
    } else {
      s, next := DealingIsLegal(h, f, full);
    }
    StepUsesUp(h, f, s, next);
    var f' := StepKeeps(h, f, s, next);
    steps, h' := TimeoutsFinishTheHand(next, f', full);
    PlayCons(h, s, next, steps, h');
    steps := [s] + steps;
  }

  lemma {:induction false} TimeoutKeepsBoard(h: Hand, playerId: PlayerId, h': Hand)
    requires ApplyTimeout(h, playerId, h.version) == Ok(h')
    ensures h'.board == h.board
  {
    var a := TimeoutIsAction(h, playerId, h.version, h');
    var legal := LegalActions(h, playerId).value;
    FinishSameHand(Enact(h, legal, a.move).value.(version := h.version + 1), h.players[legal.index].seat, h');
  }

  // ----- Raise rights -----

  ghost predicate FullRaise(h: Hand, h': Hand) {
    h'.currentBet > h.currentBet && IsFullRaise(h, h'.currentBet)
  }

  /** Some step of the run deals a street or raises by at least the last full raise. */
  ghost predicate Reopens(h: Hand, steps: seq<Step>)
    decreases |steps|
  {
    steps != [] && Apply(h, steps[0]).Ok? &&
    var next := Apply(h, steps[0]).value;
    steps[0].Street? || FullRaise(h, next) || Reopens(next, steps[1..])
  }

  lemma {:induction false} MoveMarksActed(h: Hand, legal: Legal, move: Move, h': Hand, playerId: PlayerId)
    requires legal.index < |h.players| && Enact(h, legal, move) == Ok(h')
    ensures playerId in h.acted ==> playerId in h'.acted || FullRaise(h, h')
    ensures h.players[legal.index].playerId in h'.acted
  {
  }

  lemma {:induction false} ActedStays(h: Hand, a: Action, h': Hand, playerId: PlayerId)
    requires ApplyAction(h, a) == Ok(h') && playerId in h.acted
    ensures playerId in h'.acted || FullRaise(h, h')
  {
    hide Enact, FinishOrAdvance, LegalFor;
    var i, enacted := ActionParts(h, a, h');
    MoveMarksActed(h, LegalFor(h, i), a.move, enacted, playerId);
    FinishSameHand(enacted.(version := h.version + 1), h.players[i].seat, h');
  }

  /**
   * A player who has acted may not bet or raise again until somebody else makes a full raise or the
   * next street is dealt: calls, folds and short all-ins do not reopen the betting.
   */
  lemma {:induction false} RaiseRightsStayClosed(h: Hand, steps: seq<Step>, h': Hand, playerId: PlayerId)
    requires Play(h, steps) == Ok(h') && !Reopens(h, steps)
    requires playerId in h.acted
    ensures playerId in h'.acted
    ensures LegalActions(h', playerId).Ok? ==>
      !LegalActions(h', playerId).value.canBet && !LegalActions(h', playerId).value.canRaise
    decreases |steps|
  {
    if steps != [] {
      var next := Apply(h, steps[0]).value;
      StepKeepsActed(h, steps[0], next, playerId);
      RaiseRightsStayClosed(next, steps[1..], h', playerId);
    }
  }

  lemma {:induction false} StepKeepsActed(h: Hand, s: Step, h': Hand, playerId: PlayerId)
    requires Apply(h, s) == Ok(h') && playerId in h.acted && !s.Street? && !FullRaise(h, h')
    ensures playerId in h'.acted
  {
    match s
    case Act(action) => ActedStays(h, action, h', playerId);
    case TimeOut(id, version) =>
      var a := TimeoutIsAction(h, id, version, h');
      ActedStays(h, a, h', playerId);
    case Runout(version, cards) =>
  }
}
