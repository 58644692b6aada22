/** Exactly which openings let a hand finish with a pot nobody can win. */
module Stranding {
  import opened Wrappers
  import opened Seqs
  import opened Games
  import opened Betting
  import opened BettingInvariant
  import opened BettingOpening
  import opened BettingRuns
  import opened BettingProgress
  import BettingOrder
  import Pots
  import SidePots

  function StakeOf(p: Player): Pots.Stake { Pots.Stake(p.playerId, p.contributed, p.folded) }

  function HandStakes(h: Hand): seq<Pots.Stake> { Map(StakeOf, h.players) }

  // ----- A covered hand has an owner for every contested level -----

  lemma {:induction false} StakesAreValid(h: Hand)
    requires Table(h.players) && Chips(h.players)
    ensures SidePots.Valid(HandStakes(h))
  {
    forall i | 0 <= i < |HandStakes(h)| ensures HandStakes(h)[i].contributed >= 0 {
      assert ChipsOk(h.players[i]);
    }
  }

  lemma {:induction false} CoveredIsOwned(h: Hand, levels: seq<int>)
    requires Covered(h.players)
    ensures SidePots.OwnedLevels(HandStakes(h), levels)
  {
    var ps, stakes := h.players, HandStakes(h);
    var owner, exempt :| CoveredBy(ps, owner, exempt);
    forall k | 0 <= k < |levels| && Count(SidePots.AtLeast(levels[k]), stakes) >= 2
      ensures exists s :: s in stakes && s.contributed >= levels[k] && !s.folded
    {
      var i, j := TwoPositions(SidePots.AtLeast(levels[k]), stakes);
      assert stakes[i] in stakes && stakes[j] in stakes && stakes[owner] in stakes;
      var one := if i == exempt then j else i;
      assert ps[one].folded ==> ps[one].contributed <= ps[owner].contributed;
      assert stakes[one] in stakes;
    }
  }

  lemma {:induction false} SafeHandsBuildPots(h: Hand, f: Floor)
    requires Invariant(h, f) && f.safe
    ensures Pots.BuildPots(HandStakes(h)).Ok?
  {
    StakesAreValid(h);
    CoveredIsOwned(h, Pots.Levels(HandStakes(h)));
    SidePots.BuildPotsSucceedsIff(HandStakes(h));
  }

  // ----- The failing family: everyone who paid the ante folds -----

  /** Only players short of the ante can still win, while two full antes sit in the pot. */
  ghost predicate Stranded(h: Hand) {
    && h.phase == Preflop
    && h.ante > 0
    && (forall i :: 0 <= i < |h.players| ==>
          && (h.players[i].allIn ==> h.players[i].contributed < h.ante)
          && (!h.players[i].allIn ==> h.players[i].contributed >= h.ante)
          && (Actionable(h.players[i]) ==> h.players[i].street < h.currentBet))
    && Count(NotAllIn, h.players) >= 2
    && (exists i :: AllInLive(h.players, i))
  }

  predicate NotAllIn(p: Player) { !p.allIn }

  lemma {:induction false} PostingStrands(c: Config, sb: nat, bb: nat, h: Hand)
    requires ValidConfig(c) && Posting(c, sb, bb, -1, h) && Strands(c, sb, bb)
    ensures Stranded(h)
  {
    forall i | 0 <= i < |h.players|
      ensures (h.players[i].allIn ==> h.players[i].contributed < h.ante)
        && (!h.players[i].allIn ==> h.players[i].contributed >= h.ante)
        && (Actionable(h.players[i]) ==> h.players[i].street < h.currentBet)
        && (h.players[i].allIn <==> c.players[i].stack <= c.ante)
    {
      PostedShort(c, sb, bb, h, i);
    }
    var rich := (e: Entrant) => e.stack > c.ante;
    var i, j := TwoPositions(rich, c.players);
    CountAtLeastTwo(NotAllIn, h.players, i, j);
    assert AllInLive(h.players, bb);
  }

  lemma {:induction false} PostedShort(c: Config, sb: nat, bb: nat, h: Hand, i: nat)
    requires ValidConfig(c) && Posting(c, sb, bb, -1, h) && Strands(c, sb, bb) && i < |h.players|
    ensures var p := h.players[i];
      && (p.allIn ==> p.contributed < h.ante)
      && (!p.allIn ==> p.contributed >= h.ante)
      && (Actionable(p) ==> p.street < h.currentBet)
      && (p.allIn <==> c.players[i].stack <= c.ante)
  {
    assert c.players[i] in c.players;
  }

  /** Facing a bet, a timeout is a fold. */
  lemma {:induction false} TimeoutIsFold(h: Hand, i: nat, h': Hand)
    requires i < |h.players| && LegalActions(h, h.players[i].playerId) == Ok(LegalFor(h, i))
    requires h.players[i].street < h.currentBet
    requires ApplyTimeout(h, h.players[i].playerId, h.version) == Ok(h')
    ensures Enact(h, LegalFor(h, i), Fold).Ok?
    ensures FinishOrAdvance(Enact(h, LegalFor(h, i), Fold).value.(version := h.version + 1), h.players[i].seat)
        == Ok(h')
  {
    hide Enact, FinishOrAdvance, LegalActions;
  }

  /** In a stranded hand a timeout keeps it stranded, and once betting is over nobody can act. */
  lemma {:induction false} TimeoutStaysStranded(h: Hand, i: nat, h': Hand)
    requires Table(h.players) && h.status == Betting && Stranded(h) && ToAct(h, i)
    requires ApplyTimeout(h, h.players[i].playerId, h.version) == Ok(h')
    ensures Stranded(h') && h'.board == h.board
    ensures h'.status in {Betting, AwaitingRunout, Complete} && (h'.status != Betting ==> Quiet(h'))
  {
    ActorIsLegal(h, i);
    TimeoutIsFold(h, i, h');
    var folded := Enact(h, LegalFor(h, i), Fold).value;
    FoldStaysStranded(h, i, folded);
    var stamped := folded.(version := h.version + 1);
    FinishStranded(stamped, h.players[i].seat, h');
    FinishIsQuiet(stamped, h.players[i].seat, h');
  }

  lemma {:induction false} FoldStaysStranded(h: Hand, i: nat, h': Hand)
    requires Stranded(h) && i < |h.players| && Actionable(h.players[i])
    requires Enact(h, LegalFor(h, i), Fold) == Ok(h')
    ensures Stranded(h') && h'.status == h.status && h'.phase == h.phase && h'.board == h.board
  {
    CountUpdate(NotAllIn, h.players, i, h'.players[i]);
    var k :| AllInLive(h.players, k);
    assert AllInLive(h'.players, k);
  }

  lemma {:induction false} FinishStranded(h: Hand, actor: int, h': Hand)
    requires Stranded(h) && FinishOrAdvance(h, actor) == Ok(h') && h.status == Betting
    ensures Stranded(h') && h'.board == h.board && h'.status in {Betting, AwaitingRunout, Complete}
  {
    FinishSameHand(h, actor, h');
    var k :| AllInLive(h.players, k);
    assert AllInLive(h'.players, k);
    var canAct := Filter(Actionable, h.players);
    if |canAct| > 0 {
      assert canAct[0] in canAct;
      var i :| 0 <= i < |h.players| && h.players[i] == canAct[0];
      assert !Settled(h, canAct[0]);
    }
  }

  lemma {:induction false} LowerStake(stakes: seq<Pots.Stake>, i: nat, j: nat) returns (k: nat)
    requires SidePots.Valid(stakes) && i < j < |stakes|
    requires stakes[i].contributed > 0 && stakes[j].contributed > 0
    ensures k < |Pots.Levels(stakes)|
    ensures Pots.Levels(stakes)[k] == Min(stakes[j].contributed, stakes[i].contributed)
    ensures Count(SidePots.AtLeast(Pots.Levels(stakes)[k]), stakes) >= 2
  {
    SidePots.AllNonNegative(stakes);
    SidePots.LevelsAreLevelled(stakes);
    var level := Min(stakes[j].contributed, stakes[i].contributed);
    assert stakes[i] in stakes && stakes[j] in stakes && level in Pots.Levels(stakes);
    k :| 0 <= k < |Pots.Levels(stakes)| && Pots.Levels(stakes)[k] == level;
    CountAtLeastTwo(SidePots.AtLeast(level), stakes, i, j);
  }

  /** A stranded hand that is over has a level of two full antes whose payers all folded. */
  lemma {:induction false} StrandedCannotSettle(h: Hand)
    requires Table(h.players) && Chips(h.players) && Stranded(h) && Quiet(h)
    ensures Pots.BuildPots(HandStakes(h)) == Err(Pots.NoEligiblePlayer)
  {
    hide Pots.BuildPots, Pots.Levels, Count;
    var stakes := HandStakes(h);
    StakesAreValid(h);
    var i, j := TwoPositions(NotAllIn, h.players);
    var k := LowerStake(stakes, i, j);
    SidePots.BuildPotsSucceedsIff(stakes);
    forall s | s in stakes && s.contributed >= Pots.Levels(stakes)[k] ensures s.folded {
      var m :| 0 <= m < |stakes| && stakes[m] == s;
      assert !Actionable(h.players[m]);
    }
  }

  /** Nobody is left to act. */
  ghost predicate Quiet(h: Hand) {
    forall i :: 0 <= i < |h.players| ==> !Actionable(h.players[i])
  }

  lemma {:induction false} FinishIsQuiet(h: Hand, actor: int, h': Hand)
    requires Stranded(h) && FinishOrAdvance(h, actor) == Ok(h') && h.status == Betting
    ensures h'.status != Betting ==> Quiet(h')
  {
    FinishSameHand(h, actor, h');
    if i :| 0 <= i < |h.players| && Actionable(h.players[i]) {
      SomebodyBetsOn(h, actor, h', i);
    }
  }

  /** While anybody in a stranded hand can still act, the street is not over. */
  lemma {:induction false} SomebodyBetsOn(h: Hand, actor: int, h': Hand, i: nat)
    requires Stranded(h) && FinishOrAdvance(h, actor) == Ok(h') && h.status == Betting
    requires i < |h.players| && Actionable(h.players[i])
    ensures h'.status == Betting
  {
    var ps := h.players;
    var live, canAct := Filter(Active, ps), Filter(Actionable, ps);
    var k :| AllInLive(ps, k);
    assert ps[k] in live && ps[i] in live && ps[i] in canAct && ps[i] != ps[k];
    TwoMembers(live, ps[i], ps[k]);
    assert !Settled(h, ps[i]);
    assert canAct[0] in canAct && canAct[0] in ps;
  }

  lemma {:induction false} TwoMembers(xs: seq<Player>, a: Player, b: Player)
    requires a in xs && b in xs && a != b
    ensures |xs| >= 2
  {
  }

  lemma {:induction false} RunOutBoard(h: Hand, full: seq<int>) returns (steps: seq<Step>, h': Hand)
    requires h.status == AwaitingRunout && h.board == []
    requires |full| == 5 && Distinct(full) && ValidCards(full)
    ensures Play(h, steps) == Ok(h') && h'.status == Showdown && h'.players == h.players
  {
    assert [] + full == full;
    h' := DealRemainingBoard(h, h.version, full).value;
    steps := [Runout(h.version, full)];
    PlayCons(h, steps[0], h', [], h');
    assert steps == [steps[0]] + [];
  }

  /** From a stranded opening, timeouts alone reach a finished hand that cannot be settled. */
  lemma {:induction false} FoldOut(h: Hand, f: Floor, full: seq<int>) returns (steps: seq<Step>, h': Hand)
    requires Invariant(h, f) && Stranded(h) && (h.status == Betting || Quiet(h))
    requires h.status == Betting || h.status == AwaitingRunout || h.status == Complete
    requires |full| == 5 && Distinct(full) && ValidCards(full) && h.board == []
    ensures Play(h, steps) == Ok(h') && Terminal(h')
    ensures Pots.BuildPots(HandStakes(h')) == Err(Pots.NoEligiblePlayer)
    decreases Measure(h, AllChips(h))
  {
    MeasureBounds(h);
    if h.status == Complete {
      StrandedCannotSettle(h);
      return [], h;
    }
    if h.status == AwaitingRunout {
      StrandedCannotSettle(h);
      steps, h' := RunOutBoard(h, full);
      return;
    }
    var i := TimeoutIsLegal(h, f);
    var s := TimeOut(h.players[i].playerId, h.version);
    var next := Apply(h, s).value;
    TimeoutStaysStranded(h, i, next);
    StepUsesUp(h, f, s, next);
    var f' := StepKeeps(h, f, s, next);
    steps, h' := FoldOut(next, f', full);
    PlayCons(h, s, next, steps, h');
    steps := [s] + steps;
  }

  lemma {:induction false} SomeoneActs(h: Hand)
    requires Stranded(h) && forall i :: 0 <= i < |h.players| ==> Active(h.players[i])
    ensures FirstActor(h).Some?
  {
    var i, j := TwoPositions(NotAllIn, h.players);
    assert Actionable(h.players[i]) && h.players[i] in h.players;
    BettingOrder.NextSeatFinds(h.players, match h.straddle case None => h.bigBlindSeat case Some(s) => s.seat,
      Actionable);
  }

  ghost predicate AlwaysSettles(c: Config) {
    forall steps: seq<Step>, h: Hand :: PlayFrom(c, steps) == Ok(h) && Terminal(h) ==> Pots.BuildPots(HandStakes(h)).Ok?
  }

  /**
   * Every finished hand of an accepted opening can be layered into pots if and only if the opening
   * does not strand the pot. In the failing family the pots have a level without an eligible player.
   */
  lemma {:induction false} SettlesIffNotStranded(c: Config)
    requires Accepted(c)
    ensures AlwaysSettles(c) <==> !StrandsPot(c)
  {
    if !StrandsPot(c) {
      forall steps: seq<Step>, h: Hand | PlayFrom(c, steps) == Ok(h) && Terminal(h)
        ensures Pots.BuildPots(HandStakes(h)).Ok?
      {
        var f := ReachableInvariant(c, steps, h);
        SafeHandsBuildPots(h, f);
      }
    } else {
      var steps, h := StrandedRun(c);
    }
  }

  lemma {:induction false} StrandedOpens(o: Hand, h: Hand)
    requires Stranded(o) && o.status == Betting && forall i :: 0 <= i < |o.players| ==> Active(o.players[i])
    requires FirstActor(o).Some? ==> h == o.(actionSeat := FirstActor(o))
    ensures Stranded(h) && h.status == Betting && h.board == o.board
  {
    SomeoneActs(o);
    var k :| AllInLive(o.players, k);
    assert AllInLive(h.players, k);
  }

  lemma {:induction false} StrandedOpening(c: Config)
    requires Accepted(c) && StrandsPot(c)
    ensures var o := Opened(c);
      && Stranded(o) && o.status == Betting && o.board == []
      && forall i :: 0 <= i < |o.players| ==> Active(o.players[i])
  {
    hide Stranded, Table, PostedAll, CheckConfig, AfterBlinds, AfterStraddle, SmallBlindSeat, BigBlindSeat;
    CheckedConfig(c);
    AcceptedStraddle(c);
    var sb, bb, straddler := OpeningPosts(c);
    StrandsByPosition(c, sb, bb, straddler);
    PostingStrands(c, sb, bb, Opened(c));
    PostedActive(c, sb, bb, straddler, Opened(c));
  }

  lemma {:induction false} PostedActive(c: Config, sb: nat, bb: nat, straddler: int, h: Hand)
    requires Posting(c, sb, bb, straddler, h)
    ensures forall i :: 0 <= i < |h.players| ==> Active(h.players[i])
  {
  }

  lemma {:induction false} CreatedFrom(c: Config, start: Hand)
    requires CreateBettingState(c) == Ok(start)
    ensures FirstActor(Opened(c)).Some? ==> start == Opened(c).(actionSeat := FirstActor(Opened(c)))
  {
  }

  lemma {:induction false} StrandedStart(c: Config) returns (start: Hand)
    requires Accepted(c) && StrandsPot(c)
    ensures CreateBettingState(c) == Ok(start)
    ensures Invariant(start, Floor(c.ante, false)) && Stranded(start) && start.status == Betting && start.board == []
  {
    OpeningSucceeds(c);
    start := CreateBettingState(c).value;
    OpeningHolds(c, start);
    CreatedFrom(c, start);
    StrandedOpening(c);
    StrandedOpens(Opened(c), start);
  }

  lemma {:induction false} StrandedRun(c: Config) returns (steps: seq<Step>, h: Hand)
    requires Accepted(c) && StrandsPot(c)
    ensures PlayFrom(c, steps) == Ok(h) && Terminal(h)
    ensures Pots.BuildPots(HandStakes(h)) == Err(Pots.NoEligiblePlayer)
  {
    var start := StrandedStart(c);
    steps, h := FoldAround(start, Floor(c.ante, false));
    PlayedFrom(c, start, steps, h);
  }

  /** Three players with an ante of ten: the big blind has five left, the others a hundred. */
  const EXAMPLE := Config(1, NLH, [Entrant(0, 0, 100), Entrant(1, 1, 100), Entrant(2, 2, 5)], 0, 1, 2, 10, None)

  lemma {:induction false} ExampleIsValid()
    ensures ValidConfig(EXAMPLE) && Accepted(EXAMPLE)
  {
    assert EXAMPLE.players[0].seat == EXAMPLE.buttonSeat;
    CheckedConfig(EXAMPLE);
  }

  lemma {:induction false} ExampleSeats()
    ensures SmallBlindSeat(EXAMPLE) == 1 && BigBlindSeat(EXAMPLE) == 2
    ensures StackAt(EXAMPLE, 1) == 100 && StackAt(EXAMPLE, 2) == 5
  {
    hide AfterAntes, AfterBlinds, SmallBlindSeat, BigBlindSeat, Posting, StraddleFits, CheckConfig, CheckStraddle,
      StackAt;
    ExampleIsValid();
    AcceptedStraddle(EXAMPLE);
    var sb, bb, _ := OpeningPosts(EXAMPLE);
    var players := EXAMPLE.players;
    assert players[0].seat == 0 && players[1].seat == 1 && players[2].seat == 2;
    assert Follows(EXAMPLE, 0, sb) && sb == 1;
    assert Follows(EXAMPLE, 1, bb) && bb == 2;
    ExampleBlinds(sb, bb);
    FindEntrant(EXAMPLE, 1);
    FindEntrant(EXAMPLE, 2);
  }

  lemma {:induction false} ExampleBlinds(sb: nat, bb: nat)
    requires sb < 3 && bb < 3 && exists straddler :: Posting(EXAMPLE, sb, bb, straddler, Opened(EXAMPLE))
    ensures SmallBlindSeat(EXAMPLE) == EXAMPLE.players[sb].seat && BigBlindSeat(EXAMPLE) == EXAMPLE.players[bb].seat
  {
    hide AfterAntes, AfterBlinds, SmallBlindSeat, BigBlindSeat, PostedAll;
  }

  /** Such openings exist. */
  lemma {:induction false} ExampleStrands()
    ensures Accepted(EXAMPLE) && StrandsPot(EXAMPLE)
  {
    hide SmallBlindSeat, BigBlindSeat, StackAt, Count, CheckConfig;
    ExampleIsValid();
    ExampleSeats();
    var players := EXAMPLE.players;
    assert players[0].stack > EXAMPLE.ante && players[1].stack > EXAMPLE.ante;
    CountAtLeastTwo((e: Entrant) => e.stack > EXAMPLE.ante, players, 0, 1);
  }

  /** So a hand of three players can really finish without an owner for its pot. */
  lemma {:induction false} ExampleRun() returns (steps: seq<Step>, h: Hand)
    ensures PlayFrom(EXAMPLE, steps) == Ok(h) && Terminal(h)
    ensures Pots.BuildPots(HandStakes(h)) == Err(Pots.NoEligiblePlayer)
  {
    hide PlayFrom, Pots.BuildPots, HandStakes, Accepted, StrandsPot;
    ExampleStrands();
    steps, h := StrandedRun(EXAMPLE);
  }

  lemma {:induction false} FoldAround(start: Hand, f: Floor) returns (steps: seq<Step>, h: Hand)
    requires Invariant(start, f) && Stranded(start) && start.status == Betting && start.board == []
    ensures Play(start, steps) == Ok(h) && Terminal(h)
    ensures Pots.BuildPots(HandStakes(h)) == Err(Pots.NoEligiblePlayer)
  {
    steps, h := FoldOut(start, f, [0, 1, 2, 3, 4]);
  }

  lemma {:induction false} PlayedFrom(c: Config, start: Hand, steps: seq<Step>, h: Hand)
    requires CreateBettingState(c) == Ok(start) && Play(start, steps) == Ok(h)
    ensures PlayFrom(c, steps) == Ok(h)
  {
  }

  /** An accepted configuration always opens: judging an all-in opening cannot fail. */
  lemma {:induction false} OpeningSucceeds(c: Config)
    requires Accepted(c)
    ensures CreateBettingState(c).Ok?
  {
    hide ValidConfig, StraddleFits, CheckConfig, CheckStraddle, Mid, Matched, Verdict, AfterBlinds, AfterStraddle;
    CheckedConfig(c);
    AcceptedStraddle(c);
    OpenedIsMid(c);
    MidVerdict(Opened(c), Floor(c.ante, false), Opened(c).bigBlindSeat);
  }

  lemma {:induction false} OpenedIsMid(c: Config)
    requires ValidConfig(c) && StraddleFits(c, AfterBlinds(c), BigBlindSeat(c))
    ensures Mid(Opened(c), Floor(c.ante, false)) && Opened(c).status == Betting
  {
    var sb, bb, straddler := OpeningPosts(c);
    PostingIsOwned(c, sb, bb, straddler, Opened(c));
  }
}
