/** What every event the coordinator writes keeps: seats, hand, clock and board of a table. */
module TableInvariant {
  import opened Wrappers
  import opened Seqs
  import opened Tables
  import opened TableSeats
  import B = Betting
  import BI = BettingInvariant
  import BettingOpening
  import BettingRuns
  import D = DeckMerkle
  import DealMaps
  import Dealing
  import F = Fairness
  import FinishedHands
  import Seats

  // ----- The hand being played -----

  /** The hand is a reachable betting state in which at least two players paid. */
  ghost predicate HandOk(h: B.Hand) {
    (exists f :: BI.Invariant(h, f)) && Count(FinishedHands.Paid, h.players) >= 2
  }

  /** Moreover it was opened so that its pot cannot be stranded. */
  ghost predicate SafeHand(h: B.Hand) {
    exists f :: BI.Invariant(h, f) && f.safe
  }

  lemma {:induction false} StepOk(h: B.Hand, step: B.Step, h': B.Hand)
    requires HandOk(h) && B.Apply(h, step) == Ok(h')
    ensures HandOk(h') && BettingRuns.SameHand(h, h') && h'.version == h.version + 1
    ensures SafeHand(h) ==> SafeHand(h')
  {
    var f :| BI.Invariant(h, f);
    var f' := BettingRuns.StepKeeps(h, f, step, h');
    BettingRuns.StepSameHand(h, step, h');
    FinishedHands.StepGrows(h, f, step, h');
    FinishedHands.MorePaid(h.players, h'.players);
    if SafeHand(h) {
      var g :| BI.Invariant(h, g) && g.safe;
      var g' := BettingRuns.StepKeeps(h, g, step, h');
    }
  }

  /** What the fixed facts of a hand mean to the seats at the table. */
  lemma {:induction false} StillHeld(seats: seq<Seat>, h: B.Hand, h': B.Hand)
    requires AllHeld(seats, h.players) && BettingRuns.SameHand(h, h')
    ensures AllHeld(seats, h'.players)
  {
    forall i | 0 <= i < |h'.players| ensures SeatHolds(seats, h'.players[i]) {
      assert SeatHolds(seats, h.players[i]);
      var j :| 0 <= j < |seats| && Carries(seats[j], h.players[i]);
      assert Carries(seats[j], h'.players[i]);
    }
  }

  // ----- The clock -----

  /** A hand has a turn exactly while it is betting, and the turn is the actor's. */
  ghost predicate TurnOk(h: B.Hand, turn: Option<Turn>) {
    && (turn.Some? <==> h.status == B.Betting)
    && (turn.Some? ==> exists i :: BI.ToAct(h, i) && turn.value.playerId == h.players[i].playerId)
  }

  /** The clock always finds its actor. */
  lemma {:induction false} ClockFinds(t: Timed, actionClock: int, now: int)
    requires HandOk(t.hand)
    ensures TurnFor(t, actionClock, now).Ok? && TurnOk(t.hand, TurnFor(t, actionClock, now).value)
  {
    var f :| BI.Invariant(t.hand, f);
    if t.hand.status == B.Betting {
      var i :| BI.ToAct(t.hand, i);
      assert t.hand.players[i] in t.hand.players;
    }
  }

  // ----- The board -----

  /** Whatever deck is behind the root, the board is what it holds at the planned positions. */
  ghost predicate BoardOk(hand: CurrentHand) {
    && PlanOf(hand.fairness).Ok?
    && forall deck: D.CommittedDeck :: D.Commits(deck) && deck.root == hand.deckRoot ==>
         Dealing.CommittedBoard(deck.order, PlanOf(hand.fairness).value, hand.betting.hand.board)
  }

  lemma {:induction false} CommittedExtends(order: seq<int>, plan: DealMaps.Plan, board: seq<int>, cards: seq<int>,
      positions: seq<int>)
    requires Dealing.CommittedBoard(order, plan, board)
    requires |board| + |positions| <= |Dealing.BoardPositions(plan)|
    requires positions == Dealing.BoardPositions(plan)[|board|..|board| + |positions|]
    requires forall k :: 0 <= k < |positions| ==> 0 <= positions[k] < |order|
    requires cards == Dealing.CardsAt(order, positions)
    ensures Dealing.CommittedBoard(order, plan, board + cards)
  {
    var all := Dealing.BoardPositions(plan);
    forall k | 0 <= k < |board + cards| ensures 0 <= all[k] < |order| && (board + cards)[k] == order[all[k]] {
      if k >= |board| {
        assert all[k] == positions[k - |board|];
      }
    }
  }

  /** Verified cards for the next positions keep the board committed. */
  lemma {:induction false} VerifiedExtends(hand: CurrentHand, shown: seq<D.Reveal>, positions: seq<int>,
      next: CurrentHand)
    requires BoardOk(hand) && next.fairness == hand.fairness && next.deckRoot == hand.deckRoot
    requires PlanOf(hand.fairness).value.boards != []
    requires var all := Dealing.BoardPositions(PlanOf(hand.fairness).value); var n := |hand.betting.hand.board|;
      n + |positions| <= |all| && positions == all[n..n + |positions|]
    requires Dealing.VerifiedCards(shown, positions, hand.deckRoot).Ok?
    requires next.betting.hand.board
        == hand.betting.hand.board + Dealing.VerifiedCards(shown, positions, hand.deckRoot).value
    ensures BoardOk(next)
  {
    var plan := PlanOf(hand.fairness).value;
    forall deck: D.CommittedDeck | D.Commits(deck) && deck.root == next.deckRoot
      ensures Dealing.CommittedBoard(deck.order, plan, next.betting.hand.board)
    {
      Dealing.VerifiedCardsAreCommitted(deck, shown, positions);
      CommittedExtends(deck.order, plan, hand.betting.hand.board,
        Dealing.VerifiedCards(shown, positions, hand.deckRoot).value, positions);
    }
  }

  // ----- The invariant -----

  ghost predicate PlayOk(seats: seq<Seat>, hand: CurrentHand) {
    && HandOk(hand.betting.hand)
    && |hand.betting.banks| == |hand.betting.hand.players|
    && TurnOk(hand.betting.hand, hand.turn)
    && BoardOk(hand)
    && hand.fairness.game == hand.betting.hand.game
    && hand.fairness.seats == |hand.betting.hand.players|
    && AllHeld(seats, hand.betting.hand.players)
  }

  ghost predicate TableOk(s: State) {
    && SeatsOk(s.seats)
    && s.status in {Missing, Waiting, HandActive}
    && (s.status == Missing ==> s == NO_TABLE)
    && (s.status != Missing ==> s.rules.Some? && ValidRules(s.rules.value))
    && (s.status == HandActive <==> s.current.Some?)
    && (s.current.Some? ==> PlayOk(s.seats, s.current.value) && s.current.value.number == s.handNumber)
    && s.totalRake >= 0
  }

  lemma {:induction false} SoundSeats(s: State)
    requires TableOk(s)
    ensures SeatsOk(s.seats)
  {
  }

  lemma {:induction false} PlayKept(seats: seq<Seat>, seats': seq<Seat>, hand: CurrentHand)
    requires PlayOk(seats, hand) && SameStacks(seats, seats')
    ensures PlayOk(seats', hand)
  {
    SameStacksKeeps(seats, seats', hand.betting.hand.players);
  }

  lemma {:induction false} SeatsKept(s: State, seats': seq<Seat>)
    requires TableOk(s) && SameStacks(s.seats, seats') && (s.status == Missing ==> seats' == [])
    ensures TableOk(s.(seats := seats'))
  {
    SameStacksKeeps(s.seats, seats', []);
    if s.current.Some? {
      PlayKept(s.seats, seats', s.current.value);
    }
  }

  // ----- Betting events -----

  /** The state after a betting event: the seats' time banks follow, nothing else moves. */
  lemma {:induction false} BettingEventOk(s: State, hand: CurrentHand, step: B.Step, shown: seq<D.Reveal>, t: Timed,
      turn: Option<Turn>)
    requires TableOk(s) && s.current == Some(hand)
    requires B.Apply(hand.betting.hand, step) == Ok(t.hand) && |t.banks| == |hand.betting.banks|
    requires TurnOk(t.hand, turn) && BoardOk(hand.(betting := t))
    ensures StepBetting(s, shown, t, turn).Ok?
    ensures var s' := StepBetting(s, shown, t, turn).value;
      TableOk(s') && SameStacks(s.seats, s'.seats) && s' == s.(seats := s'.seats, current := s'.current)
      && s'.current == Some(hand.(betting := t, turn := turn, shown := hand.shown + shown))
  {
    StepOk(hand.betting.hand, step, t.hand);
    StillHeld(s.seats, hand.betting.hand, t.hand);
    BanksSame(s.seats, t.hand.players, t.banks);
    var seats' := SetBanks(s.seats, t.hand.players, t.banks).value;
    var next := hand.(betting := t, turn := turn, shown := hand.shown + shown);
    SameStacksKeeps(s.seats, seats', t.hand.players);
    BoardSame(hand.(betting := t), next);
  }

  lemma {:induction false} BoardSame(hand: CurrentHand, next: CurrentHand)
    requires BoardOk(hand) && next.fairness == hand.fairness && next.deckRoot == hand.deckRoot
    requires next.betting.hand.board == hand.betting.hand.board
    ensures BoardOk(next)
  {
  }

  lemma {:induction false} ActionBoard(h: B.Hand, a: B.Action, h': B.Hand)
    requires B.ApplyAction(h, a) == Ok(h')
    ensures h'.board == h.board
  {
    hide B.FinishOrAdvance, B.LegalFor;
    var i, enacted := BI.ActionParts(h, a, h');
    BettingRuns.FinishSameHand(enacted.(version := h.version + 1), h.players[i].seat, h');
  }

  /** A transition the invariant survives, with the chips at the seats unmoved. */
  ghost predicate Quiet(s: State, e: TableEvent) {
    && Step(s, e).Ok?
    && TableOk(Step(s, e).value)
    && SameStacks(s.seats, Step(s, e).value.seats)
    && Step(s, e).value.totalRake == s.totalRake
  }

  lemma {:induction false} ActOk(s: State, playerId: PlayerId, move: B.Move, version: nat, now: int, e: TableEvent)
    requires TableOk(s) && DecideAct(s, playerId, move, version, now) == Some(e)
    ensures Quiet(s, e)
  {
    hide B.ApplyAction, BI.Invariant, SeatsOk, AllHeld;
    var hand := s.current.value;
    var charged := Consumed(hand.betting, hand.turn.value, now);
    var action := B.Action(playerId, version, move);
    var next := B.ApplyAction(charged.hand, action).value;
    assert B.Apply(hand.betting.hand, B.Act(action)) == Ok(next);
    StepOk(hand.betting.hand, B.Act(action), next);
    ClockFinds(charged.(hand := next), s.rules.value.actionClock, now);
    ActionBoard(charged.hand, action, next);
    BoardSame(hand, hand.(betting := charged.(hand := next)));
    BettingEventOk(s, hand, B.Act(action), [], charged.(hand := next),
      TurnFor(charged.(hand := next), s.rules.value.actionClock, now).value);
  }

  lemma {:induction false} TimeoutOk(s: State, version: nat, now: int, e: TableEvent)
    requires TableOk(s) && DecideTimeout(s, version, now) == Some(e)
    ensures Quiet(s, e)
  {
    hide B.ApplyAction, BI.Invariant, SeatsOk, AllHeld;
    var hand := s.current.value;
    var actor := hand.turn.value.playerId;
    var emptied := Emptied(hand.betting, actor);
    var next := B.ApplyTimeout(emptied.hand, actor, version).value;
    assert B.Apply(hand.betting.hand, B.TimeOut(actor, version)) == Ok(next);
    StepOk(hand.betting.hand, B.TimeOut(actor, version), next);
    ClockFinds(emptied.(hand := next), s.rules.value.actionClock, now);
    var action := BettingRuns.TimeoutIsAction(emptied.hand, actor, version, next);
    ActionBoard(emptied.hand, action, next);
    BoardSame(hand, hand.(betting := emptied.(hand := next)));
    BettingEventOk(s, hand, B.TimeOut(actor, version), [], emptied.(hand := next),
      TurnFor(emptied.(hand := next), s.rules.value.actionClock, now).value);
  }

  /** The next street's positions are the next of the board's positions. */
  lemma {:induction false} NextPositions(rules: F.Rules, street: DealMaps.Street, h: B.Hand)
    requires PlanOf(rules).Ok? && street != DealMaps.Preflop && PlanOf(rules).value.boards != []
    requires HandOk(h) && h.status == B.AwaitingDeal && h.pendingStreet == Some(PhaseOf(street))
    ensures var plan := PlanOf(rules).value;
      var positions, all := DealMaps.OnStreet(plan.boards[0], street), Dealing.BoardPositions(plan);
      |h.board| + |positions| <= |all| && positions == all[|h.board|..|h.board| + |positions|]
  {
    var f :| BI.Invariant(h, f);
    Dealing.PlanShape(rules.game, rules.seats, rules.buttonSeat, rules.boards);
    var plan := PlanOf(rules).value;
    assert plan.boards[0]
      == DealMaps.BoardFrom(1, DealMaps.Preflop,
        DealMaps.Rounds(rules.game) * rules.seats + 0 * DealMaps.BoardLength(DealMaps.Preflop));
  }

  lemma {:induction false} StreetOk(s: State, street: DealMaps.Street, shown: seq<D.Reveal>, now: int, e: TableEvent)
    requires TableOk(s) && DecideStreet(s, street, shown, now) == Some(e)
    ensures Quiet(s, e)
  {
    var hand := s.current.value;
    var h := hand.betting.hand;
    var positions := DealMaps.OnStreet(PlanOf(hand.fairness).value.boards[0], street);
    var cards := Dealing.VerifiedCards(shown, positions, hand.deckRoot).value;
    var next := B.DealStreet(h, h.version, PhaseOf(street), cards).value;
    var step := B.Street(h.version, PhaseOf(street), cards);
    StreetFacts(h, PhaseOf(street), cards, next);
    StepOk(h, step, next);
    StreetApplied(s, hand, street, shown, cards, step, next, now);
  }

  lemma {:induction false} StreetApplied(s: State, hand: CurrentHand, street: DealMaps.Street, shown: seq<D.Reveal>,
      cards: seq<int>, step: B.Step, next: B.Hand, now: int)
    requires TableOk(s) && s.current == Some(hand) && s.rules.Some?
    requires PlanOf(hand.fairness).Ok? && PlanOf(hand.fairness).value.boards != [] && street != DealMaps.Preflop
    requires Dealing.VerifiedCards(shown, DealMaps.OnStreet(PlanOf(hand.fairness).value.boards[0], street),
        hand.deckRoot) == Ok(cards)
    requires hand.betting.hand.status == B.AwaitingDeal && hand.betting.hand.pendingStreet == Some(PhaseOf(street))
    requires next.board == hand.betting.hand.board + cards && HandOk(next)
    requires B.Apply(hand.betting.hand, step) == Ok(next)
    ensures TurnFor(hand.betting.(hand := next), s.rules.value.actionClock, now).Ok?
    ensures Quiet(s, StreetDealt(shown, hand.betting.(hand := next),
                                 TurnFor(hand.betting.(hand := next), s.rules.value.actionClock, now).value))
  {
    var h := hand.betting.hand;
    var t := hand.betting.(hand := next);
    NextPositions(hand.fairness, street, h);
    ClockFinds(t, s.rules.value.actionClock, now);
    DealtEventOk(s, hand, step, shown,
      DealMaps.OnStreet(PlanOf(hand.fairness).value.boards[0], street), cards, t,
        TurnFor(t, s.rules.value.actionClock, now).value);
    MovedIsQuiet(s, shown, t, TurnFor(t, s.rules.value.actionClock, now).value);
  }

  lemma {:induction false} StreetFacts(h: B.Hand, phase: B.Phase, cards: seq<int>, next: B.Hand)
    requires B.DealStreet(h, h.version, phase, cards) == Ok(next)
    ensures h.status == B.AwaitingDeal && h.pendingStreet == Some(phase) && next.board == h.board + cards
    ensures B.Apply(h, B.Street(h.version, phase, cards)) == Ok(next)
  {
  }

  /** A betting event leaves a sound table with the same chips at the same seats. */
  ghost predicate Moved(s: State, shown: seq<D.Reveal>, t: Timed, turn: Option<Turn>) {
    && StepBetting(s, shown, t, turn).Ok?
    && var s' := StepBetting(s, shown, t, turn).value;
       TableOk(s') && SameStacks(s.seats, s'.seats) && s'.totalRake == s.totalRake
  }

  lemma {:induction false} MovedIsQuiet(s: State, shown: seq<D.Reveal>, t: Timed, turn: Option<Turn>)
    requires Moved(s, shown, t, turn)
    ensures Quiet(s, StreetDealt(shown, t, turn))
  {
    hide TableOk, StepBetting, SumOf;
  }

  /** Dealing verified cards from the next positions of the plan. */
  lemma {:induction false} DealtEventOk(s: State, hand: CurrentHand, step: B.Step, shown: seq<D.Reveal>,
      positions: seq<int>, cards: seq<int>,
      t: Timed, turn: Option<Turn>)
    requires TableOk(s) && s.current == Some(hand) && PlanOf(hand.fairness).value.boards != []
    requires B.Apply(hand.betting.hand, step) == Ok(t.hand) && t.banks == hand.betting.banks && TurnOk(t.hand, turn)
    requires var all := Dealing.BoardPositions(PlanOf(hand.fairness).value); var n := |hand.betting.hand.board|;
      n + |positions| <= |all| && positions == all[n..n + |positions|]
    requires Dealing.VerifiedCards(shown, positions, hand.deckRoot) == Ok(cards)
    requires t.hand.board == hand.betting.hand.board + cards
    ensures Moved(s, shown, t, turn)
  {
    VerifiedExtends(hand, shown, positions, hand.(betting := t));
    BettingEventOk(s, hand, step, shown, t, turn);
  }

  lemma {:induction false} AtMostFiveCards(h: B.Hand)
    requires HandOk(h)
    ensures |h.board| <= 5
  {
    var f :| BI.Invariant(h, f);
  }

  lemma {:induction false} RunoutOk(s: State, shown: seq<D.Reveal>, e: TableEvent)
    requires TableOk(s) && DecideRunout(s, shown) == Some(e)
    ensures Quiet(s, e)
  {
    hide BI.Invariant, SeatsOk, AllHeld, BoardOk, Dealing.BoardPositions, Dealing.VerifiedCards;
    var hand := s.current.value;
    var h := hand.betting.hand;
    var plan := PlanOf(hand.fairness).value;
    var all := Dealing.BoardPositions(plan);
    Dealing.PlanShape(hand.fairness.game, hand.fairness.seats, hand.fairness.buttonSeat, hand.fairness.boards);
    AtMostFiveCards(h);
    var positions := all[|h.board|..];
    var cards := Dealing.VerifiedCards(shown, positions, hand.deckRoot).value;
    var step := B.Runout(h.version, cards);
    var next := B.DealRemainingBoard(h, h.version, cards).value;
    assert B.Apply(h, step) == Ok(next);
    VerifiedExtends(hand, shown, positions, hand.(betting := hand.betting.(hand := next)));
    BettingEventOk(s, hand, step, shown, hand.betting.(hand := next), None);
  }

  // ----- Coming and going -----

  lemma {:induction false} CreateOk(s: State, rules: TableRules)
    requires s == NO_TABLE && ValidRules(rules)
    ensures Quiet(s, TableCreated(rules))
  {
  }

  /** A buy-in adds a seat with its chips. */
  lemma {:induction false} SeatOkStep(s: State, playerId: PlayerId, seat: int, buyIn: int, e: TableEvent)
    requires TableOk(s) && DecideSeat(s, playerId, seat, buyIn) == Some(e)
    ensures Step(s, e).Ok? && TableOk(Step(s, e).value)
    ensures SumOf(StackOf, Step(s, e).value.seats) == SumOf(StackOf, s.seats) + buyIn
    ensures Step(s, e).value.totalRake == s.totalRake
  {
    forall i | 0 <= i < |s.seats| ensures s.seats[i].seat != seat && s.seats[i].playerId != playerId {
      assert s.seats[i] in s.seats;
    }
    ArrivalOk(s.seats, e.player);
  }

  lemma {:induction false} PresenceOk(s: State, r: Request, e: TableEvent)
    requires TableOk(s) && (r.SitOut? || r.ReturnPlayer?) && DecidePresence(s, r) == Some(e)
    ensures Quiet(s, e)
  {
    var i := IndexOfId(s.seats, r.playerId).value;
    assert s.seats[i] in s.seats;
    match e {
      case PlayerSatOut(id, afterHand) =>
        var f := (x: Seat) => WithSatOut(x, afterHand);
        UpdateSame(s.seats, id, f);
        SeatsKept(s, UpdateSeat(s.seats, id, f).value);
      case PlayerReturned(id) =>
        var playing := InHand(s.current, id);
        var f := (x: Seat) => WithReturned(x, playing);
        UpdateSame(s.seats, id, f);
        SeatsKept(s, UpdateSeat(s.seats, id, f).value);
    }
  }

  /** Leaving takes a bystander's chips along; a participant only announces it. */
  lemma {:induction false} LeaveOk(s: State, playerId: PlayerId, e: TableEvent)
    requires TableOk(s) && DecidePresence(s, Leave(playerId)) == Some(e)
    ensures e == PlayerLeaving(playerId) || e == PlayerLeft(playerId)
    ensures e.PlayerLeaving? ==> Quiet(s, e)
    ensures e.PlayerLeft? ==> TableOk(s.(seats := Filter(Others(playerId), s.seats)))
    ensures e.PlayerLeft? ==>
      SumOf(StackOf, Filter(Others(playerId), s.seats)) + SumOf(StackOf, Filter(Named(playerId), s.seats))
        == SumOf(StackOf, s.seats)
  {
    var i := IndexOfId(s.seats, playerId).value;
    assert s.seats[i] in s.seats;
    if s.status == HandActive && InHand(s.current, playerId) {
      AnnounceOk(s, playerId);
    } else {
      DepartOk(s, playerId);
    }
  }

  lemma {:induction false} AnnounceOk(s: State, playerId: PlayerId)
    requires TableOk(s) && s.status != Missing && exists x :: x in s.seats && x.playerId == playerId
    ensures Quiet(s, PlayerLeaving(playerId))
  {
    hide SeatsOk, PlayOk, ValidRules;
    var f := (x: Seat) => x.(leaving := true);
    UpdateSame(s.seats, playerId, f);
    var seats := UpdateSeat(s.seats, playerId, f).value;
    SeatsKept(s, seats);
    assert Step(s, PlayerLeaving(playerId)) == Ok(s.(seats := seats));
  }

  lemma {:induction false} DepartOk(s: State, playerId: PlayerId)
    requires TableOk(s) && s.status != Missing && !(s.status == HandActive && InHand(s.current, playerId))
    ensures TableOk(s.(seats := Filter(Others(playerId), s.seats)))
    ensures SumOf(StackOf, Filter(Others(playerId), s.seats))
      + SumOf(StackOf, Filter(Named(playerId), s.seats)) == SumOf(StackOf, s.seats)
  {
    FilterOk(Others(playerId), s.seats);
    FilterSum(Others(playerId), Named(playerId), s.seats);
    if s.current.Some? {
      BystanderLeft(s, playerId, Others(playerId));
    }
  }

  lemma {:induction false} BystanderLeft(s: State, playerId: PlayerId, keep: Seat -> bool)
    requires TableOk(s) && s.current.Some? && !InHand(s.current, playerId)
    requires forall x: Seat :: keep(x) == (x.playerId != playerId)
    ensures PlayOk(Filter(keep, s.seats), s.current.value)
  {
    var players := s.current.value.betting.hand.players;
    forall k | 0 <= k < |players| ensures SeatHolds(Filter(keep, s.seats), players[k]) {
      assert players[k] in players;
      assert SeatHolds(s.seats, players[k]);
      KeptHolds(keep, s.seats, players[k]);
    }
  }

  // ----- Starting a hand -----

  lemma {:induction false} EligibleIds(seats: seq<Seat>, ordered: seq<Seat>, x: Seat)
    requires SeatsOk(seats) && x in seats
    requires forall p :: p in ordered <==> p in Filter(Eligible, seats)
    ensures x.playerId in Map((p: Seat) => p.playerId, ordered) <==> Eligible(x)
  {
    var ids := Map((p: Seat) => p.playerId, ordered);
    if Eligible(x) {
      assert x in Filter(Eligible, seats) && x in ordered;
      var k :| 0 <= k < |ordered| && ordered[k] == x;
      assert ids[k] == x.playerId;
    }
    if x.playerId in ids {
      var k :| 0 <= k < |ids| && ids[k] == x.playerId;
      assert ordered[k] in ordered;
      assert ordered[k] in Filter(Eligible, seats);
      assert ordered[k] in seats;
      var i :| 0 <= i < |seats| && seats[i] == x;
      var j :| 0 <= j < |seats| && seats[j] == ordered[k];
      assert i == j;
    }
  }

  lemma {:induction false} SameFilter(p: Seat -> bool, q: Seat -> bool, seats: seq<Seat>)
    requires forall x :: x in seats ==> p(x) == q(x)
    ensures Filter(p, seats) == Filter(q, seats)
  {
    if seats != [] {
      SameFilter(p, q, seats[1..]);
    }
  }

  lemma {:induction false} OrderedSeats(players: seq<Seat>)
    ensures var ordered := Seats.SortBySeat(SeatNumber, players);
      |ordered| == |players| && forall p :: p in ordered <==> p in players
  {
    var ordered := Seats.SortBySeat(SeatNumber, players);
    Seats.SortKeepsMembers(SeatNumber, players);
    assert |multiset(ordered)| == |ordered| && |multiset(players)| == |players|;
    forall p ensures p in ordered <==> p in players {
      assert p in ordered <==> p in multiset(ordered);
      assert p in players <==> p in multiset(players);
    }
  }

  /** The players of the next hand are exactly the eligible seats, and the deal plan fits them. */
  lemma {:induction false} SetupIsEligible(s: State, setup: Setup)
    requires SeatsOk(s.seats) && NextHandSetup(s) == Some(setup)
    ensures Participants(s, setup) == Filter(Eligible, s.seats)
    ensures setup.fairness.game == setup.game && setup.fairness.seats == |Participants(s, setup)|
    ensures 0 <= setup.fairness.buttonSeat < setup.fairness.seats && setup.fairness.boards == 1
    ensures setup.number == s.handNumber + 1
  {
    var players := Filter(Eligible, s.seats);
    var ordered := Seats.SortBySeat(SeatNumber, players);
    OrderedSeats(players);
    forall x | x in s.seats ensures (x.playerId in setup.playerIds) == Eligible(x) {
      EligibleIds(s.seats, ordered, x);
    }
    SameFilter((x: Seat) => x.playerId in setup.playerIds, Eligible, s.seats);
  }

  lemma {:induction false} StartHolds(s: State, setup: Setup, h: B.Hand)
    requires SeatsOk(s.seats) && s.rules.Some? && NextHandSetup(s) == Some(setup)
    requires B.CreateBettingState(ConfigOf(s, setup)) == Ok(h)
    ensures |h.players| == |Participants(s, setup)| && AllHeld(s.seats, h.players)
  {
    FinishedHands.OpeningEntrants(ConfigOf(s, setup), h);
    var entrants := Participants(s, setup);
    forall k | 0 <= k < |h.players| ensures SeatHolds(s.seats, h.players[k]) {
      assert entrants[k] in entrants;
      assert entrants[k] in s.seats;
      var j :| 0 <= j < |s.seats| && s.seats[j] == entrants[k];
      assert Carries(s.seats[j], h.players[k]);
    }
  }

  lemma {:induction false} OpeningOk(c: B.Config, h: B.Hand)
    requires B.CreateBettingState(c) == Ok(h)
    ensures HandOk(h) && (SafeHand(h) || BettingOpening.StrandsPot(c))
    ensures 2 <= |h.players| <= 9 && h.board == [] && h.game == c.game && h.handId == c.handId
  {
    BettingOpening.OpeningHolds(c, h);
    FinishedHands.OpeningPays(c, h);
    FinishedHands.OpenedPlayers(c, h);
    OpeningBoard(c, h);
    var f := BI.Floor(c.ante, !BettingOpening.StrandsPot(c));
    assert BI.Invariant(h, f);
  }

  lemma {:induction false} OpeningBoard(c: B.Config, h: B.Hand)
    requires B.CreateBettingState(c) == Ok(h)
    ensures h.board == [] && h.handId == c.handId
  {
    if B.FirstActor(B.Opened(c)).None? {
      BettingRuns.FinishSameHand(B.Opened(c), B.Opened(c).bigBlindSeat, h);
    }
  }

  /** The first board is empty, and the plan of two to nine seats exists. */
  lemma {:induction false} FreshBoardOk(hand: CurrentHand)
    requires 2 <= hand.fairness.seats <= 9 && 0 <= hand.fairness.buttonSeat < hand.fairness.seats
        && hand.fairness.boards == 1
    requires hand.betting.hand.board == []
    ensures BoardOk(hand)
  {
    DealMaps.PlanUsesEachPositionOnce(hand.fairness.game, hand.fairness.seats, hand.fairness.buttonSeat, 1);
  }

  /** A started hand seats exactly the eligible players, in seat order, with the chips at their seats. */
  lemma {:induction false} StartSeatsEligible(s: State, number: nat, deckRoot: D.Digest, now: int, e: TableEvent)
    requires SeatsOk(s.seats) && DecideStart(s, number, deckRoot, now) == Some(e)
    ensures e.HandStarted? && e.number == s.handNumber + 1
    ensures var players, eligible := e.betting.hand.players, Filter(Eligible, s.seats);
      && |players| == |eligible| == |e.betting.banks|
      && forall k :: 0 <= k < |players| ==>
           && players[k].playerId == eligible[k].playerId && players[k].seat == eligible[k].seat
           && B.ChipsOf(players[k]) == eligible[k].stack && e.betting.banks[k] == eligible[k].timeBank
  {
    hide NextHandSetup, B.CreateBettingState, TurnFor, Filter, SeatsOk;
    var setup := NextHandSetup(s).value;
    SetupIsEligible(s, setup);
    FinishedHands.OpeningEntrants(ConfigOf(s, setup), e.betting.hand);
  }

  lemma {:induction false} StartOk(s: State, number: nat, deckRoot: D.Digest, now: int, e: TableEvent)
    requires TableOk(s) && DecideStart(s, number, deckRoot, now) == Some(e)
    ensures Quiet(s, e)
  {
    var setup := NextHandSetup(s).value;
    var h := B.CreateBettingState(ConfigOf(s, setup)).value;
    StartApplied(s, setup, h, deckRoot, now);
  }

  lemma {:induction false} StartApplied(s: State, setup: Setup, h: B.Hand, deckRoot: D.Digest, now: int)
    requires TableOk(s) && s.rules.Some? && s.status == Waiting && NextHandSetup(s) == Some(setup)
    requires B.CreateBettingState(ConfigOf(s, setup)) == Ok(h)
    ensures var t := Timed(h, BanksOf(Participants(s, setup)));
      && TurnFor(t, s.rules.value.actionClock, now).Ok?
      && Quiet(s, HandStarted(setup.number, setup.buttonSeat, setup.fairness, deckRoot, t,
        TurnFor(t, s.rules.value.actionClock, now).value))
  {
    var t := Timed(h, BanksOf(Participants(s, setup)));
    SetupIsEligible(s, setup);
    OpeningOk(ConfigOf(s, setup), h);
    StartHolds(s, setup, h);
    ClockFinds(t, s.rules.value.actionClock, now);
    var turn := TurnFor(t, s.rules.value.actionClock, now).value;
    StartedOk(s, setup, CurrentHand(setup.number, setup.fairness, deckRoot, [], t, turn));
  }

  lemma {:induction false} StartedOk(s: State, setup: Setup, hand: CurrentHand)
    requires TableOk(s) && s.rules.Some? && s.status == Waiting && HandOk(hand.betting.hand)
    requires |hand.betting.banks| == |hand.betting.hand.players| && TurnOk(hand.betting.hand, hand.turn)
    requires hand.number == setup.number && hand.fairness == setup.fairness && hand.betting.hand.board == []
    requires setup.fairness.game == hand.betting.hand.game && setup.fairness.seats == |hand.betting.hand.players| <= 9
    requires 2 <= setup.fairness.seats && 0 <= setup.fairness.buttonSeat < setup.fairness.seats
        && setup.fairness.boards == 1
    requires AllHeld(s.seats, hand.betting.hand.players) && hand.shown == []
    ensures Quiet(s,
        HandStarted(setup.number, setup.buttonSeat, setup.fairness, hand.deckRoot, hand.betting, hand.turn))
  {
    FreshBoardOk(hand);
    PlayingSame(s.seats, hand.betting.hand.players);
    assert PlayOk(s.seats, hand);
    HandedOut(s, setup.buttonSeat, MarkPlaying(s.seats, hand.betting.hand.players), hand);
    StartStep(s, setup, hand);
  }

  lemma {:induction false} StartStep(s: State, setup: Setup, hand: CurrentHand)
    requires hand.number == setup.number && hand.fairness == setup.fairness && hand.shown == []
    ensures Step(s, HandStarted(setup.number, setup.buttonSeat, setup.fairness, hand.deckRoot, hand.betting, hand.turn))
      == Ok(Dealt(s, setup.buttonSeat, MarkPlaying(s.seats, hand.betting.hand.players), hand))
  {
  }

  /** The table once a hand has been handed out. */
  function Dealt(s: State, buttonSeat: int, seats: seq<Seat>, hand: CurrentHand): State {
    s.(status := HandActive, handNumber := hand.number, buttonSeat := Some(buttonSeat), current := Some(hand),
      seats := seats)
  }

  lemma {:induction false} HandedOut(s: State, buttonSeat: int, seats: seq<Seat>, hand: CurrentHand)
    requires TableOk(s) && s.status == Waiting && SameStacks(s.seats, seats) && PlayOk(s.seats, hand)
    ensures TableOk(Dealt(s, buttonSeat, seats, hand))
  {
    PlayKept(s.seats, seats, hand);
    SameStacksKeeps(s.seats, seats, []);
  }
}
