/**
 * The commit, reserve, deal and reveal protocol of server/hand-coordinator.js as decisions on an event
 * log: each request is checked against the reduced log and yields the event to append.
 */
module HandLog {
  import opened Wrappers
  import opened Seqs
  import opened DeckMerkle
  import opened DealMaps
  import opened Fairness
  import EventLog

  datatype Status = Missing | Committing | BeaconReserved | Dealing | Complete | Aborted

  datatype Reservation = Reservation(source: nat, chainHash: nat, round: int, notBefore: int)

  datatype HandEvent =
    | HandOpened(rules: Rules, players: seq<nat>, serverCommitment: Commitment)
    | PlayerCommitted(playerId: nat, commitment: Commitment)
    | ReservedBeacon(reservation: Reservation)
    | DeckCommitted(beacon: Beacon, deckRoot: Digest)
    | PublicCardRevealed(shown: Reveal)
    | HandCompleted(deckRoot: Digest)
    | HandAborted(reason: string)

  datatype State = State(
    status: Status,
    rules: Option<Rules>,
    players: seq<nat>,
    serverCommitment: Option<Commitment>,
    commitments: map<nat, Commitment>,
    reservation: Option<Reservation>,
    beacon: Option<Beacon>,
    deckRoot: Option<Digest>,
    publicPositions: seq<int>)

  const NO_HAND := State(Missing, None, [], None, map[], None, None, None, [])

  function Step(s: State, e: HandEvent): State {
    match e
    case HandOpened(rules, players, serverCommitment) =>
      s.(status := Committing, rules := Some(rules), players := players, serverCommitment := Some(serverCommitment))
    case PlayerCommitted(playerId, commitment) => s.(commitments := s.commitments[playerId := commitment])
    case ReservedBeacon(reservation) => s.(status := BeaconReserved, reservation := Some(reservation))
    case DeckCommitted(beacon, deckRoot) => s.(status := Dealing, beacon := Some(beacon), deckRoot := Some(deckRoot))
    case PublicCardRevealed(shown) => s.(publicPositions := s.publicPositions + [shown.position])
    case HandCompleted(_) => s.(status := Complete)
    case HandAborted(_) => s.(status := Aborted)
  }

  /** The replay of a log, last event last. */
  function Reduce(log: seq<HandEvent>): State {
    if log == [] then NO_HAND else Step(Reduce(log[..|log| - 1]), log[|log| - 1])
  }

  /** The replay as the coordinator does it: fields assigned event by event. */
  method ReduceHand(log: seq<HandEvent>) returns (state: State)
    ensures state == Reduce(log)
  {
    state := NO_HAND;
    for k := 0 to |log|
      invariant state == Reduce(log[..k])
    {
      assert log[..k + 1][..k] == log[..k];
      match log[k] {
        case HandOpened(rules, players, serverCommitment) =>
          state := state.(status := Committing);
          state := state.(rules := Some(rules));
          state := state.(players := players);
          state := state.(serverCommitment := Some(serverCommitment));
        case PlayerCommitted(playerId, commitment) =>
          state := state.(commitments := state.commitments[playerId := commitment]);
        case ReservedBeacon(reservation) =>
          state := state.(status := BeaconReserved);
          state := state.(reservation := Some(reservation));
        case DeckCommitted(beacon, deckRoot) =>
          state := state.(status := Dealing);
          state := state.(beacon := Some(beacon));
          state := state.(deckRoot := Some(deckRoot));
        case PublicCardRevealed(shown) =>
          state := state.(publicPositions := state.publicPositions + [shown.position]);
        case HandCompleted(_) =>
          state := state.(status := Complete);
        case HandAborted(_) =>
          state := state.(status := Aborted);
      }
    }
    assert log[..|log|] == log;
  }

  // ----- Requests -----

  /**
   * A request with what the dealer's secret store answers for the hand: the seeds on commitDeck are the
   * dealer's, `deck` is the stored deck, and `reverified` is the beacon verifier's answer.
   */
  datatype Request =
    | OpenHand(rules: Rules, players: seq<nat>, serverCommitment: Commitment)
    | SubmitCommitment(playerId: nat, commitment: Commitment)
    | ReserveBeacon(reservation: Reservation)
    | CommitDeck(beacon: Beacon, serverSeed: nat, playerSeeds: seq<Seed>, signed: bool, reverified: bool)
    | RevealPublicCard(position: int, deck: Option<CommittedDeck>)
    | CompleteHand(hand: Option<CommittedHand>)
    | AbortHand(reason: string, refundsScheduled: bool)

  const ABORT_REASONS := {"BEACON_UNAVAILABLE", "COMMITMENT_TIMEOUT", "DEALER_FAILURE", "INTEGRITY_FAILURE",
    "OPERATOR_SHUTDOWN"}

  function PublicSequence(rules: Rules): Result<seq<int>, PlanError> {
    var plan :- DealPlan(rules.game, rules.seats, rules.buttonSeat, rules.boards);
    Ok(BoardCardPositions(plan.boards))
  }

  function BoardCardPositions(boards: seq<BoardPlan>): seq<int> {
    if boards == [] then []
    else boards[0].flop + boards[0].turn + boards[0].river + BoardCardPositions(boards[1..])
  }

  predicate MatchesReservation(beacon: Beacon, reservation: Option<Reservation>) {
    && reservation.Some?
    && beacon.source == reservation.value.source
    && beacon.chainHash == reservation.value.chainHash
    && beacon.round == reservation.value.round
  }

  /** The dealer's seeds open exactly the commitments on the log. */
  predicate OpensAll(s: State, record: PublicRecord) {
    && Some(record.serverCommitment) == s.serverCommitment
    && |record.playerCommitments| == |s.commitments|
    && forall c :: c in record.playerCommitments ==>
         c.playerId in s.commitments && s.commitments[c.playerId] == c.commitment
  }

  predicate StoredDeck(deck: CommittedDeck) {
    |deck.order| == |deck.nonces| == 52 && forall i :: 0 <= i < 52 ==> 0 <= deck.order[i] < 52
  }

  function DecideCommit(dealer: Dealer, s: State, r: Request): Option<HandEvent>
    requires r.CommitDeck?
  {
    if !r.signed || !MatchesReservation(r.beacon, s.reservation) || s.rules.None? then None
    else match CreateCommittedHand(dealer, s.rules.value, r.beacon, r.playerSeeds, r.serverSeed)
      case Err(_) => None
      case Ok(hand) =>
        if !OpensAll(s, hand.record) || s.status != BeaconReserved || !r.reverified then None
        else Some(DeckCommitted(r.beacon, hand.record.deckRoot))
  }

  function DecideReveal(s: State, position: int, deck: CommittedDeck): Option<HandEvent>
    requires StoredDeck(deck)
  {
    if s.rules.None? then None
    else match PublicSequence(s.rules.value)
      case Err(_) => None
      case Ok(sequence) =>
        match RevealOf(deck, position)
        case Err(_) => None
        case Ok(shown) =>
          if position !in sequence || s.status != Dealing || position in s.publicPositions then None
          else if !(|s.publicPositions| < |sequence| && sequence[|s.publicPositions|] == position) then None
          else if s.deckRoot.None? || !Accepted(s.deckRoot.value, shown) then None
          else Some(PublicCardRevealed(shown))
  }

  /** What the coordinator appends for a request on a state, None where it throws. */
  function DecideOn(dealer: Dealer, s: State, r: Request, now: int): Option<HandEvent> {
    match r
    case OpenHand(rules, players, serverCommitment) =>
      if 2 <= rules.seats <= 9 && |players| == rules.seats && Distinct(players)
      then Some(HandOpened(rules, players, serverCommitment)) else None
    case SubmitCommitment(playerId, commitment) =>
      if s.status == Committing && playerId in s.players && playerId !in s.commitments
      then Some(PlayerCommitted(playerId, commitment)) else None
    case ReserveBeacon(reservation) =>
      if s.status == Committing && |s.commitments| == |s.players| && reservation.round > 0
        && reservation.notBefore > now
      then Some(ReservedBeacon(reservation)) else None
    case CommitDeck(_, _, _, _, _) => DecideCommit(dealer, s, r)
    case RevealPublicCard(position, deck) =>
      if deck.Some? && StoredDeck(deck.value) then DecideReveal(s, position, deck.value) else None
    case CompleteHand(hand) =>
      if hand.Some? && Some(hand.value.record.deckRoot) == s.deckRoot && s.status == Dealing
         && VerifyAudit(dealer, hand.value.record, hand.value.serverSeed, hand.value.playerSeeds).Some?
      then Some(HandCompleted(hand.value.record.deckRoot)) else None
    case AbortHand(reason, refundsScheduled) =>
      if s.status != Missing && s.status != Complete && s.status != Aborted && reason in ABORT_REASONS
        && refundsScheduled
      then Some(HandAborted(reason)) else None
  }

  /** Opening is decided without loading; it commits only as the first event. */
  function Decide(dealer: Dealer): EventLog.Decision<Request, HandEvent> {
    (log: seq<HandEvent>, r: Request, now: int) =>
      if r.OpenHand? && log != [] then None else DecideOn(dealer, Reduce(log), r, now)
  }

  // ----- What holds on every log the coordinator can write -----

  /** Whoever may be committed to is a player; cards are out only once the deck is committed. */
  ghost predicate Consistent(s: State) {
    && (s.status == Missing ==> s == NO_HAND)
    && (s.status != Missing ==>
      s.rules.Some? && s.serverCommitment.Some? && Distinct(s.players) && |s.players| == s.rules.value.seats)
    && (forall id :: id in s.commitments ==> id in s.players)
    && (s.status == Committing ==> s.reservation.None?)
    && (s.reservation.Some? ==> |s.commitments| == |s.players|)
    && (s.deckRoot.Some? <==> s.beacon.Some?)
    && (s.status in {Committing, BeaconReserved} ==> s.deckRoot.None?)
    && (s.status in {Dealing, Complete} ==> s.deckRoot.Some?)
    && (s.deckRoot.Some? ==> s.reservation.Some? && MatchesReservation(s.beacon.value, s.reservation))
    && (s.publicPositions != [] ==> s.deckRoot.Some?)
    && RevealsInOrder(s)
  }

  /** The cards revealed so far are the beginning of the committed public sequence. */
  ghost predicate RevealsInOrder(s: State) {
    s.publicPositions == []
    || (s.rules.Some? && PublicSequence(s.rules.value).Ok? && s.publicPositions <= PublicSequence(s.rules.value).value)
  }

  lemma {:induction false} StepConsistent(dealer: Dealer, log: seq<HandEvent>, r: Request, now: int, e: HandEvent)
    requires Consistent(Reduce(log)) && Decide(dealer)(log, r, now) == Some(e)
    requires log != [] ==> Reduce(log).status != Missing
    ensures Consistent(Step(Reduce(log), e)) && Step(Reduce(log), e).status != Missing
  {
    var s := Reduce(log);
    match r {
      case RevealPublicCard(position, deck) => RevealConsistent(s, position, deck.value, e);
      case CommitDeck(_, _, _, _, _) => CommitConsistent(dealer, s, r, e);
      case _ =>
    }
  }

  lemma {:induction false} RevealConsistent(s: State, position: int, deck: CommittedDeck, e: HandEvent)
    requires Consistent(s) && StoredDeck(deck) && DecideReveal(s, position, deck) == Some(e)
    ensures Consistent(Step(s, e)) && Step(s, e).status != Missing
  {
    var sequence := PublicSequence(s.rules.value).value;
    var n := |s.publicPositions|;
    assert sequence[..n] + [sequence[n]] == sequence[..n + 1];
    assert Step(s, e).publicPositions == sequence[..n + 1];
  }

  lemma {:induction false} CommitConsistent(dealer: Dealer, s: State, r: Request, e: HandEvent)
    requires Consistent(s) && r.CommitDeck? && DecideCommit(dealer, s, r) == Some(e)
    ensures Consistent(Step(s, e)) && Step(s, e).status != Missing
  {
  }

  lemma {:induction false} LogsAreConsistent(dealer: Dealer, log: seq<HandEvent>)
    requires EventLog.Written(Decide(dealer), log)
    ensures Consistent(Reduce(log)) && (log != [] ==> Reduce(log).status != Missing)
  {
    if log != [] {
      var front, e := WrittenFront(dealer, log);
      LogsAreConsistent(dealer, front);
      var r: Request, now: int :| Decide(dealer)(front, r, now) == Some(e);
      StepConsistent(dealer, front, r, now, e);
    }
  }

  lemma {:induction false} WrittenFront(dealer: Dealer, log: seq<HandEvent>)
    returns (front: seq<HandEvent>, e: HandEvent)
    requires log != [] && EventLog.Written(Decide(dealer), log)
    ensures front == log[..|log| - 1] && e == log[|log| - 1] && log == front + [e]
    ensures EventLog.Written(Decide(dealer), front) && EventLog.Decided(Decide(dealer), front, e)
  {
    hide Decide;
    front, e := log[..|log| - 1], log[|log| - 1];
    forall k | 0 <= k < |front| ensures EventLog.Decided(Decide(dealer), front[..k], front[k]) {
      assert front[..k] == log[..k];
    }
  }

  /** A request accepted on the replayed state extends the log. */
  lemma {:induction false} Extends(dealer: Dealer, log: seq<HandEvent>, r: Request, now: int, e: HandEvent)
    requires EventLog.Written(Decide(dealer), log) && DecideOn(dealer, Reduce(log), r, now) == Some(e) && !r.OpenHand?
    ensures EventLog.Written(Decide(dealer), log + [e]) && log <= log + [e]
    ensures Reduce(log + [e]) == Step(Reduce(log), e)
  {
    hide DecideOn;
    assert Decide(dealer)(log, r, now) == Some(e);
    assert EventLog.Decided(Decide(dealer), log, e);
    EventLog.WrittenExtends(Decide(dealer), log, e);
    assert (log + [e])[..|log|] == log;
  }

  /** The public reveals of a log are always a prefix of the committed public sequence. */
  lemma {:induction false} RevealsAreAPrefix(dealer: Dealer, log: seq<HandEvent>)
    requires EventLog.Written(Decide(dealer), log) && log != []
    ensures Reduce(log).rules.Some?
    ensures var s := Reduce(log);
      s.publicPositions == []
      || (PublicSequence(s.rules.value).Ok? && s.publicPositions <= PublicSequence(s.rules.value).value)
  {
    LogsAreConsistent(dealer, log);
  }

  // ----- The deck is fixed before the beacon is known -----

  /** The seeds behind the commitments on the log, and the deck they and the beacon determine. */
  ghost predicate JustifiedBy(dealer: Dealer, s: State, serverSeed: nat, seeds: seq<Seed>) {
    && s.rules.Some? && s.beacon.Some?
    && s.serverCommitment == Some(ServerSeed(serverSeed))
    && UniqueIds(seeds) && |seeds| == |s.commitments|
    && (forall d :: d in seeds ==>
      d.playerId in s.commitments && s.commitments[d.playerId] == PlayerSeed(d.playerId, d.seed))
    && var handSeed := DeriveHandSeed(s.rules.value, serverSeed, s.beacon.value, seeds);
       handSeed.Ok? && s.deckRoot == Some(DeckOf(dealer(handSeed.value)).root)
  }

  ghost predicate Justified(dealer: Dealer, s: State) {
    s.deckRoot.Some? ==> exists serverSeed, seeds :: JustifiedBy(dealer, s, serverSeed, seeds)
  }

  lemma {:induction false} CommitJustified(dealer: Dealer, s: State, r: Request, e: HandEvent)
    requires r.CommitDeck? && DecideCommit(dealer, s, r) == Some(e)
    ensures Justified(dealer, Step(s, e))
  {
    var hand := CreateCommittedHand(dealer, s.rules.value, r.beacon, r.playerSeeds, r.serverSeed).value;
    SortSeeds(r.playerSeeds);
    var seeds := hand.playerSeeds;
    forall d | d in seeds
      ensures d.playerId in s.commitments && s.commitments[d.playerId] == PlayerSeed(d.playerId, d.seed)
    {
      var i :| 0 <= i < |seeds| && seeds[i] == d;
      assert hand.record.playerCommitments[i] == CommitOf(d);
      assert CommitOf(d) in hand.record.playerCommitments;
    }
    assert JustifiedBy(dealer, Step(s, e), r.serverSeed, seeds);
  }

  /** Which events a state with a reservation, or with a deck, still admits. */
  lemma {:induction false} LaterEvents(dealer: Dealer, s: State, r: Request, now: int, e: HandEvent)
    requires Consistent(s) && s.reservation.Some? && !r.OpenHand? && DecideOn(dealer, s, r, now) == Some(e)
    ensures e.DeckCommitted? || e.PublicCardRevealed? || e.HandCompleted? || e.HandAborted?
    ensures s.deckRoot.Some? ==> !e.DeckCommitted?
  {
    match r {
      case RevealPublicCard(position, deck) => RevealShows(s, position, deck.value, e);
      case CommitDeck(_, _, _, _, _) => CommitCommits(dealer, s, r, e);
      case _ =>
    }
  }

  lemma {:induction false} RevealShows(s: State, position: int, deck: CommittedDeck, e: HandEvent)
    requires StoredDeck(deck) && DecideReveal(s, position, deck) == Some(e)
    ensures e.PublicCardRevealed? && s.deckRoot.Some? && Accepted(s.deckRoot.value, e.shown)
  {
  }

  lemma {:induction false} CommitCommits(dealer: Dealer, s: State, r: Request, e: HandEvent)
    requires r.CommitDeck? && DecideCommit(dealer, s, r) == Some(e)
    ensures e.DeckCommitted? && s.status == BeaconReserved
  {
  }

  lemma {:induction false} OtherStepsJustified(dealer: Dealer, s: State, r: Request, now: int, e: HandEvent)
    requires Consistent(s) && Justified(dealer, s) && !r.CommitDeck? && !r.OpenHand?
    requires DecideOn(dealer, s, r, now) == Some(e)
    ensures Justified(dealer, Step(s, e))
  {
    if s.deckRoot.Some? {
      LaterEvents(dealer, s, r, now, e);
      StillJustified(dealer, s, e);
    } else {
      NoNewDeck(dealer, s, r, now, e);
    }
  }

  lemma {:induction false} NoNewDeck(dealer: Dealer, s: State, r: Request, now: int, e: HandEvent)
    requires !r.CommitDeck? && DecideOn(dealer, s, r, now) == Some(e)
    ensures !e.DeckCommitted?
  {
    match r {
      case RevealPublicCard(position, deck) => RevealShows(s, position, deck.value, e);
      case _ =>
    }
  }

  lemma {:induction false} StillJustified(dealer: Dealer, s: State, e: HandEvent)
    requires Justified(dealer, s) && s.deckRoot.Some?
    requires e.PublicCardRevealed? || e.HandCompleted? || e.HandAborted?
    ensures Justified(dealer, Step(s, e))
  {
    var serverSeed, seeds :| JustifiedBy(dealer, s, serverSeed, seeds);
    assert JustifiedBy(dealer, Step(s, e), serverSeed, seeds);
  }

  lemma {:induction false} LogsAreJustified(dealer: Dealer, log: seq<HandEvent>)
    requires EventLog.Written(Decide(dealer), log)
    ensures Justified(dealer, Reduce(log))
  {
    if log != [] {
      var front, e := WrittenFront(dealer, log);
      LogsAreJustified(dealer, front);
      LogsAreConsistent(dealer, front);
      var r: Request, now: int :| Decide(dealer)(front, r, now) == Some(e);
      match r {
        case OpenHand(_, _, _) =>
        case CommitDeck(_, _, _, _, _) => CommitJustified(dealer, Reduce(front), r, e);
        case _ => OtherStepsJustified(dealer, Reduce(front), r, now, e);
      }
    }
  }

  lemma {:induction false} LaterEvent(dealer: Dealer, front: seq<HandEvent>, e: HandEvent)
    requires EventLog.Written(Decide(dealer), front) && EventLog.Decided(Decide(dealer), front, e)
    requires Reduce(front).reservation.Some? || Reduce(front).deckRoot.Some?
    ensures e.DeckCommitted? || e.PublicCardRevealed? || e.HandCompleted? || e.HandAborted?
    ensures Reduce(front).deckRoot.Some? ==> !e.DeckCommitted?
  {
    LogsAreConsistent(dealer, front);
    var r: Request, now: int :| Decide(dealer)(front, r, now) == Some(e);
    LaterEvents(dealer, Reduce(front), r, now, e);
  }

  ghost predicate SameTerms(s: State, t: State) {
    s.rules == t.rules && s.serverCommitment == t.serverCommitment
    && s.commitments == t.commitments && s.reservation == t.reservation
  }

  lemma {:induction false} FrozenStep(s: State, e: HandEvent, t: State)
    requires e.DeckCommitted? || e.PublicCardRevealed? || e.HandCompleted? || e.HandAborted?
    requires SameTerms(s, t)
    ensures SameTerms(Step(s, e), t)
  {
  }

  /** Once a beacon round is reserved, neither rules nor commitments nor the reservation change. */
  lemma {:induction false} ReservationFreezes(dealer: Dealer, before: seq<HandEvent>, log: seq<HandEvent>)
    requires EventLog.Written(Decide(dealer), log) && before <= log && Reduce(before).reservation.Some?
    ensures SameTerms(Reduce(log), Reduce(before))
  {
    if |log| > |before| {
      var front, e := WrittenFront(dealer, log);
      assert before <= front;
      ReservationFreezes(dealer, before, front);
      LaterEvent(dealer, front, e);
      FrozenStep(Reduce(front), e, Reduce(before));
    } else {
      assert before == log;
    }
  }

  /**
   * Nobody chooses the deck: once the round is reserved, the beacon's randomness alone decides the deck
   * root, whatever seeds the dealer presents and in whatever order.
   */
  lemma {:induction false} BeaconDecidesTheDeck(dealer: Dealer, before: seq<HandEvent>, a: seq<HandEvent>,
      b: seq<HandEvent>)
    requires EventLog.Written(Decide(dealer), a) && EventLog.Written(Decide(dealer), b)
    requires before <= a && before <= b && Reduce(before).reservation.Some?
    requires Reduce(a).deckRoot.Some? && Reduce(b).deckRoot.Some?
    requires Reduce(a).beacon.Some? && Reduce(b).beacon.Some?
    requires Reduce(a).beacon.value.randomness == Reduce(b).beacon.value.randomness
    ensures Reduce(a).deckRoot == Reduce(b).deckRoot
  {
    ReservationFreezes(dealer, before, a);
    ReservationFreezes(dealer, before, b);
    LogsAreConsistent(dealer, a);
    LogsAreConsistent(dealer, b);
    LogsAreJustified(dealer, a);
    LogsAreJustified(dealer, b);
    JustifiedAlike(dealer, Reduce(a), Reduce(b));
  }

  lemma {:induction false} JustifiedAlike(dealer: Dealer, s: State, t: State)
    requires Justified(dealer, s) && Justified(dealer, t) && s.deckRoot.Some? && t.deckRoot.Some?
    requires s.rules == t.rules && s.serverCommitment == t.serverCommitment && s.commitments == t.commitments
    requires s.beacon == t.beacon
    ensures s.deckRoot == t.deckRoot
  {
    var server, seeds :| JustifiedBy(dealer, s, server, seeds);
    var server', seeds' :| JustifiedBy(dealer, t, server', seeds');
    assert |s.commitments| == |s.commitments.Keys|;
    SameListing(s.commitments.Keys, seeds, seeds');
    SameListing(s.commitments.Keys, seeds', seeds);
    DerivationIgnoresOrder(s.rules.value, server, s.beacon.value, seeds, seeds');
  }

  // ----- The root binds what it was derived from -----

  lemma {:induction false} SeedsList(dealer: Dealer, s: State, serverSeed: nat, seeds: seq<Seed>)
    requires JustifiedBy(dealer, s, serverSeed, seeds)
    ensures forall id :: id in s.commitments <==> exists d :: d in seeds && d.playerId == id
  {
    var ids := set d | d in seeds :: d.playerId;
    IdsCount(seeds);
    assert |s.commitments| == |s.commitments.Keys|;
    SubsetOfSameSize(ids, s.commitments.Keys);
  }

  lemma {:induction false} SameCommitments(dealer: Dealer, s: State, t: State, serverSeed: nat, seeds: seq<Seed>,
      seeds': seq<Seed>)
    requires JustifiedBy(dealer, s, serverSeed, seeds) && JustifiedBy(dealer, t, serverSeed, seeds')
    requires forall d :: d in seeds <==> d in seeds'
    ensures s.commitments == t.commitments
  {
    SeedsList(dealer, s, serverSeed, seeds);
    SeedsList(dealer, t, serverSeed, seeds');
    forall id | id in s.commitments ensures id in t.commitments && s.commitments[id] == t.commitments[id] {
      var d :| d in seeds && d.playerId == id;
    }
  }

  /** Everything a deck is derived from: the rules, all commitments and the beacon's draw. */
  ghost predicate SameInputs(s: State, t: State) {
    && s.rules == t.rules && s.serverCommitment == t.serverCommitment && s.commitments == t.commitments
    && s.beacon.Some? && t.beacon.Some? && SameDraw(s.beacon.value, t.beacon.value)
  }

  lemma {:induction false} RootIffInputs(dealer: Dealer, s: State, t: State)
    requires DealsApart(dealer) && Justified(dealer, s) && Justified(dealer, t)
    requires s.deckRoot.Some? && t.deckRoot.Some?
    ensures s.deckRoot == t.deckRoot <==> SameInputs(s, t)
  {
    hide DealsApart;
    var server, seeds :| JustifiedBy(dealer, s, server, seeds);
    var server', seeds' :| JustifiedBy(dealer, t, server', seeds');
    if s.deckRoot == t.deckRoot {
      RootsShareInputs(dealer, s, t, server, seeds, server', seeds');
    }
    if SameInputs(s, t) {
      JustifiedDraw(dealer, t, s.beacon.value);
      JustifiedAlike(dealer, s, t.(beacon := s.beacon));
    }
  }

  lemma {:induction false} RootsShareInputs(dealer: Dealer, s: State, t: State, server: nat, seeds: seq<Seed>,
      server': nat, seeds': seq<Seed>)
    requires DealsApart(dealer) && JustifiedBy(dealer, s, server, seeds) && JustifiedBy(dealer, t, server', seeds')
    requires s.deckRoot == t.deckRoot
    ensures SameInputs(s, t)
  {
    hide DealsApart;
    RootBindsSeed(dealer, DeriveHandSeed(s.rules.value, server, s.beacon.value, seeds).value,
      DeriveHandSeed(t.rules.value, server', t.beacon.value, seeds').value);
    DerivationBinds(s.rules.value, server, s.beacon.value, seeds, t.rules.value, server', t.beacon.value, seeds');
    SameCommitments(dealer, s, t, server, seeds, seeds');
  }

  lemma {:induction false} JustifiedDraw(dealer: Dealer, t: State, beacon: Beacon)
    requires Justified(dealer, t) && t.deckRoot.Some? && t.beacon.Some? && SameDraw(beacon, t.beacon.value)
    ensures Justified(dealer, t.(beacon := Some(beacon)))
  {
    var server, seeds :| JustifiedBy(dealer, t, server, seeds);
    assert JustifiedBy(dealer, t.(beacon := Some(beacon)), server, seeds);
  }

  /**
   * Of a hand's possible logs with a deck, two have the same root if and only if they agree on the rules,
   * on the server's and every player's commitment and on the beacon's draw: change any of them and the
   * deck changes.
   */
  lemma {:induction false} RootBindsInputs(dealer: Dealer, a: seq<HandEvent>, b: seq<HandEvent>)
    requires DealsApart(dealer)
    requires EventLog.Written(Decide(dealer), a) && EventLog.Written(Decide(dealer), b)
    requires Reduce(a).deckRoot.Some? && Reduce(b).deckRoot.Some?
    ensures Reduce(a).deckRoot == Reduce(b).deckRoot <==> SameInputs(Reduce(a), Reduce(b))
  {
    hide Decide, Justified, SameInputs, DealsApart;
    LogsAreJustified(dealer, a);
    LogsAreJustified(dealer, b);
    RootIffInputs(dealer, Reduce(a), Reduce(b));
  }

  /** Once the round is reserved, the deck is open: it changes exactly with the beacon's randomness. */
  lemma {:induction false} OnlyTheBeaconDecides(dealer: Dealer, before: seq<HandEvent>, a: seq<HandEvent>,
      b: seq<HandEvent>)
    requires DealsApart(dealer)
    requires EventLog.Written(Decide(dealer), a) && EventLog.Written(Decide(dealer), b)
    requires before <= a && before <= b && Reduce(before).reservation.Some?
    requires Reduce(a).deckRoot.Some? && Reduce(b).deckRoot.Some?
    ensures Reduce(a).beacon.Some? && Reduce(b).beacon.Some?
    ensures Reduce(a).deckRoot == Reduce(b).deckRoot
      <==> Reduce(a).beacon.value.randomness == Reduce(b).beacon.value.randomness
  {
    hide Decide, Justified, DealsApart;
    ReservationFreezes(dealer, before, a);
    ReservationFreezes(dealer, before, b);
    LogsAreConsistent(dealer, a);
    LogsAreConsistent(dealer, b);
    RootBindsInputs(dealer, a, b);
  }

  // ----- The cards shown are the committed ones -----

  lemma {:induction false} RootIsFinal(dealer: Dealer, before: seq<HandEvent>, log: seq<HandEvent>)
    requires EventLog.Written(Decide(dealer), log) && before <= log && Reduce(before).deckRoot.Some?
    ensures Reduce(log).deckRoot == Reduce(before).deckRoot
  {
    hide Decide;
    if |log| > |before| {
      var front, e := WrittenFront(dealer, log);
      assert before <= front;
      RootIsFinal(dealer, before, front);
      LaterEvent(dealer, front, e);
    } else {
      assert before == log;
    }
  }

  /** Every card ever revealed on a log is the one the deck behind its root holds at that position. */
  lemma {:induction false} RevealedCardsAreCommitted(dealer: Dealer, log: seq<HandEvent>, k: nat, deck: CommittedDeck)
    requires EventLog.Written(Decide(dealer), log) && k < |log| && log[k].PublicCardRevealed?
    requires Commits(deck) && Reduce(log).deckRoot == Some(deck.root)
    ensures var shown := log[k].shown;
      0 <= shown.position < 52 && shown.card.id == deck.order[shown.position]
  {
    var front := log[..k];
    assert EventLog.Decided(Decide(dealer), front, log[k]);
    var stored := RevealedFrom(dealer, front, log[k]);
    WrittenPrefix(dealer, log, k);
    RootIsFinal(dealer, front, log);
    AcceptedRevealIsCommitted(deck, log[k].shown);
  }

  lemma {:induction false} WrittenPrefix(dealer: Dealer, log: seq<HandEvent>, k: nat)
    requires EventLog.Written(Decide(dealer), log) && k <= |log|
    ensures EventLog.Written(Decide(dealer), log[..k])
  {
    forall i | 0 <= i < k ensures EventLog.Decided(Decide(dealer), log[..k][..i], log[..k][i]) {
      assert log[..k][..i] == log[..i];
    }
  }

  /** In every interleaving of calls on observed versions, reveals follow the committed order. */
  lemma {:induction false} InterleavedRevealsAreAPrefix(dealer: Dealer, moves: seq<EventLog.Move<Request>>)
    requires EventLog.ObservedRun(Decide(dealer), EventLog.Start(), moves)
    ensures var store := EventLog.DoAll(Decide(dealer), EventLog.Start(), moves).store;
      var s := Reduce(EventLog.Payloads(store.events));
      RevealsInOrder(s) && Justified(dealer, s)
  {
    EventLog.InterleavingsAreSerial(Decide(dealer), moves);
    var log := EventLog.Payloads(EventLog.DoAll(Decide(dealer), EventLog.Start(), moves).store.events);
    LogsAreConsistent(dealer, log);
    LogsAreJustified(dealer, log);
  }

  // ----- Repeated requests -----

  /** The reveal of a position already on the log. */
  function RevealFor(log: seq<HandEvent>, position: int): Option<Reveal> {
    if log == [] then None
    else
      var front, e := log[..|log| - 1], log[|log| - 1];
      if e.PublicCardRevealed? && e.shown.position == position then Some(e.shown) else RevealFor(front, position)
  }

  /** The deck root of a completion already on the log. */
  function CompletedWith(log: seq<HandEvent>): Option<Digest> {
    if log == [] then None
    else
      var front, e := log[..|log| - 1], log[|log| - 1];
      if e.HandCompleted? then Some(e.deckRoot) else CompletedWith(front)
  }

  /**
   * Revealing under a key named after the position: a reveal on the log is answered again if it is the
   * same and refused if not, a new one is appended. None where the coordinator throws.
   */
  function RevealByKey(log: seq<HandEvent>, position: int, deck: CommittedDeck): Option<(Reveal, seq<HandEvent>)>
    requires StoredDeck(deck)
  {
    var s := Reduce(log);
    if s.rules.None? then None
    else match PublicSequence(s.rules.value)
      case Err(_) => None
      case Ok(sequence) =>
        match RevealOf(deck, position)
        case Err(_) => None
        case Ok(shown) =>
          if position !in sequence then None
          else match RevealFor(log, position)
            case Some(prior) => if prior == shown then Some((shown, log)) else None
            case None =>
              match DecideReveal(s, position, deck)
              case None => None
              case Some(e) => Some((shown, log + [e]))
  }

  /** Completing under the hand's one completion key, in the same way. */
  function CompleteByKey(dealer: Dealer, log: seq<HandEvent>, hand: CommittedHand, now: int): Option<seq<HandEvent>> {
    if Some(hand.record.deckRoot) != Reduce(log).deckRoot
       || VerifyAudit(dealer, hand.record, hand.serverSeed, hand.playerSeeds).None? then None
    else match CompletedWith(log)
      case Some(root) => if root == hand.record.deckRoot then Some(log) else None
      case None =>
        match DecideOn(dealer, Reduce(log), CompleteHand(Some(hand)), now)
        case None => None
        case Some(e) => Some(log + [e])
  }

  lemma {:induction false} RevealForShown(log: seq<HandEvent>, position: int)
    ensures RevealFor(log, position).Some? <==> position in Reduce(log).publicPositions
    ensures RevealFor(log, position).Some? ==>
      exists k :: 0 <= k < |log| && log[k] == PublicCardRevealed(RevealFor(log, position).value)
    ensures RevealFor(log, position).Some? ==> RevealFor(log, position).value.position == position
  {
    if log != [] {
      var front, e := log[..|log| - 1], log[|log| - 1];
      RevealForShown(front, position);
      if e.PublicCardRevealed? && e.shown.position == position {
        assert log[|log| - 1] == PublicCardRevealed(e.shown);
      } else if RevealFor(front, position).Some? {
        var k :| 0 <= k < |front| && front[k] == PublicCardRevealed(RevealFor(front, position).value);
        assert log[k] == front[k];
      }
    }
  }

  /** A reveal decided from any deck and accepted under a root is the reveal of the deck behind the root. */
  lemma {:induction false} SameReveal(deck: CommittedDeck, stored: CommittedDeck, position: int)
    requires Commits(deck) && StoredDeck(stored) && RevealOf(stored, position).Ok?
    requires Accepted(deck.root, RevealOf(stored, position).value)
    ensures RevealOf(stored, position) == RevealOf(deck, position)
  {
    ProofFoldsToRoot(Leaves(stored.order, stored.nonces), position);
    RootDeterminesDeck(deck.order, deck.nonces, stored.order, stored.nonces);
  }

  /** A repeated reveal computes the very payload its key stands for, so it is never refused. */
  lemma {:induction false} RevealsAreHonest(dealer: Dealer, log: seq<HandEvent>, k: nat, deck: CommittedDeck)
    requires EventLog.Written(Decide(dealer), log) && k < |log| && log[k].PublicCardRevealed?
    requires Commits(deck) && Reduce(log).deckRoot == Some(deck.root)
    ensures RevealOf(deck, log[k].shown.position) == Ok(log[k].shown)
  {
    var front := log[..k];
    assert EventLog.Decided(Decide(dealer), front, log[k]);
    WrittenPrefix(dealer, log, k);
    var stored := RevealedFrom(dealer, front, log[k]);
    RootIsFinal(dealer, front, log);
    SameReveal(deck, stored, log[k].shown.position);
  }

  lemma {:induction false} RevealedFrom(dealer: Dealer, front: seq<HandEvent>, e: HandEvent)
    returns (stored: CommittedDeck)
    requires EventLog.Decided(Decide(dealer), front, e) && e.PublicCardRevealed?
    ensures StoredDeck(stored) && RevealOf(stored, e.shown.position) == Ok(e.shown)
    ensures Reduce(front).deckRoot.Some? && Accepted(Reduce(front).deckRoot.value, e.shown)
  {
    var r: Request, now: int :| Decide(dealer)(front, r, now) == Some(e);
    match r {
      case RevealPublicCard(position, deck) =>
        RevealShows(Reduce(front), position, deck.value, e);
        stored := deck.value;
      case CommitDeck(_, _, _, _, _) => CommitCommits(dealer, Reduce(front), r, e);
      case _ =>
    }
  }

  /** A hand is completed once, with the root of its deck. */
  lemma {:induction false} CompletedOnce(dealer: Dealer, log: seq<HandEvent>)
    requires EventLog.Written(Decide(dealer), log)
    ensures CompletedWith(log).Some? <==> Reduce(log).status == Complete
    ensures CompletedWith(log).Some? ==> CompletedWith(log) == Reduce(log).deckRoot
  {
    hide DecideOn;
    if log != [] {
      var front, e := WrittenFront(dealer, log);
      CompletedOnce(dealer, front);
      var r: Request, now: int :| Decide(dealer)(front, r, now) == Some(e);
      NothingAfterComplete(dealer, Reduce(front), r, now, e);
    }
  }

  lemma {:induction false} NothingAfterComplete(dealer: Dealer, s: State, r: Request, now: int, e: HandEvent)
    requires DecideOn(dealer, s, r, now) == Some(e)
    ensures e.HandCompleted? ==> s.deckRoot == Some(e.deckRoot)
    ensures s.status == Complete ==> r.OpenHand?
  {
    hide PublicSequence, CreateCommittedHand, VerifyAudit, Accepted, RevealOf, OpensAll;
  }

  // ----- The store -----

  /** The in-memory event store, one log and one set of idempotency keys per hand. */
  class HandEventStore {
    var hands: map<nat, EventLog.Store<Request, HandEvent>>

    function StoreOf(handId: nat): EventLog.Store<Request, HandEvent>
      reads this
    {
      if handId in hands then hands[handId] else EventLog.Store([], map[])
    }

    constructor ()
      ensures forall handId: nat :: StoreOf(handId) == EventLog.Store([], map[])
    {
      hands := map[];
    }

    method Append(handId: nat, expected: int, key: EventLog.Key, digest: Request, event: EventLog.Event<HandEvent>)
      returns (r: Result<EventLog.Appended<HandEvent>, EventLog.StoreError>)
      modifies this
      ensures (StoreOf(handId), r) == EventLog.Append(old(StoreOf(handId)), expected, key, digest, event)
      ensures forall other: nat :: other != handId ==> StoreOf(other) == old(StoreOf(other))
    {
      var store := StoreOf(handId);
      if key in store.keys {
        var prior := store.keys[key];
        if prior.digest != digest {
          return Err(EventLog.KeyReused);
        }
        return Ok(EventLog.Appended(prior.event, true));
      }
      if |store.events| != expected {
        return Err(EventLog.VersionConflict);
      }
      hands := hands[handId := EventLog.Store(store.events + [event],
        store.keys[key := EventLog.Entry(digest, event)])];
      return Ok(EventLog.Appended(event, false));
    }
  }
}
