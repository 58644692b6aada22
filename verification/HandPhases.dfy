/**
 * The order of a hand's log: which event stands where, who wrote it under which conditions, and that
 * nothing follows the end (the status checks of server/hand-coordinator.js, read over whole logs).
 */
module HandPhases {
  import opened Wrappers
  import opened Seqs
  import opened HandLog
  import D = DeckMerkle
  import EventLog
  import F = Fairness
  import Seats

  /** The event at place k of the log of a hand of n players, as long as the hand is not aborted. */
  predicate InPhase(e: HandEvent, k: nat, n: nat) {
    if k == 0 then e.HandOpened?
    else if k <= n then e.PlayerCommitted?
    else if k == n + 1 then e.ReservedBeacon?
    else if k == n + 2 then e.DeckCommitted?
    else e.PublicCardRevealed? || e.HandCompleted?
  }

  predicate Ends(e: HandEvent) { e.HandCompleted? || e.HandAborted? }

  ghost predicate Phased(log: seq<HandEvent>, n: nat) {
    forall k :: 0 <= k < |log| ==>
      (InPhase(log[k], k, n) || (k > 0 && log[k].HandAborted?)) && (Ends(log[k]) ==> k == |log| - 1)
  }

  /** How far a log of a given length has come, by the status it reduces to. */
  ghost predicate Reached(s: State, length: nat) {
    match s.status
    case Missing => length == 0
    case Committing => 1 <= length <= |s.players| + 1 && |s.commitments| == length - 1
    case BeaconReserved => length == |s.players| + 2
    case Dealing => length == |s.players| + 3 + |s.publicPositions|
    case _ => length > 1
  }

  /** Each status admits only the events of its phase. */
  lemma {:induction false} PhaseStep(dealer: F.Dealer, s: State, length: nat, r: Request, now: int, e: HandEvent)
    requires Consistent(s) && Reached(s, length) && DecideOn(dealer, s, r, now) == Some(e)
    requires r.OpenHand? <==> length == 0
    ensures Reached(Step(s, e), length + 1) && s.status != Complete && s.status != Aborted
    ensures InPhase(e, length, |Step(s, e).players|) || (length > 0 && e.HandAborted?)
    ensures Ends(e) <==> Step(s, e).status == Complete || Step(s, e).status == Aborted
    ensures length > 0 ==> Step(s, e).players == s.players
  {
    hide DecideReveal, DecideCommit, F.VerifyAudit, StoredDeck, RevealsInOrder, MatchesReservation, PublicSequence;
    match r {
      case RevealPublicCard(position, deck) => RevealPhase(s, position, deck.value, e);
      case CommitDeck(_, _, _, _, _) => CommitCommits(dealer, s, r, e);
      case SubmitCommitment(playerId, commitment) => OneMore(s, playerId, commitment);
      case _ =>
    }
  }

  lemma {:induction false} RevealPhase(s: State, position: int, deck: D.CommittedDeck, e: HandEvent)
    requires StoredDeck(deck) && DecideReveal(s, position, deck) == Some(e)
    ensures e.PublicCardRevealed? && s.status == Dealing
  {
  }

  lemma {:induction false} OneMore(s: State, playerId: nat, commitment: F.Commitment)
    requires Consistent(s) && playerId in s.players && playerId !in s.commitments
    ensures |s.commitments[playerId := commitment]| == |s.commitments| + 1
    ensures |s.commitments| < |s.players|
  {
    var keys := s.commitments.Keys;
    assert s.commitments[playerId := commitment].Keys == keys + {playerId};
    assert |s.commitments| == |keys|;
    CardinalityOf(s.players, keys + {playerId});
  }

  lemma {:induction false} CardinalityOf(list: seq<nat>, ids: set<nat>)
    requires forall id :: id in ids ==> id in list
    ensures |ids| <= |list|
  {
    if list == [] {
      assert ids == {};
    } else {
      var rest := ids - {list[0]};
      forall id | id in rest ensures id in list[1..] {
        assert list == [list[0]] + list[1..];
      }
      CardinalityOf(list[1..], rest);
      assert ids == rest || ids == rest + {list[0]};
    }
  }

  lemma {:induction false} LogsReach(dealer: F.Dealer, log: seq<HandEvent>)
    requires EventLog.Written(Decide(dealer), log)
    ensures Reached(Reduce(log), |log|) && Phased(log, |Reduce(log).players|)
    ensures log != [] ==> (Ends(log[|log| - 1]) <==> Reduce(log).status == Complete || Reduce(log).status == Aborted)
  {
    hide Decide, Consistent, Step, Reached, InPhase, Ends;
    if log != [] {
      var front, e := WrittenFront(dealer, log);
      LogsReach(dealer, front);
      LogsAreConsistent(dealer, front);
      DecidedStep(dealer, front, e);
    } else {
      NothingReached();
    }
  }

  lemma {:induction false} NothingReached()
    ensures Reduce([]) == NO_HAND && Reached(NO_HAND, 0)
  {
  }

  lemma {:induction false} DecidedStep(dealer: F.Dealer, front: seq<HandEvent>, e: HandEvent)
    requires EventLog.Decided(Decide(dealer), front, e) && Consistent(Reduce(front))
    requires Reached(Reduce(front), |front|)
    ensures var s, s' := Reduce(front), Step(Reduce(front), e);
      && Reached(s', |front| + 1) && s.status != Complete && s.status != Aborted
      && (InPhase(e, |front|, |s'.players|) || (|front| > 0 && e.HandAborted?))
      && (Ends(e) <==> s'.status == Complete || s'.status == Aborted)
      && (|front| > 0 ==> s'.players == s.players)
  {
    hide DecideOn, Consistent, Step, Reached, InPhase, Ends;
    var r: Request, now: int :| Decide(dealer)(front, r, now) == Some(e);
    if front == [] && !r.OpenHand? {
      NothingReached();
      FirstOpens(dealer, r, now);
    }
    PhaseStep(dealer, Reduce(front), |front|, r, now, e);
  }

  lemma {:induction false} FirstOpens(dealer: F.Dealer, r: Request, now: int)
    requires !r.OpenHand?
    ensures DecideOn(dealer, NO_HAND, r, now) == None
  {
  }

  /**
   * The log of a hand of n players is an opening, n commitments by different players, one reservation,
   * one deck, reveals and one completion, in this order; an abort may cut it short after the opening,
   * and nothing follows a completion or an abort.
   */
  lemma {:induction false} LogsGoThroughPhases(dealer: F.Dealer, log: seq<HandEvent>)
    requires EventLog.Written(Decide(dealer), log)
    ensures Phased(log, |Reduce(log).players|)
    ensures forall i, j :: 0 <= i < j < |log| && log[i].PlayerCommitted? && log[j].PlayerCommitted? ==>
      log[i].playerId != log[j].playerId
  {
    hide Decide;
    LogsReach(dealer, log);
    forall i, j | 0 <= i < j < |log| && log[i].PlayerCommitted? && log[j].PlayerCommitted?
      ensures log[i].playerId != log[j].playerId
    {
      assert EventLog.Decided(Decide(dealer), log[..j], log[j]);
      NewCommitter(dealer, log[..j], log[j]);
      CommitmentsStay(log[..j], i);
    }
  }

  lemma {:induction false} NewCommitter(dealer: F.Dealer, front: seq<HandEvent>, e: HandEvent)
    requires EventLog.Decided(Decide(dealer), front, e) && e.PlayerCommitted?
    ensures e.playerId !in Reduce(front).commitments
  {
    var r: Request, now: int :| Decide(dealer)(front, r, now) == Some(e);
    match r {
      case RevealPublicCard(position, deck) => RevealPhase(Reduce(front), position, deck.value, e);
      case CommitDeck(_, _, _, _, _) => CommitCommits(dealer, Reduce(front), r, e);
      case _ =>
    }
  }

  lemma {:induction false} CommitmentsStay(log: seq<HandEvent>, i: nat)
    requires i < |log| && log[i].PlayerCommitted?
    ensures log[i].playerId in Reduce(log).commitments
  {
    if i < |log| - 1 {
      CommitmentsStay(log[..|log| - 1], i);
    }
  }

  // ----- Who writes what when -----

  /**
   * A beacon round is reserved exactly while commitments are open, once every player has committed, for
   * a round that counts from one and comes out later than now.
   */
  lemma {:induction false} ReservedIffAhead(dealer: F.Dealer, log: seq<HandEvent>, reservation: Reservation, now: int)
    requires EventLog.Written(Decide(dealer), log)
    ensures Decide(dealer)(log, ReserveBeacon(reservation), now)
      == if |log| == |Reduce(log).players| + 1 && !Ends(log[|log| - 1])
            && reservation.round > 0 && now < reservation.notBefore
         then Some(ReservedBeacon(reservation)) else None
  {
    hide StoredDeck, RevealsInOrder, DecideReveal, DecideCommit, InPhase, Ends, Step, MatchesReservation;
    LogsReach(dealer, log);
    LogsAreConsistent(dealer, log);
  }

  /** The seeds open the commitments on the log: the server's, and each player's exactly once. */
  ghost predicate SeedsOpen(s: State, serverSeed: nat, seeds: seq<F.Seed>) {
    && s.serverCommitment == Some(F.ServerSeed(serverSeed))
    && F.UniqueIds(seeds) && |seeds| == |s.commitments|
    && forall d :: d in seeds ==>
         d.playerId in s.commitments && s.commitments[d.playerId] == F.PlayerSeed(d.playerId, d.seed)
  }

  /** The terms of a hand are those it was opened on, for two to nine players. */
  lemma {:induction false} TermsAreOpening(dealer: F.Dealer, log: seq<HandEvent>)
    requires EventLog.Written(Decide(dealer), log) && log != []
    ensures var s := Reduce(log);
      s.rules.Some? && s.serverCommitment.Some? && 2 <= s.rules.value.seats <= 9
      && log[0] == HandOpened(s.rules.value, s.players, s.serverCommitment.value)
  {
    hide DecideOn, Consistent;
    var front, e := WrittenFront(dealer, log);
    var r: Request, now: int :| Decide(dealer)(front, r, now) == Some(e);
    if front == [] {
      NothingReached();
      OpenedAs(dealer, r, now, e);
    } else {
      TermsAreOpening(dealer, front);
      LogsReach(dealer, log);
      LogsReach(dealer, front);
      assert !e.HandOpened?;
    }
  }

  lemma {:induction false} OpenedAs(dealer: F.Dealer, r: Request, now: int, e: HandEvent)
    requires DecideOn(dealer, NO_HAND, r, now) == Some(e)
    ensures e.HandOpened? && 2 <= e.rules.seats <= 9
  {
    hide DecideOn;
    if !r.OpenHand? {
      FirstOpens(dealer, r, now);
    } else {
      OpenedByRequest(dealer, r, now, e);
    }
  }

  lemma {:induction false} OpenedByRequest(dealer: F.Dealer, r: Request, now: int, e: HandEvent)
    requires r.OpenHand? && DecideOn(dealer, NO_HAND, r, now) == Some(e)
    ensures e.HandOpened? && 2 <= e.rules.seats <= 9
  {
  }

  lemma {:induction false} ReservedLast(dealer: F.Dealer, log: seq<HandEvent>)
    requires EventLog.Written(Decide(dealer), log)
    ensures Reduce(log).status == BeaconReserved <==> log != [] && log[|log| - 1].ReservedBeacon?
    ensures log != [] && log[|log| - 1].ReservedBeacon? ==> Reduce(log).reservation == Some(log[|log| - 1].reservation)
  {
    hide Decide;
    LogsReach(dealer, log);
  }

  lemma {:induction false} OpeningFits(dealer: F.Dealer, s: State, r: Request)
    requires r.CommitDeck? && s.rules.Some? && 2 <= |s.commitments| <= 9
    ensures var hand := F.CreateCommittedHand(dealer, s.rules.value, r.beacon, r.playerSeeds, r.serverSeed);
      (hand.Ok? && OpensAll(s, hand.value.record)) <==> SeedsOpen(s, r.serverSeed, r.playerSeeds)
  {
    var hand := F.CreateCommittedHand(dealer, s.rules.value, r.beacon, r.playerSeeds, r.serverSeed);
    if F.UniqueIds(r.playerSeeds) {
      F.SortSeeds(r.playerSeeds);
      CommitmentsOf(Seats.SortBySeat(F.IdOf, r.playerSeeds), s);
    }
  }

  lemma {:induction false} CommitmentsOf(seeds: seq<F.Seed>, s: State)
    ensures var record := Map(F.CommitOf, seeds);
      (forall c :: c in record ==> c.playerId in s.commitments && s.commitments[c.playerId] == c.commitment)
      <==> forall d :: d in seeds ==>
             d.playerId in s.commitments && s.commitments[d.playerId] == F.PlayerSeed(d.playerId, d.seed)
  {
    var record := Map(F.CommitOf, seeds);
    forall d | d in seeds ensures F.CommitOf(d) in record {
      var i :| 0 <= i < |seeds| && seeds[i] == d;
      assert record[i] == F.CommitOf(d);
    }
  }

  /**
   * A deck is committed exactly right after a reservation, from a beacon of the reserved round that is
   * signed and verified again, with seeds that open all commitments.
   */
  lemma {:induction false} CommittedIffOpened(dealer: F.Dealer, log: seq<HandEvent>, r: Request, now: int)
    requires EventLog.Written(Decide(dealer), log) && r.CommitDeck?
    ensures Decide(dealer)(log, r, now).Some?
      <==> log != [] && log[|log| - 1].ReservedBeacon? && r.signed && r.reverified
           && MatchesReservation(r.beacon, Some(log[|log| - 1].reservation))
           && SeedsOpen(Reduce(log), r.serverSeed, r.playerSeeds)
  {
    hide OpensAll, F.CreateCommittedHand, SeedsOpen, Consistent, Reduce;
    ReservedLast(dealer, log);
    if log != [] {
      TermsAreOpening(dealer, log);
    }
    if Reduce(log).status == BeaconReserved {
      Committers(dealer, log);
      OpeningFits(dealer, Reduce(log), r);
    }
  }

  lemma {:induction false} Committers(dealer: F.Dealer, log: seq<HandEvent>)
    requires EventLog.Written(Decide(dealer), log) && Reduce(log).status == BeaconReserved
    ensures 2 <= |Reduce(log).commitments| <= 9
  {
    hide Decide;
    ReservedLast(dealer, log);
    TermsAreOpening(dealer, log);
    LogsAreConsistent(dealer, log);
  }

  /**
   * A hand is completed exactly from its deck on, by the opening of its own root that passes the audit;
   * it is aborted at any time before its end for a listed reason, once refunds are scheduled.
   */
  lemma {:induction false} EndedIff(dealer: F.Dealer, log: seq<HandEvent>, hand: F.CommittedHand, reason: string,
      refundsScheduled: bool, now: int)
    requires EventLog.Written(Decide(dealer), log)
    ensures Decide(dealer)(log, CompleteHand(Some(hand)), now).Some?
      <==> |log| > |Reduce(log).players| + 2 && !Ends(log[|log| - 1])
           && Reduce(log).deckRoot == Some(hand.record.deckRoot)
           && F.VerifyAudit(dealer, hand.record, hand.serverSeed, hand.playerSeeds).Some?
    ensures Decide(dealer)(log, AbortHand(reason, refundsScheduled), now).Some?
      <==> log != [] && !Ends(log[|log| - 1]) && reason in ABORT_REASONS && refundsScheduled
  {
    hide StoredDeck, RevealsInOrder, DecideReveal, DecideCommit, InPhase, Ends, Step, MatchesReservation, F.VerifyAudit;
    LogsReach(dealer, log);
    LogsAreConsistent(dealer, log);
  }
}
