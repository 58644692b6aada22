/** Which increases the rules accept, and why a pot-limit player is never squeezed out of one. */
module PotLimit {
  import opened Seqs
  import opened Games
  import opened Betting
  import opened BettingInvariant
  import opened BettingProgress

  /** The pot holds at least what the actor needs to have bet to stay in. */
  lemma {:induction false} PotCoversTheBet(h: Hand, f: Floor, i: nat)
    requires Mid(h, f) && i < |h.players|
    ensures PotSize(h.players) + ToCall(h, h.players[i]) >= h.currentBet
    ensures PotSize(h.players) + ToCall(h, h.players[i]) >= h.lastFullRaise
    ensures h.currentBet == 0 ==> PotSize(h.players) >= h.bigBlind
  {
    forall p | p in h.players ensures ContributedOf(p) >= 0 {
      assert ChipsOk(p);
    }
    SumOfAtLeast(ContributedOf, h.players, i);
    assert ChipsOk(h.players[i]);
  }

  ghost predicate MayIncrease(h: Hand, i: nat)
    requires i < |h.players|
  {
    LegalFor(h, i).canBet || LegalFor(h, i).canRaise
  }

  /**
   * In every reachable state: an increase is offered exactly to an actor who has more than the bet and
   * has not acted since the last full raise, and the least and greatest legal targets are compatible
   * unless only an all-in remains.
   */
  lemma {:induction false} NoSqueeze(h: Hand, f: Floor, i: nat)
    requires Invariant(h, f) && h.status == Betting && ToAct(h, i)
    ensures MayIncrease(h, i) <==>
      h.players[i].street + h.players[i].stack > h.currentBet && h.players[i].playerId !in h.acted
    ensures MayIncrease(h, i) ==> var legal := LegalFor(h, i);
      legal.minimumTarget <= legal.maximumTarget || legal.maximumTarget == legal.allInTarget
  {
    PotCoversTheBet(h, f, i);
  }

  /** Pot limit: the greatest target raises the matched bet by the pot as it stands after the call. */
  lemma {:induction false} PotLimitIsPotAfterCall(h: Hand, f: Floor, i: nat)
    requires Invariant(h, f) && h.status == Betting && ToAct(h, i) && h.game == PLO4 && MayIncrease(h, i)
    ensures var p, legal := h.players[i], LegalFor(h, i);
      var potAfterCall := PotSize(h.players[i := PayTo(p, p.street + legal.callAmount)]);
      legal.maximumTarget == Min(h.currentBet + potAfterCall, legal.allInTarget)
  {
    var p := h.players[i];
    SumOfUpdate(ContributedOf, h.players, i, PayTo(p, p.street + LegalFor(h, i).callAmount));
  }

  function Increasing(h: Hand, target: int): Move {
    if h.currentBet == 0 then Bet(target) else Raise(target)
  }

  /**
   * An offered increase is accepted exactly for targets above the bet, up to the maximum, and at
   * least the minimum or all-in; in particular the greatest target is always accepted.
   */
  lemma {:induction false} AcceptedTargets(h: Hand, f: Floor, i: nat, target: int)
    requires Invariant(h, f) && h.status == Betting && ToAct(h, i) && MayIncrease(h, i)
    ensures var legal := LegalFor(h, i);
      ApplyAction(h, Action(h.players[i].playerId, h.version, Increasing(h, target))).Ok? <==>
        (&& h.currentBet < target <= legal.maximumTarget
         && (target >= legal.minimumTarget || target == legal.allInTarget))
    ensures ApplyAction(h, Action(h.players[i].playerId, h.version, Increasing(h, LegalFor(h, i).maximumTarget))).Ok?
  {
    AcceptedIff(h, f, i, target);
    AcceptedIff(h, f, i, LegalFor(h, i).maximumTarget);
    NoSqueeze(h, f, i);
  }

  lemma {:induction false} AcceptedIff(h: Hand, f: Floor, i: nat, target: int)
    requires Invariant(h, f) && h.status == Betting && ToAct(h, i) && MayIncrease(h, i)
    ensures var legal := LegalFor(h, i);
      ApplyAction(h, Action(h.players[i].playerId, h.version, Increasing(h, target))).Ok? <==>
        (&& h.currentBet < target <= legal.maximumTarget
         && (target >= legal.minimumTarget || target == legal.allInTarget))
  {
    ActorIsLegal(h, i);
    if Enact(h, LegalFor(h, i), Increasing(h, target)).Ok? {
      EnactedIsAccepted(h, f, i, Increasing(h, target));
    }
  }
}
