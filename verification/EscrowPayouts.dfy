/** What the escrow pays out: exactly the listed claims, or exactly the deposits back. */
module EscrowPayouts {
  import opened Wrappers
  import opened Seqs
  import opened SettlementTree
  import opened Escrow
  import Seats

  // ----- The committed payouts -----

  function PayoutMap(payouts: seq<Payout>): map<Pubkey, int> {
    if payouts == [] then map[] else PayoutMap(payouts[1..])[payouts[0].player := payouts[0].amount]
  }

  lemma {:induction false} OthersOnly(payouts: seq<Payout>)
    requires Payable(payouts) && payouts != []
    ensures forall p :: p in payouts[1..] ==> p.player != payouts[0].player
  {
    var rest := payouts[1..];
    forall p | p in rest ensures p.player != payouts[0].player {
      var j :| 0 <= j < |rest| && rest[j] == p;
      assert payouts[j + 1] == p;
    }
  }

  lemma {:induction false} PayoutMapEntries(payouts: seq<Payout>)
    requires Payable(payouts)
    ensures forall p :: p in payouts <==> p.player in PayoutMap(payouts) && PayoutMap(payouts)[p.player] == p.amount
    ensures forall k :: k in PayoutMap(payouts) ==>
        Payout(k, PayoutMap(payouts)[k]) in payouts && PayoutMap(payouts)[k] > 0
  {
    if payouts != [] {
      PayoutMapEntries(payouts[1..]);
      OthersOnly(payouts);
      assert payouts == [payouts[0]] + payouts[1..];
    }
  }

  lemma {:induction false} PayoutMapTotal(payouts: seq<Payout>)
    requires Payable(payouts)
    ensures Total(PayoutMap(payouts)) == SumOf(AmountOf, payouts)
  {
    if payouts != [] {
      var rest, first := payouts[1..], payouts[0];
      PayoutMapTotal(rest);
      OthersOnly(payouts);
      PayoutMapEntries(rest);
      forall k | k in PayoutMap(rest) ensures k != first.player {
        assert Payout(k, PayoutMap(rest)[k]) in rest;
      }
      TotalPut(PayoutMap(rest), first.player, first.amount);
    }
  }

  lemma {:induction false} PayoutMapIs(payouts: seq<Payout>)
    requires Payable(payouts)
    ensures forall p :: p in payouts <==> p.player in PayoutMap(payouts) && PayoutMap(payouts)[p.player] == p.amount
    ensures forall k :: k in PayoutMap(payouts) ==>
        Payout(k, PayoutMap(payouts)[k]) in payouts && PayoutMap(payouts)[k] > 0
    ensures Total(PayoutMap(payouts)) == SumOf(AmountOf, payouts)
  {
    PayoutMapEntries(payouts);
    PayoutMapTotal(payouts);
  }

  /** A settling session whose root is the tree of payouts that spend exactly its deposits. */
  ghost predicate Committed(leq: Order, s: Session, payouts: seq<Payout>) {
    && TotalOrder(leq) && s.status == Settling
    && |payouts| <= Pow2(MAX_PROOF)
    && BuildSettlementTree(leq, s.key, payouts, Some(s.totalDeposited)).Ok?
    && s.settlementRoot == BuildSettlementTree(leq, s.key, payouts, Some(s.totalDeposited)).value.root
  }

  /** Claims paid so far are listed payouts. */
  ghost predicate Backed(leq: Order, s: Session, payouts: seq<Payout>) {
    && Committed(leq, s, payouts) && Safe(s)
    && forall k :: k in s.claims ==> Payout(k, s.claims[k]) in payouts
  }

  lemma {:induction false} BuiltIsPayable(leq: Order, session: Pubkey, payouts: seq<Payout>, total: int)
    requires BuildSettlementTree(leq, session, payouts, Some(total)).Ok?
    ensures Payable(payouts) && payouts != [] && SumOf(AmountOf, payouts) == total
  {
    assert payouts[..0] == [];
    NoFault(payouts, 0);
    SortedPayouts(payouts);
    SumReorders(Seats.SortBySeat(PlayerOf, payouts), payouts);
  }

  lemma {:induction false} SumReorders(a: seq<Payout>, b: seq<Payout>)
    requires multiset(a) == multiset(b)
    ensures SumOf(AmountOf, a) == SumOf(AmountOf, b)
    decreases |a|
  {
    if a == [] {
      assert |multiset(b)| == |b|;
    } else {
      var k := Occurrence(a, b);
      WithoutOne(b, k);
      WithoutOne(a, 0);
      assert a[..0] + a[0 + 1..] == a[1..];
      SumReorders(a[1..], b[..k] + b[k + 1..]);
      SumWithoutOne(b, k);
    }
  }

  lemma {:induction false} Occurrence(a: seq<Payout>, b: seq<Payout>) returns (k: nat)
    requires multiset(a) == multiset(b) && a != []
    ensures k < |b| && b[k] == a[0]
  {
    assert a[0] in multiset(a);
    assert a[0] in b;
    k :| 0 <= k < |b| && b[k] == a[0];
  }

  lemma {:induction false} SumWithoutOne(s: seq<Payout>, k: nat)
    requires k < |s|
    ensures SumOf(AmountOf, s) == AmountOf(s[k]) + SumOf(AmountOf, s[..k] + s[k + 1..])
  {
    assert s == s[..k] + ([s[k]] + s[k + 1..]);
    SumOfConcat(AmountOf, s[..k], [s[k]] + s[k + 1..]);
    SumOfConcat(AmountOf, s[..k], s[k + 1..]);
    assert ([s[k]] + s[k + 1..])[1..] == s[k + 1..];
  }

  lemma {:induction false} WithoutOne<T>(s: seq<T>, k: nat)
    requires k < |s|
    ensures multiset(s[..k] + s[k + 1..]) == multiset(s) - multiset{s[k]}
  {
    assert s == s[..k] + ([s[k]] + s[k + 1..]);
  }

  /** One more listed claim of a player who has not claimed stays within the deposits. */
  lemma {:induction false} ClaimFits(leq: Order, s: Session, payouts: seq<Payout>, p: Payout)
    requires Backed(leq, s, payouts) && p in payouts && p.player !in s.claims
    ensures s.totalReleased + p.amount <= s.totalDeposited <= U64_MAX && p.amount <= s.vault
    ensures 0 < p.amount <= U64_MAX
  {
    BuiltIsPayable(leq, s.key, payouts, s.totalDeposited);
    PayoutMapIs(payouts);
    var after := s.claims[p.player := p.amount];
    forall k | k in after ensures k in PayoutMap(payouts) && PayoutMap(payouts)[k] == after[k] {
      assert Payout(k, after[k]) in payouts;
    }
    TotalPart(after, PayoutMap(payouts));
    TotalPut(s.claims, p.player, p.amount);
    TotalNotNegative(Refunds(s.deposits));
  }

  /** An accepted claim is a listed one. */
  lemma {:induction false} AcceptedIsListed(leq: Order, s: Session, payouts: seq<Payout>, player: Pubkey, amount: u64,
      proof: seq<Digest>)
    requires Committed(leq, s, payouts)
    requires Fold(leq, Leaf(s.key, player, amount), proof) == s.settlementRoot && amount > 0 && |proof| <= MAX_PROOF
    ensures Payout(player, amount) in payouts
  {
    AcceptedClaimsAreListed(leq, s.key, payouts, Some(s.totalDeposited), s.key, player, amount, proof);
  }

  /** The tree's own proof of a listed payout is accepted by the escrow. */
  lemma {:induction false} ListedHasProof(leq: Order, s: Session, payouts: seq<Payout>, p: Payout)
    returns (proof: seq<Digest>)
    requires Committed(leq, s, payouts) && p in payouts
    ensures |proof| <= MAX_PROOF && Fold(leq, Leaf(s.key, p.player, p.amount), proof) == s.settlementRoot
  {
    var tree := BuildSettlementTree(leq, s.key, payouts, Some(s.totalDeposited)).value;
    var sorted := Seats.SortBySeat(PlayerOf, payouts);
    SortedPayouts(payouts);
    assert p in sorted;
    var k :| 0 <= k < |sorted| && sorted[k] == p;
    ClaimsVerify(leq, s.key, payouts, Some(s.totalDeposited), k);
    proof := tree.claims[k].proof;
  }

  ghost predicate Claimable(leq: Order, s: Session, player: Pubkey, amount: u64) {
    exists proof :: ApplyClaim(leq, s, player, amount, proof).Ok?
  }

  /**
   * Exactly the listed payouts can be claimed, each once: in the claim window a player can claim an
   * amount if and only if it is listed and the player has not claimed.
   */
  lemma {:induction false} ClaimableIffListed(leq: Order, s: Session, payouts: seq<Payout>, player: Pubkey, amount: u64)
    requires Backed(leq, s, payouts) && s.slot >= s.claimAfter
    ensures Claimable(leq, s, player, amount) <==> Payout(player, amount) in payouts && player !in s.claims
  {
    if Claimable(leq, s, player, amount) {
      var proof :| ApplyClaim(leq, s, player, amount, proof).Ok?;
      AcceptedIsListed(leq, s, payouts, player, amount, proof);
    }
    if Payout(player, amount) in payouts && player !in s.claims {
      var proof := ListedHasProof(leq, s, payouts, Payout(player, amount));
      ClaimFits(leq, s, payouts, Payout(player, amount));
      assert ApplyClaim(leq, s, player, amount, proof).Ok?;
    }
  }

  /** The escrow's own conservation, overflow and balance checks never reject a claim. */
  lemma {:induction false} ConservationNeverRejects(leq: Order, s: Session, payouts: seq<Payout>, player: Pubkey,
      amount: u64, proof: seq<Digest>)
    requires Backed(leq, s, payouts)
    ensures ApplyClaim(leq, s, player, amount, proof) != Err(SettlementDoesNotConserve)
    ensures ApplyClaim(leq, s, player, amount, proof) != Err(ArithmeticOverflow)
    ensures ApplyClaim(leq, s, player, amount, proof) != Err(TransferFailed)
  {
    if amount > 0 && |proof| <= MAX_PROOF && player !in s.claims
       && Fold(leq, Leaf(s.key, player, amount), proof) == s.settlementRoot
    {
      AcceptedIsListed(leq, s, payouts, player, amount, proof);
      ClaimFits(leq, s, payouts, Payout(player, amount));
    }
  }

  /** Closing is possible exactly after the last listed claim. */
  lemma {:induction false} ClosableIffAllClaimed(leq: Order, s: Session, payouts: seq<Payout>)
    requires Backed(leq, s, payouts)
    ensures ApplyClose(s, s.authority).Ok? <==> forall p :: p in payouts ==> p.player in s.claims
  {
    BuiltIsPayable(leq, s.key, payouts, s.totalDeposited);
    PayoutMapIs(payouts);
    forall k | k in s.claims ensures k in PayoutMap(payouts) && PayoutMap(payouts)[k] == s.claims[k] {
      assert Payout(k, s.claims[k]) in payouts;
    }
    TotalPart(s.claims, PayoutMap(payouts));
    if forall p :: p in payouts ==> p.player in s.claims {
      assert s.claims.Keys == PayoutMap(payouts).Keys;
      assert s.claims == PayoutMap(payouts);
    }
  }

  /** Whatever happens next, the session stays backed until it turns to refunds or closes. */
  lemma {:induction false} BackedStays(leq: Order, s: Session, payouts: seq<Payout>, i: Instruction, s': Session)
    requires Backed(leq, s, payouts) && Apply(leq, s, i) == Ok(s')
    ensures s'.status == Settling ==> Backed(leq, s', payouts)
    ensures s'.status == Refunding ==> s.claims == map[] && s.slot < s.claimAfter
    ensures s'.status in {Settling, Refunding, Closed}
  {
    hide BuildSettlementTree, Fold, Balanced;
    ApplySafe(leq, s, i, s');
    match i
    case ClaimPayout(player, amount, proof) => AcceptedIsListed(leq, s, payouts, player, amount, proof);
    case _ =>
  }

  // ----- From the commitment to the end -----

  /** Committing the root of the tree of payouts that spend the deposits backs the session. */
  lemma {:induction false} CommitBacks(leq: Order, s: Session, payouts: seq<Payout>, i: Instruction, s': Session)
    requires TotalOrder(leq) && Safe(s) && |payouts| <= Pow2(MAX_PROOF)
    requires BuildSettlementTree(leq, s.key, payouts, Some(s.totalDeposited)).Ok?
    requires i.CommitSettlement?
        && i.root == BuildSettlementTree(leq, s.key, payouts, Some(s.totalDeposited)).value.root
    requires Apply(leq, s, i) == Ok(s')
    ensures Backed(leq, s', payouts) && s'.claims == map[]
  {
    hide BuildSettlementTree, Fold;
    ApplySafe(leq, s, i, s');
  }

  /**
   * Where a committed session can be: paying the listed claims; refunding, with nobody paid a claim; or
   * closed, and then either everyone listed was paid or every deposit was returned.
   */
  ghost predicate Settles(leq: Order, s: Session, payouts: seq<Payout>) {
    Safe(s) &&
    match s.status
    case Settling => Backed(leq, s, payouts)
    case Refunding => s.claims == map[]
    case Closed => s.claims == PayoutMap(payouts) || (s.claims == map[] && forall k :: k in s.deposits ==>
      s.deposits[k].refunded)
    case _ => false
  }

  lemma {:induction false} CloseSettles(leq: Order, s: Session, payouts: seq<Payout>, signer: Pubkey, s': Session)
    requires Settles(leq, s, payouts) && ApplyClose(s, signer) == Ok(s')
    ensures Settles(leq, s', payouts)
  {
    hide BuildSettlementTree, Fold;
    ApplySafe(leq, s, CloseSession(signer), s');
    if s.status == Settling {
      ClosableIffAllClaimed(leq, s, payouts);
      AllClaimedIsMap(leq, s, payouts);
    } else {
      ClosableIffAllRefunded(s);
    }
  }

  lemma {:induction false} AllClaimedIsMap(leq: Order, s: Session, payouts: seq<Payout>)
    requires Backed(leq, s, payouts) && forall p :: p in payouts ==> p.player in s.claims
    ensures s.claims == PayoutMap(payouts)
  {
    hide BuildSettlementTree, Fold;
    BuiltIsPayable(leq, s.key, payouts, s.totalDeposited);
    PayoutMapIs(payouts);
    forall k | k in s.claims ensures k in PayoutMap(payouts) && PayoutMap(payouts)[k] == s.claims[k] {
      assert Payout(k, s.claims[k]) in payouts;
    }
    forall k | k in PayoutMap(payouts) ensures k in s.claims {
      assert Payout(k, PayoutMap(payouts)[k]) in payouts;
    }
  }

  lemma {:induction false} StepSettles(leq: Order, s: Session, payouts: seq<Payout>, i: Instruction, s': Session)
    requires Settles(leq, s, payouts) && Apply(leq, s, i) == Ok(s')
    ensures Settles(leq, s', payouts)
  {
    hide BuildSettlementTree, Fold, Balanced, Backed, PayoutMap;
    ApplySafe(leq, s, i, s');
    if i.CloseSession? {
      CloseSettles(leq, s, payouts, i.signer, s');
    } else if s.status == Settling {
      BackedStays(leq, s, payouts, i, s');
    }
  }

  lemma {:induction false} RunSettles(leq: Order, s: Session, payouts: seq<Payout>, instructions: seq<Instruction>)
    requires Settles(leq, s, payouts)
    ensures Settles(leq, Run(leq, s, instructions), payouts)
    decreases |instructions|
  {
    hide Settles, Apply;
    if instructions != [] {
      if Apply(leq, s, instructions[0]).Ok? {
        StepSettles(leq, s, payouts, instructions[0], Apply(leq, s, instructions[0]).value);
      }
      RunSettles(leq, After(leq, s, instructions[0]), payouts, instructions[1..]);
    }
  }

  /**
   * After a commitment, whatever is submitted in whatever order: a session pays everyone listed exactly
   * once or returns every deposit, and while it is paying, exactly the listed payouts of those who
   * have not claimed can be claimed.
   */
  lemma {:induction false} CommittedSessionsSettle(leq: Order, s: Session, payouts: seq<Payout>, commit: Instruction,
                                                   s': Session, instructions: seq<Instruction>)
    requires TotalOrder(leq) && Safe(s) && |payouts| <= Pow2(MAX_PROOF)
    requires BuildSettlementTree(leq, s.key, payouts, Some(s.totalDeposited)).Ok?
    requires commit.CommitSettlement?
    requires commit.root == BuildSettlementTree(leq, s.key, payouts, Some(s.totalDeposited)).value.root
    requires Apply(leq, s, commit) == Ok(s')
    ensures var end := Run(leq, s', instructions);
      && Settles(leq, end, payouts)
      && forall player: Pubkey, amount: u64 ::
           Claimable(leq, end, player, amount) <==>
             (&& end.status == Settling && end.slot >= end.claimAfter
              && Payout(player, amount) in payouts && player !in end.claims)
  {
    hide BuildSettlementTree, Fold, Backed, Run, Claimable;
    CommitBacks(leq, s, payouts, commit, s');
    BackedSettles(leq, s', payouts);
    RunSettles(leq, s', payouts, instructions);
    var end := Run(leq, s', instructions);
    forall player: Pubkey, amount: u64
      ensures Claimable(leq, end, player, amount) <==>
        (&& end.status == Settling && end.slot >= end.claimAfter
         && Payout(player, amount) in payouts && player !in end.claims)
    {
      if end.status == Settling && end.slot >= end.claimAfter {
        ClaimableIffListed(leq, end, payouts, player, amount);
      } else {
        NotClaimable(leq, end, player, amount);
      }
    }
  }

  lemma {:induction false} BackedSettles(leq: Order, s: Session, payouts: seq<Payout>)
    requires Backed(leq, s, payouts)
    ensures Settles(leq, s, payouts)
  {
  }

  lemma {:induction false} NotClaimable(leq: Order, s: Session, player: Pubkey, amount: u64)
    requires s.status != Settling || s.slot < s.claimAfter
    ensures !Claimable(leq, s, player, amount)
  {
    hide Fold;
  }

  // ----- Claims in any order -----

  ghost predicate ClaimsOfTree(leq: Order, s: Session, payouts: seq<Payout>, order: seq<Instruction>) {
    && (forall k :: 0 <= k < |order| ==>
          && order[k].ClaimPayout? && Payout(order[k].player, order[k].amount) in payouts
          && |order[k].proof| <= MAX_PROOF
          && Fold(leq, Leaf(s.key, order[k].player, order[k].amount), order[k].proof) == s.settlementRoot)
    && (forall j, k :: 0 <= j < k < |order| ==> order[j].player != order[k].player)
  }

  ghost predicate Reached(leq: Order, s: Session, order: seq<Instruction>, end: Session) {
    && end == Run(leq, s, order)
    && (forall k :: 0 <= k < |order| ==> order[k].ClaimPayout? && order[k].player in end.claims)
    && (forall k :: k in s.claims ==> k in end.claims)
  }

  ghost predicate Asked(order: seq<Instruction>, player: Pubkey) {
    exists k :: 0 <= k < |order| && order[k].ClaimPayout? && order[k].player == player
  }

  ghost predicate Unclaimed(s: Session, order: seq<Instruction>) {
    forall k :: 0 <= k < |order| ==> order[k].ClaimPayout? && order[k].player !in s.claims
  }

  /** One listed claim succeeds, and only adds itself to the claims. */
  lemma {:induction false} ListedClaimSucceeds(leq: Order, s: Session, payouts: seq<Payout>, i: Instruction,
      next: Session)
    requires i.ClaimPayout? && Backed(leq, s, payouts) && s.slot >= s.claimAfter
    requires ClaimsOfTree(leq, s, payouts, [i]) && Unclaimed(s, [i])
    requires next == After(leq, s, i)
    ensures Apply(leq, s, i) == Ok(next) && Backed(leq, next, payouts)
    ensures next.claims == s.claims[i.player := i.amount]
    ensures next.slot == s.slot && next.claimAfter == s.claimAfter && next.key == s.key
    ensures next.settlementRoot == s.settlementRoot
  {
    assert [i][0] == i;
    ClaimFits(leq, s, payouts, Payout(i.player, i.amount));
    assert Apply(leq, s, i).Ok?;
    BackedStays(leq, s, payouts, i, next);
  }

  lemma {:induction false} FirstClaim(leq: Order, s: Session, payouts: seq<Payout>, order: seq<Instruction>)
    requires order != [] && ClaimsOfTree(leq, s, payouts, order) && Unclaimed(s, order)
    ensures order[0].ClaimPayout? && ClaimsOfTree(leq, s, payouts, [order[0]]) && Unclaimed(s, [order[0]])
  {
    assert [order[0]][0] == order[0];
  }

  lemma {:induction false} LaterClaims(leq: Order, s: Session, payouts: seq<Payout>, order: seq<Instruction>,
      next: Session)
    requires order != [] && order[0].ClaimPayout? && ClaimsOfTree(leq, s, payouts, order) && Unclaimed(s, order)
    requires next.claims == s.claims[order[0].player := order[0].amount]
    requires next.key == s.key && next.settlementRoot == s.settlementRoot
    ensures ClaimsOfTree(leq, next, payouts, order[1..]) && Unclaimed(next, order[1..])
  {
    var rest := order[1..];
    forall k | 0 <= k < |rest| ensures rest[k] == order[k + 1] {
    }
  }

  lemma {:induction false} ReachedStep(leq: Order, s: Session, order: seq<Instruction>, next: Session, end: Session)
    requires order != [] && order[0].ClaimPayout? && next == After(leq, s, order[0])
    requires next.claims == s.claims[order[0].player := order[0].amount]
    requires Reached(leq, next, order[1..], end)
    ensures Reached(leq, s, order, end)
  {
    assert order[0].player in next.claims;
    forall k | 0 <= k < |order| ensures order[k].ClaimPayout? && order[k].player in end.claims {
      if k > 0 {
        assert order[k] == order[1..][k - 1];
      }
    }
  }

  /** Listed claims all succeed in whatever order they arrive. */
  lemma {:induction false} ClaimsInAnyOrder(leq: Order, s: Session, payouts: seq<Payout>, order: seq<Instruction>)
    requires Backed(leq, s, payouts) && s.slot >= s.claimAfter && ClaimsOfTree(leq, s, payouts, order)
        && Unclaimed(s, order)
    ensures Backed(leq, Run(leq, s, order), payouts)
    ensures Reached(leq, s, order, Run(leq, s, order))
    decreases |order|
  {
    if order != [] {
      var next := After(leq, s, order[0]);
      FirstClaim(leq, s, payouts, order);
      ListedClaimSucceeds(leq, s, payouts, order[0], next);
      LaterClaims(leq, s, payouts, order, next);
      ClaimsInAnyOrder(leq, next, payouts, order[1..]);
      ReachedStep(leq, s, order, next, Run(leq, next, order[1..]));
    }
  }

  /** Once everyone listed has claimed, in any order, the authority can close the session. */
  lemma {:induction false} AllClaimedThenClosed(leq: Order, s: Session, payouts: seq<Payout>, order: seq<Instruction>,
      end: Session)
    requires Backed(leq, s, payouts) && s.claims == map[] && s.slot >= s.claimAfter
    requires ClaimsOfTree(leq, s, payouts, order) && end == Run(leq, s, order)
    requires forall p :: p in payouts ==> Asked(order, p.player)
    ensures end.totalReleased == end.totalDeposited == s.totalDeposited
    ensures ApplyClose(end, s.authority).Ok?
  {
    ClaimsInAnyOrder(leq, s, payouts, order);
    ClaimsKeepTerms(leq, s, order);
    EveryoneClaimed(leq, s, payouts, order, end);
  }

  lemma {:induction false} EveryoneClaimed(leq: Order, s: Session, payouts: seq<Payout>, order: seq<Instruction>,
      end: Session)
    requires Reached(leq, s, order, end) && Backed(leq, end, payouts)
    requires forall p :: p in payouts ==> Asked(order, p.player)
    ensures end.totalReleased == end.totalDeposited && ApplyClose(end, end.authority).Ok?
  {
    forall p | p in payouts ensures p.player in end.claims {
      var k :| 0 <= k < |order| && order[k].ClaimPayout? && order[k].player == p.player;
    }
    ClosableIffAllClaimed(leq, end, payouts);
  }

  lemma {:induction false} ClaimsKeepTerms(leq: Order, s: Session, order: seq<Instruction>)
    requires forall k :: 0 <= k < |order| ==> order[k].ClaimPayout?
    ensures Run(leq, s, order).authority == s.authority && Run(leq, s, order).totalDeposited == s.totalDeposited
    decreases |order|
  {
    if order != [] {
      ClaimsKeepTerms(leq, After(leq, s, order[0]), order[1..]);
    }
  }

  // ----- Refunds -----

  /** While refunding, every depositor who has not been refunded can be, in full. */
  lemma {:induction false} RefundSucceedsIff(s: Session, player: Pubkey)
    requires Safe(s) && s.status == Refunding
    ensures ApplyClaimRefund(s, player).Ok? <==> player in s.deposits && !s.deposits[player].refunded
    ensures ApplyClaimRefund(s, player).Ok? ==>
      ApplyClaimRefund(s, player).value.totalReleased == s.totalReleased + s.deposits[player].amount
  {
    if player in s.deposits && !s.deposits[player].refunded {
      var whole, part := Amounts(s.deposits), Refunds(s.deposits)[player := s.deposits[player].amount];
      TotalPut(Refunds(s.deposits), player, s.deposits[player].amount);
      TotalPart(part, whole);
    }
  }

  /** A refunding session can be closed exactly when every deposit has been returned. */
  lemma {:induction false} ClosableIffAllRefunded(s: Session)
    requires Safe(s) && s.status == Refunding
    ensures ApplyClose(s, s.authority).Ok? <==> forall k :: k in s.deposits ==> s.deposits[k].refunded
  {
    TotalPart(Refunds(s.deposits), Amounts(s.deposits));
    if Refunds(s.deposits) == Amounts(s.deposits) {
      forall k | k in s.deposits ensures s.deposits[k].refunded {
        assert k in Amounts(s.deposits);
        assert k in Refunds(s.deposits);
      }
    }
    if forall k :: k in s.deposits ==> s.deposits[k].refunded {
      assert Refunds(s.deposits) == Amounts(s.deposits);
    }
  }

  /** Before a settlement is committed nobody's deposit can be held past the deadline: anyone starts refunds. */
  lemma {:induction false} DeadlineOpensRefunds(s: Session, caller: Pubkey)
    requires Safe(s) && s.status in {Open, Locked} && s.slot >= s.refundAfter
    ensures ApplyBeginRefund(s, caller).Ok?
    ensures ApplyBeginRefund(s, caller).value.status == Refunding
        && ApplyBeginRefund(s, caller).value.deposits == s.deposits
  {
    assert s.claims == map[] && Refunds(s.deposits) == map[];
  }

  ghost predicate Refundable(s: Session, order: seq<Pubkey>) {
    && (forall k :: 0 <= k < |order| ==> order[k] in s.deposits && !s.deposits[order[k]].refunded)
    && (forall j, k :: 0 <= j < k < |order| ==> order[j] != order[k])
  }

  function RefundCalls(order: seq<Pubkey>): (r: seq<Instruction>)
    ensures |r| == |order|
  {
    seq(|order|, k requires 0 <= k < |order| => ClaimRefund(order[k]))
  }

  /** Refunds succeed in whatever order depositors ask, and the last one lets the authority close. */
  lemma {:induction false} RefundsInAnyOrder(leq: Order, s: Session, order: seq<Pubkey>)
    requires Safe(s) && s.status == Refunding && Refundable(s, order)
    ensures var end := Run(leq, s, RefundCalls(order));
      && Safe(end) && end.status == Refunding && end.authority == s.authority && end.deposits.Keys == s.deposits.Keys
      && (forall k :: 0 <= k < |order| ==> order[k] in end.deposits && end.deposits[order[k]].refunded)
      && (forall k :: k in s.deposits && s.deposits[k].refunded ==> k in end.deposits && end.deposits[k].refunded)
    decreases |order|
  {
    if order != [] {
      var rest := order[1..];
      RefundSucceedsIff(s, order[0]);
      var next := ApplyClaimRefund(s, order[0]).value;
      ApplySafe(leq, s, ClaimRefund(order[0]), next);
      forall k | 0 <= k < |rest| ensures rest[k] in next.deposits && !next.deposits[rest[k]].refunded {
        assert rest[k] == order[k + 1];
      }
      RefundsInAnyOrder(leq, next, rest);
      assert RefundCalls(order)[1..] == RefundCalls(rest);
      var end := Run(leq, s, RefundCalls(order));
      forall k | 0 <= k < |order| ensures order[k] in end.deposits && end.deposits[order[k]].refunded {
        if k > 0 {
          assert order[k] == rest[k - 1];
        }
      }
    }
  }

  lemma {:induction false} AllRefundedThenClosed(leq: Order, s: Session, order: seq<Pubkey>)
    requires Safe(s) && s.status == Refunding && Refundable(s, order)
    requires forall k :: k in s.deposits && !s.deposits[k].refunded ==> k in order
    ensures Apply(leq, Run(leq, s, RefundCalls(order)), CloseSession(s.authority)).Ok?
  {
    RefundsInAnyOrder(leq, s, order);
    var end := Run(leq, s, RefundCalls(order));
    forall k | k in end.deposits ensures end.deposits[k].refunded {
      assert k in s.deposits.Keys;
      if !s.deposits[k].refunded {
        var j :| 0 <= j < |order| && order[j] == k;
      }
    }
    ClosableIffAllRefunded(end);
  }

  ghost predicate Lists(s: Session, order: seq<Pubkey>) {
    && (forall k :: k in s.deposits <==> k in order)
    && (forall j, k :: 0 <= j < k < |order| ==> order[j] != order[k])
  }

  /**
   * Nobody can keep the deposits locked in: once the deadline has passed without a settlement, anyone
   * can open refunds, every depositor then gets the deposit back, in any order, and the session closes.
   */
  lemma {:induction false} NobodyIsLockedIn(leq: Order, s: Session, caller: Pubkey, order: seq<Pubkey>)
    requires Safe(s) && s.status in {Open, Locked} && s.slot >= s.refundAfter && Lists(s, order)
    ensures var end := Run(leq, s, [BeginRefund(caller)] + RefundCalls(order));
      && Safe(end) && end.status == Refunding && end.deposits.Keys == s.deposits.Keys
      && (forall k :: k in s.deposits ==> end.deposits[k].refunded)
      && Apply(leq, end, CloseSession(s.authority)).Ok?
  {
    hide Run, Safe, Apply;
    DeadlineOpensRefunds(s, caller);
    var refunding := ApplyBeginRefund(s, caller).value;
    BeginsRefund(leq, s, caller, refunding);
    var calls := [BeginRefund(caller)] + RefundCalls(order);
    assert calls[1..] == RefundCalls(order);
    RunOne(leq, s, calls, refunding);
    NoneRefunded(s);
    RefundsInAnyOrder(leq, refunding, order);
    AllRefundedThenClosed(leq, refunding, order);
  }

  lemma {:induction false} BeginsRefund(leq: Order, s: Session, caller: Pubkey, s': Session)
    requires Safe(s) && ApplyBeginRefund(s, caller) == Ok(s')
    ensures Apply(leq, s, BeginRefund(caller)) == Ok(s') && Safe(s') && s'.status == Refunding
    ensures s'.deposits == s.deposits && s'.authority == s.authority
  {
    ApplySafe(leq, s, BeginRefund(caller), s');
  }

  lemma {:induction false} RunOne(leq: Order, s: Session, calls: seq<Instruction>, next: Session)
    requires calls != [] && Apply(leq, s, calls[0]) == Ok(next)
    ensures Run(leq, s, calls) == Run(leq, next, calls[1..])
  {
    hide Apply;
  }

  lemma {:induction false} NoneRefunded(s: Session)
    requires Safe(s) && s.status in {Open, Locked}
    ensures forall k :: k in s.deposits ==> !s.deposits[k].refunded
  {
    forall k | k in s.deposits ensures !s.deposits[k].refunded {
      assert k !in Refunds(s.deposits);
    }
  }
}
