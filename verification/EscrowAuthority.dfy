/**
 * Who may do what to a session and when: exactly the accepted instructions, whose signature each change
 * takes, and what nobody can do without the authority.
 */
module EscrowAuthority {
  import opened Wrappers
  import opened SettlementTree
  import opened Escrow

  /** The account that signs an instruction; time and donations take no signature. */
  function SignerOf(i: Instruction): Option<Pubkey> {
    match i
    case Tick(_) => None
    case Donate(_) => None
    case Deposit(player, _, _) => Some(player)
    case LockSession(signer) => Some(signer)
    case CommitSettlement(signer, _, _, _, _) => Some(signer)
    case ClaimPayout(player, _, _) => Some(player)
    case BeginRefund(caller) => Some(caller)
    case ClaimRefund(player) => Some(player)
    case ProposeAuthority(signer, _) => Some(signer)
    case AcceptAuthority(signer) => Some(signer)
    case CloseSession(signer) => Some(signer)
  }

  predicate SignedBy(i: Instruction, key: Pubkey) { SignerOf(i) == Some(key) }

  // ----- Whose signature a change takes -----

  /** The terms of the settlement. */
  ghost predicate SameTerms(s: Session, s': Session) {
    s'.settlementRoot == s.settlementRoot && s'.transcriptRoot == s.transcriptRoot && s'.claimAfter == s.claimAfter
  }

  /**
   * Locking, committing the settlement's terms and closing take the authority's signature; so does a
   * refund of a settling session, and of an open or locked one before the deadline.
   */
  lemma {:induction false} OnlyTheAuthority(leq: Order, s: Session, i: Instruction, s': Session)
    requires Apply(leq, s, i) == Ok(s')
    ensures !SameTerms(s, s') ==> SignedBy(i, s.authority) && s.status == Locked && s'.status == Settling
    ensures s'.status != s.status && s'.status in {Locked, Settling, Closed} ==> SignedBy(i, s.authority)
    ensures s'.status != s.status && s'.status == Refunding && !SignedBy(i, s.authority) ==>
      s.status in {Open, Locked} && s.slot >= s.refundAfter
    ensures s'.pendingAuthority != s.pendingAuthority && s'.pendingAuthority != NOBODY ==> SignedBy(i, s.authority)
    ensures s'.authority != s.authority ==>
      && s.status == Open && SignedBy(i, s.pendingAuthority) && s'.authority == s.pendingAuthority
      && s.pendingAuthority != NOBODY
    ensures i.CommitSettlement? ==>
      s'.settlementRoot == i.root && s'.transcriptRoot == i.transcript && s'.claimAfter == i.claimAfter
    ensures i.ProposeAuthority? ==> s'.pendingAuthority == i.pending
    ensures i.AcceptAuthority? ==> s'.authority == i.signer && s'.pendingAuthority == NOBODY
    ensures s'.key == s.key && s'.refundAfter == s.refundAfter && s.slot <= s'.slot
  {
  }

  /** A session only moves forward: open, locked, settling, then closed, with refunds as the way out. */
  lemma {:induction false} StatusMovesOn(leq: Order, s: Session, i: Instruction, s': Session)
    requires Apply(leq, s, i) == Ok(s') && s'.status != s.status
    ensures s'.status == Locked ==> s.status == Open
    ensures s'.status == Settling ==> s.status == Locked
    ensures s'.status == Refunding ==> s.status in {Open, Locked, Settling}
    ensures s'.status == Closed ==> s.status in {Settling, Refunding}
    ensures s'.status != Open
  {
  }

  /**
   * Nobody else moves a player's money: a deposit, a claim or a refund takes the player's own signature,
   * and what leaves the vault is what the record says, except for the surplus swept on closing.
   */
  lemma {:induction false} OwnMoneyOnly(leq: Order, s: Session, i: Instruction, s': Session, player: Pubkey)
    requires Apply(leq, s, i) == Ok(s')
    ensures DepositOf(s', player) != DepositOf(s, player) ==> SignedBy(i, player)
    ensures (player in s.claims) != (player in s'.claims) ==>
      && SignedBy(i, player) && s.status == Settling && s.slot >= s.claimAfter
      && player in s'.claims && s'.vault == s.vault - s'.claims[player]
    ensures player in s.claims && player in s'.claims ==> s'.claims[player] == s.claims[player]
    ensures DepositOf(s', player).refunded && !DepositOf(s, player).refunded ==>
      && s.status == Refunding && DepositOf(s', player).amount == DepositOf(s, player).amount
      && s'.vault == s.vault - DepositOf(s, player).amount
    ensures DepositOf(s', player).amount != DepositOf(s, player).amount ==>
      && s.status == Open && s.slot < s.refundAfter
      && s'.vault - s.vault == DepositOf(s', player).amount - DepositOf(s, player).amount > 0
    ensures s'.vault < s.vault ==> i.ClaimPayout? || i.ClaimRefund? || (s'.status == Closed && SignedBy(i, s.authority))
  {
    hide Fold;
  }

  // ----- What is accepted -----

  /** The conditions of each instruction, on sound books. */
  ghost predicate Permitted(leq: Order, s: Session, i: Instruction) {
    match i
    case Tick(_) => true
    case Donate(sent) => s.status != Closed && s.vault + sent <= U64_MAX
    case Deposit(player, requested, credited) =>
      && s.status == Open && s.slot < s.refundAfter && 0 < credited <= requested
      && s.vault + credited <= U64_MAX
    case LockSession(signer) =>
      signer == s.authority && s.status == Open && s.slot < s.refundAfter && s.deposits != map[]
    case CommitSettlement(signer, root, transcript, total, claimAfter) =>
      && signer == s.authority && s.status == Locked && s.slot < s.refundAfter
      && root != Unrelated(0) && transcript != Unrelated(0)
      && total == Total(Amounts(s.deposits)) && 9_000 <= claimAfter - s.slot <= 216_000
    case ClaimPayout(player, amount, proof) =>
      && s.status == Settling && s.slot >= s.claimAfter && player !in s.claims && amount > 0 && |proof| <= 32
      && Fold(leq, Leaf(s.key, player, amount), proof) == s.settlementRoot
      && Total(s.claims) + amount <= s.totalDeposited
    case BeginRefund(caller) =>
      && (s.status in {Open, Locked} ==> caller == s.authority || s.slot >= s.refundAfter)
      && (s.status == Settling ==> caller == s.authority && s.slot < s.claimAfter)
      && s.status in {Open, Locked, Settling}
    case ClaimRefund(player) => s.status == Refunding && player in s.deposits && !s.deposits[player].refunded
    case ProposeAuthority(signer, pending) =>
      signer == s.authority && s.status == Open && pending != 0 && pending != s.authority
    case AcceptAuthority(signer) => s.status == Open && signer == s.pendingAuthority && signer != 0
    case CloseSession(signer) =>
      signer == s.authority && s.status in {Settling, Refunding} && s.totalReleased == s.totalDeposited
  }

  lemma {:induction false} VaultCovers(s: Session)
    requires Safe(s) && s.status in {Open, Locked}
    ensures s.totalReleased == 0 && s.totalDeposited <= s.vault
  {
    assert s.claims == map[] && Refunds(s.deposits) == map[];
  }

  lemma {:induction false} NoDepositsNoTotal(s: Session)
    requires Safe(s)
    ensures s.totalDeposited == 0 <==> s.deposits == map[]
  {
    if s.deposits == map[] {
      assert Amounts(s.deposits) == map[];
    } else {
      var k :| k in s.deposits;
      TotalWithout(Amounts(s.deposits), k);
      TotalNotNegative(Amounts(s.deposits) - {k});
    }
  }

  lemma {:induction false} DepositFits(s: Session, player: Pubkey)
    requires Safe(s)
    ensures 0 <= DepositOf(s, player).amount <= s.totalDeposited
  {
    TotalNotNegative(Amounts(s.deposits));
    if player in s.deposits {
      TotalWithout(Amounts(s.deposits), player);
      TotalNotNegative(Amounts(s.deposits) - {player});
    }
  }

  lemma {:induction false} RefundFits(s: Session, player: Pubkey)
    requires Safe(s) && s.status == Refunding && player in s.deposits && !s.deposits[player].refunded
    ensures s.totalReleased + s.deposits[player].amount <= s.totalDeposited
  {
    var amount := s.deposits[player].amount;
    var after := Refunds(s.deposits)[player := amount];
    TotalPut(Refunds(s.deposits), player, amount);
    TotalPart(after, Amounts(s.deposits));
  }

  lemma {:induction false} NothingReleased(s: Session)
    requires Safe(s) && s.status == Settling && s.slot < s.claimAfter
    ensures s.totalReleased == 0
  {
    assert s.claims == map[];
  }

  lemma {:induction false} ReleasedIsClaimed(s: Session)
    requires Safe(s)
    ensures s.status == Settling ==> s.totalReleased == Total(s.claims)
  {
    if s.status == Settling {
      assert Refunds(s.deposits) == map[];
    }
  }

  /** On sound books exactly the permitted instructions are accepted. */
  lemma {:induction false} AcceptedIffPermitted(leq: Order, s: Session, i: Instruction)
    requires Safe(s)
    ensures Apply(leq, s, i).Ok? <==> Permitted(leq, s, i)
  {
    hide Fold, Total;
    match i
    case Deposit(player, requested, credited) =>
      if s.status == Open {
        VaultCovers(s);
        DepositFits(s, player);
      }
    case LockSession(_) => NoDepositsNoTotal(s);
    case ClaimPayout(_, _, _) => ReleasedIsClaimed(s);
    case BeginRefund(_) =>
      if s.status in {Open, Locked} {
        VaultCovers(s);
      } else if s.status == Settling && s.slot < s.claimAfter {
        NothingReleased(s);
      }
    case ClaimRefund(player) =>
      if s.status == Refunding && player in s.deposits && !s.deposits[player].refunded {
        RefundFits(s, player);
      }
    case _ =>
  }

  /** A session opens empty, for an authority that is somebody, with a refund deadline ahead but not too far. */
  lemma {:induction false} OpensEmpty(key: Pubkey, authority: Pubkey, refundAfter: u64, slot: nat)
    ensures Initialize(key, authority, refundAfter, slot).Ok?
      <==> authority != 0 && slot < refundAfter <= slot + 1_512_000
    ensures Initialize(key, authority, refundAfter, slot).Ok? ==>
      var s := Initialize(key, authority, refundAfter, slot).value;
      && Safe(s) && s.status == Open && s.totalDeposited == 0 && s.vault == 0 && s.deposits == map[]
        && s.claims == map[]
      && s.authority == authority && s.pendingAuthority == 0 && s.refundAfter == refundAfter && s.slot == slot
      && s.key == key
  {
    assert Amounts(map[]) == Refunds(map[]) == map[];
  }

  // ----- Runs without the authority -----

  /** No instruction carries the signature. */
  predicate Without(instructions: seq<Instruction>, key: Pubkey) {
    forall k :: 0 <= k < |instructions| ==> !SignedBy(instructions[k], key)
  }

  /** Where a session is that its authority has left alone. */
  ghost predicate LeftAlone(s: Session, e: Session) {
    && e.authority == s.authority && e.pendingAuthority == s.pendingAuthority && SameTerms(s, e)
    && e.refundAfter == s.refundAfter && e.slot >= s.slot && e.claims == map[]
    && (e.status == s.status || (e.status == Refunding && e.slot >= e.refundAfter))
  }

  lemma {:induction false} StepLeftAlone(leq: Order, s: Session, e: Session, i: Instruction)
    requires s.status in {Open, Locked} && LeftAlone(s, e) && Safe(e)
    requires !SignedBy(i, s.authority) && !SignedBy(i, s.pendingAuthority)
    ensures LeftAlone(s, After(leq, e, i))
  {
    hide Fold, Safe;
    if Apply(leq, e, i).Ok? {
      var e' := Apply(leq, e, i).value;
      OnlyTheAuthority(leq, e, i, e');
    }
  }

  lemma {:induction false} RunLeftAlone(leq: Order, s: Session, e: Session, instructions: seq<Instruction>)
    requires s.status in {Open, Locked} && LeftAlone(s, e) && Safe(e)
    requires Without(instructions, s.authority) && Without(instructions, s.pendingAuthority)
    ensures LeftAlone(s, Run(leq, e, instructions)) && Safe(Run(leq, e, instructions))
    decreases |instructions|
  {
    hide Safe, LeftAlone, Apply;
    if instructions != [] {
      StepLeftAlone(leq, s, e, instructions[0]);
      if Apply(leq, e, instructions[0]).Ok? {
        ApplySafe(leq, e, instructions[0], Apply(leq, e, instructions[0]).value);
      }
      RunLeftAlone(leq, s, After(leq, e, instructions[0]), instructions[1..]);
    }
  }

  /**
   * Without its authority, or the one proposed as such, a session does nothing but take deposits and,
   * past the deadline, return them: whatever is submitted, it is never locked, settled or closed, its
   * terms stay, no claim is ever paid, and refunds start no earlier than the deadline.
   */
  lemma {:induction false} NothingWithoutTheAuthority(leq: Order, s: Session, instructions: seq<Instruction>)
    requires Safe(s) && s.status in {Open, Locked}
    requires Without(instructions, s.authority) && Without(instructions, s.pendingAuthority)
    ensures var end := Run(leq, s, instructions);
      && Safe(end) && end.authority == s.authority && SameTerms(s, end) && end.claims == map[]
      && (end.status == s.status || (end.status == Refunding && end.slot >= end.refundAfter == s.refundAfter))
  {
    hide Safe, Run;
    NoClaimsYet(s);
    RunLeftAlone(leq, s, s, instructions);
  }

  lemma {:induction false} NoClaimsYet(s: Session)
    requires Safe(s) && s.status in {Open, Locked}
    ensures s.claims == map[]
  {
  }

  /** The authority passes on only by proposal and acceptance: any other key leaves it where it is. */
  lemma {:induction false} AuthorityPassesOn(leq: Order, s: Session, instructions: seq<Instruction>)
    requires Without(instructions, s.authority) && Without(instructions, s.pendingAuthority)
    ensures Run(leq, s, instructions).authority == s.authority
    ensures Run(leq, s, instructions).pendingAuthority == s.pendingAuthority
    decreases |instructions|
  {
    hide Apply;
    if instructions != [] {
      var i := instructions[0];
      if Apply(leq, s, i).Ok? {
        OnlyTheAuthority(leq, s, i, Apply(leq, s, i).value);
        NotAccepted(leq, s, i);
      }
      AuthorityPassesOn(leq, After(leq, s, i), instructions[1..]);
    }
  }

  lemma {:induction false} NotAccepted(leq: Order, s: Session, i: Instruction)
    requires Apply(leq, s, i).Ok? && !SignedBy(i, s.pendingAuthority)
    ensures Apply(leq, s, i).value.pendingAuthority == NOBODY ==> s.pendingAuthority == NOBODY
  {
    hide Fold;
  }
}
