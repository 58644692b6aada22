/** The escrow program as it runs: checks first, then fields of the session and records in place. */
module EscrowMachine {
  import opened Wrappers
  import opened SettlementTree
  import opened Escrow

  class EscrowAccounts {
    const key: Pubkey
    const refundAfter: int
    var authority: Pubkey
    var pendingAuthority: Pubkey
    var settlementRoot: Digest
    var transcriptRoot: Digest
    var totalDeposited: int
    var totalReleased: int
    var claimAfter: int
    var status: Status
    var deposits: map<Pubkey, DepositRecord>
    var claims: map<Pubkey, int>
    var vault: int
    var slot: int

    function View(): Session
      reads this
    {
      Session(key, authority, pendingAuthority, settlementRoot, transcriptRoot, totalDeposited, totalReleased,
              refundAfter, claimAfter, status, deposits, claims, vault, slot)
    }

    /** The session an outcome leaves behind: the one computed, or, on an error, the one before. */
    static function Left(before: Session, outcome: Result<Session, EscrowError>): Session {
      if outcome.Ok? then outcome.value else before
    }

    static function Verdict(outcome: Result<Session, EscrowError>): Option<EscrowError> {
      if outcome.Ok? then None else Some(outcome.error)
    }

    /** The account of an accepted request; a rejected one creates none. */
    constructor (sessionKey: Pubkey, owner: Pubkey, refundAfterSlot: u64, currentSlot: nat)
      requires Initialize(sessionKey, owner, refundAfterSlot, currentSlot).Ok?
      ensures View() == Initialize(sessionKey, owner, refundAfterSlot, currentSlot).value
      ensures Safe(View())
    {
      key, refundAfter := sessionKey, refundAfterSlot;
      authority, pendingAuthority := owner, NOBODY;
      settlementRoot, transcriptRoot := NO_ROOT, NO_ROOT;
      totalDeposited, totalReleased := 0, 0;
      claimAfter := 0;
      status := Open;
      deposits, claims := map[], map[];
      vault, slot := 0, currentSlot;
    }

    /** The transfer credits the vault; what it credits is read off the balance, not off the request. */
    method Deposit(player: Pubkey, requested: u64, credited: u64) returns (error: Option<EscrowError>)
      requires Safe(View())
      modifies this
      ensures View() == Left(old(View()), ApplyDeposit(old(View()), player, requested, credited))
      ensures error == Verdict(ApplyDeposit(old(View()), player, requested, credited))
      ensures Safe(View())
    {
      if requested == 0 { return Some(EscrowError.InvalidAmount); }
      if status != Open { return Some(InvalidStatus); }
      if slot >= refundAfter { return Some(RefundDeadlineReached); }
      var balanceBefore := vault;
      if credited > requested || vault + credited > U64_MAX { return Some(TransferFailed); }
      var balanceAfter := balanceBefore + credited;
      var creditedAmount := balanceAfter - balanceBefore;
      if creditedAmount == 0 { return Some(ZeroCredit); }
      var record := if player in deposits then deposits[player] else DepositRecord(0, false);
      if record.amount + creditedAmount > U64_MAX { return Some(ArithmeticOverflow); }
      if totalDeposited + creditedAmount > U64_MAX { return Some(ArithmeticOverflow); }
      ghost var outcome := ApplyDeposit(View(), player, requested, credited);
      DepositSafe(View(), player, requested, credited, outcome.value);
      vault := balanceAfter;
      deposits := deposits[player := record.(amount := record.amount + creditedAmount)];
      totalDeposited := totalDeposited + creditedAmount;
      assert View() == outcome.value;
      return None;
    }

    method LockSession(signer: Pubkey) returns (error: Option<EscrowError>)
      requires Safe(View())
      modifies this
      ensures View() == Left(old(View()), ApplyLock(old(View()), signer))
      ensures error == Verdict(ApplyLock(old(View()), signer)) && Safe(View())
    {
      if signer != authority { return Some(NotAuthority); }
      if status != Open { return Some(InvalidStatus); }
      if slot >= refundAfter { return Some(RefundDeadlineReached); }
      if totalDeposited == 0 { return Some(EmptySession); }
      status := Locked;
      return None;
    }

    method CommitSettlement(signer: Pubkey, root: Digest, transcript: Digest, totalPayout: u64, claimAfterSlot: u64)
      returns (error: Option<EscrowError>)
      requires Safe(View())
      modifies this
      ensures View()
          == Left(old(View()), ApplyCommit(old(View()), signer, root, transcript, totalPayout, claimAfterSlot))
      ensures error == Verdict(ApplyCommit(old(View()), signer, root, transcript, totalPayout, claimAfterSlot))
      ensures Safe(View())
    {
      if signer != authority { return Some(NotAuthority); }
      if status != Locked { return Some(InvalidStatus); }
      if root == NO_ROOT { return Some(InvalidRoot); }
      if transcript == NO_ROOT { return Some(InvalidRoot); }
      if totalPayout != totalDeposited { return Some(SettlementDoesNotConserve); }
      if slot >= refundAfter { return Some(RefundDeadlineReached); }
      if claimAfterSlot < slot { return Some(InvalidClaimDeadline); }
      var claimDelay := claimAfterSlot - slot;
      if claimDelay < MIN_CLAIM_DELAY || claimDelay > MAX_CLAIM_DELAY { return Some(InvalidClaimDeadline); }
      settlementRoot := root;
      transcriptRoot := transcript;
      claimAfter := claimAfterSlot;
      status := Settling;
      return None;
    }

    /** The proof check is the loop over the sorted pairs; the record is written before the transfer. */
    method ClaimPayout(leq: Order, player: Pubkey, amount: u64, proof: seq<Digest>) returns (error: Option<EscrowError>)
      requires Safe(View())
      modifies this
      ensures View() == Left(old(View()), ApplyClaim(leq, old(View()), player, amount, proof))
      ensures error == Verdict(ApplyClaim(leq, old(View()), player, amount, proof)) && Safe(View())
    {
      if player in claims { return Some(AlreadyClaimed); }
      if status != Settling { return Some(InvalidStatus); }
      if amount == 0 { return Some(EscrowError.InvalidAmount); }
      if |proof| > MAX_PROOF { return Some(ProofTooDeep); }
      if slot < claimAfter { return Some(ClaimWindowNotOpen); }
      var valid := VerifySortedMerkleProof(leq, Leaf(key, player, amount), proof, settlementRoot);
      if !valid { return Some(InvalidProof); }
      var newTotalReleased := totalReleased + amount;
      if newTotalReleased > U64_MAX { return Some(ArithmeticOverflow); }
      if newTotalReleased > totalDeposited { return Some(SettlementDoesNotConserve); }
      if amount > vault { return Some(TransferFailed); }
      ghost var outcome := ApplyClaim(leq, View(), player, amount, proof);
      ClaimSafe(leq, View(), player, amount, proof, outcome.value);
      claims := claims[player := amount];
      vault := vault - amount;
      totalReleased := newTotalReleased;
      assert View() == outcome.value;
      return None;
    }

    method BeginRefund(caller: Pubkey) returns (error: Option<EscrowError>)
      requires Safe(View())
      modifies this
      ensures View() == Left(old(View()), ApplyBeginRefund(old(View()), caller))
      ensures error == Verdict(ApplyBeginRefund(old(View()), caller)) && Safe(View())
    {
      var isAuthority := caller == authority;
      var allowed: bool;
      match status {
        case Open => allowed := isAuthority || slot >= refundAfter;
        case Locked => allowed := isAuthority || slot >= refundAfter;
        case Settling => allowed := isAuthority && slot < claimAfter;
        case Refunding => return Some(AlreadyRefunding);
        case Closed => return Some(InvalidStatus);
      }
      if !allowed { return Some(RefundNotAvailable); }
      if totalReleased != 0 { return Some(PayoutAlreadyReleased); }
      BeginRefundSafe(View(), caller, View().(status := Refunding));
      status := Refunding;
      return None;
    }

    method ClaimRefund(player: Pubkey) returns (error: Option<EscrowError>)
      requires Safe(View())
      modifies this
      ensures View() == Left(old(View()), ApplyClaimRefund(old(View()), player))
      ensures error == Verdict(ApplyClaimRefund(old(View()), player)) && Safe(View())
    {
      if player !in deposits { return Some(NoDeposit); }
      if status != Refunding { return Some(InvalidStatus); }
      if deposits[player].refunded { return Some(AlreadyRefunded); }
      var amount := deposits[player].amount;
      if amount <= 0 { return Some(EscrowError.InvalidAmount); }
      var newTotalReleased := totalReleased + amount;
      if newTotalReleased > U64_MAX { return Some(ArithmeticOverflow); }
      if newTotalReleased > totalDeposited { return Some(SettlementDoesNotConserve); }
      if amount > vault { return Some(TransferFailed); }
      ghost var outcome := ApplyClaimRefund(View(), player);
      ClaimRefundSafe(View(), player, outcome.value);
      vault := vault - amount;
      deposits := deposits[player := deposits[player].(refunded := true)];
      totalReleased := newTotalReleased;
      assert View() == outcome.value;
      return None;
    }

    method ProposeAuthority(signer: Pubkey, pending: Pubkey) returns (error: Option<EscrowError>)
      requires Safe(View())
      modifies this
      ensures View() == Left(old(View()), ApplyPropose(old(View()), signer, pending))
      ensures error == Verdict(ApplyPropose(old(View()), signer, pending)) && Safe(View())
    {
      if signer != authority { return Some(NotAuthority); }
      if pending == NOBODY || pending == authority { return Some(InvalidAuthority); }
      if status != Open { return Some(InvalidStatus); }
      pendingAuthority := pending;
      return None;
    }

    method AcceptAuthority(signer: Pubkey) returns (error: Option<EscrowError>)
      requires Safe(View())
      modifies this
      ensures View() == Left(old(View()), ApplyAccept(old(View()), signer))
      ensures error == Verdict(ApplyAccept(old(View()), signer)) && Safe(View())
    {
      if status != Open { return Some(InvalidStatus); }
      if signer == NOBODY || pendingAuthority != signer { return Some(InvalidAuthority); }
      authority := signer;
      pendingAuthority := NOBODY;
      return None;
    }

    method CloseSession(signer: Pubkey) returns (error: Option<EscrowError>)
      requires Safe(View())
      modifies this
      ensures View() == Left(old(View()), ApplyClose(old(View()), signer))
      ensures error == Verdict(ApplyClose(old(View()), signer)) && Safe(View())
    {
      if signer != authority { return Some(NotAuthority); }
      if status != Settling && status != Refunding { return Some(InvalidStatus); }
      if totalReleased != totalDeposited { return Some(SessionNotEmpty); }
      var surplus := vault;
      if surplus > 0 {
        vault := vault - surplus;
      }
      if vault != 0 { return Some(SessionNotEmpty); }
      status := Closed;
      return None;
    }
  }
}
