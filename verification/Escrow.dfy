/**
 * The on-chain escrow of one session (settlement/programs/xpoker_escrow/src/lib.rs) as a state machine:
 * what each instruction checks and changes. The token transfers it makes are its vault balance; a mint
 * may withhold a fee from a deposit, and anyone may send tokens to the vault.
 */
module Escrow {
  import opened Wrappers
  import opened SettlementTree

  type u64 = x: int | 0 <= x <= U64_MAX

  const MAX_REFUND_DELAY := 1_512_000
  const MIN_CLAIM_DELAY := 9_000
  const MAX_CLAIM_DELAY := 216_000

  /** The default key signs nothing and the zero root commits to nothing. */
  const NOBODY: Pubkey := 0
  const NO_ROOT := Unrelated(0)

  datatype Status = Open | Locked | Settling | Refunding | Closed

  datatype DepositRecord = DepositRecord(amount: int, refunded: bool)

  datatype Session = Session(
    key: Pubkey,
    authority: Pubkey,
    pendingAuthority: Pubkey,
    settlementRoot: Digest,
    transcriptRoot: Digest,
    totalDeposited: int,
    totalReleased: int,
    refundAfter: int,
    claimAfter: int,
    status: Status,
    deposits: map<Pubkey, DepositRecord>,
    claims: map<Pubkey, int>,
    vault: int,
    slot: int)

  datatype EscrowError =
    | InvalidStatus | InvalidAuthority | InvalidRefundDeadline | RefundDeadlineReached | InvalidClaimDeadline
    | InvalidAmount | ZeroCredit | ArithmeticOverflow | EmptySession | InvalidRoot | SettlementDoesNotConserve
    | ClaimWindowNotOpen | InvalidProof | ProofTooDeep | AlreadyRefunding | RefundNotAvailable
    | PayoutAlreadyReleased | AlreadyRefunded | SessionNotEmpty | NotAuthority | NoDeposit | AlreadyClaimed
    | TransferFailed

  datatype Instruction =
    | Tick(slots: nat)
    | Donate(sent: u64)
    | Deposit(player: Pubkey, requested: u64, credited: u64)
    | LockSession(signer: Pubkey)
    | CommitSettlement(signer: Pubkey, root: Digest, transcript: Digest, totalPayout: u64, claimAfter: u64)
    | ClaimPayout(player: Pubkey, amount: u64, proof: seq<Digest>)
    | BeginRefund(caller: Pubkey)
    | ClaimRefund(player: Pubkey)
    | ProposeAuthority(signer: Pubkey, pending: Pubkey)
    | AcceptAuthority(signer: Pubkey)
    | CloseSession(signer: Pubkey)

  function Initialize(key: Pubkey, authority: Pubkey, refundAfter: u64, slot: nat): Result<Session, EscrowError> {
    if authority == NOBODY then Err(InvalidAuthority)
    else if !(refundAfter > slot && refundAfter - slot <= MAX_REFUND_DELAY) then Err(InvalidRefundDeadline)
    else Ok(Session(key, authority, NOBODY, NO_ROOT, NO_ROOT, 0, 0, refundAfter, 0, Open, map[], map[], 0, slot))
  }

  function DepositOf(s: Session, player: Pubkey): DepositRecord {
    if player in s.deposits then s.deposits[player] else DepositRecord(0, false)
  }

  function ApplyDeposit(s: Session, player: Pubkey, requested: u64, credited: u64): Result<Session, EscrowError> {
    if requested == 0 then Err(EscrowError.InvalidAmount)
    else if s.status != Open then Err(InvalidStatus)
    else if s.slot >= s.refundAfter then Err(RefundDeadlineReached)
    else if credited > requested || s.vault + credited > U64_MAX then Err(TransferFailed)
    else if credited == 0 then Err(ZeroCredit)
    else
      var record := DepositOf(s, player);
      if record.amount + credited > U64_MAX || s.totalDeposited + credited > U64_MAX then Err(ArithmeticOverflow)
      else Ok(s.(deposits := s.deposits[player := record.(amount := record.amount + credited)],
                 totalDeposited := s.totalDeposited + credited,
                 vault := s.vault + credited))
  }

  function ApplyLock(s: Session, signer: Pubkey): Result<Session, EscrowError> {
    if signer != s.authority then Err(NotAuthority)
    else if s.status != Open then Err(InvalidStatus)
    else if s.slot >= s.refundAfter then Err(RefundDeadlineReached)
    else if s.totalDeposited == 0 then Err(EmptySession)
    else Ok(s.(status := Locked))
  }

  function ApplyCommit(s: Session, signer: Pubkey, root: Digest, transcript: Digest, totalPayout: u64, claimAfter: u64)
    : Result<Session, EscrowError>
  {
    if signer != s.authority then Err(NotAuthority)
    else if s.status != Locked then Err(InvalidStatus)
    else if root == NO_ROOT || transcript == NO_ROOT then Err(InvalidRoot)
    else if totalPayout != s.totalDeposited then Err(SettlementDoesNotConserve)
    else if s.slot >= s.refundAfter then Err(RefundDeadlineReached)
    else if !(MIN_CLAIM_DELAY <= claimAfter - s.slot <= MAX_CLAIM_DELAY) then Err(InvalidClaimDeadline)
    else Ok(s.(settlementRoot := root, transcriptRoot := transcript, claimAfter := claimAfter, status := Settling))
  }

  function ApplyClaim(leq: Order, s: Session, player: Pubkey, amount: u64,
      proof: seq<Digest>): Result<Session, EscrowError> {
    if player in s.claims then Err(AlreadyClaimed)
    else if s.status != Settling then Err(InvalidStatus)
    else if amount == 0 then Err(EscrowError.InvalidAmount)
    else if |proof| > MAX_PROOF then Err(ProofTooDeep)
    else if s.slot < s.claimAfter then Err(ClaimWindowNotOpen)
    else if Fold(leq, Leaf(s.key, player, amount), proof) != s.settlementRoot then Err(InvalidProof)
    else if s.totalReleased + amount > U64_MAX then Err(ArithmeticOverflow)
    else if s.totalReleased + amount > s.totalDeposited then Err(SettlementDoesNotConserve)
    else if amount > s.vault then Err(TransferFailed)
    else Ok(s.(claims := s.claims[player := amount], totalReleased := s.totalReleased + amount,
      vault := s.vault - amount))
  }

  function ApplyBeginRefund(s: Session, caller: Pubkey): Result<Session, EscrowError> {
    if s.status == Closed then Err(InvalidStatus)
    else if s.status == Refunding then Err(AlreadyRefunding)
    else if s.status == Settling && !(caller == s.authority && s.slot < s.claimAfter) then Err(RefundNotAvailable)
    else if s.status != Settling && !(caller == s.authority || s.slot >= s.refundAfter) then Err(RefundNotAvailable)
    else if s.totalReleased != 0 then Err(PayoutAlreadyReleased)
    else Ok(s.(status := Refunding))
  }

  function ApplyClaimRefund(s: Session, player: Pubkey): Result<Session, EscrowError> {
    if player !in s.deposits then Err(NoDeposit)
    else if s.status != Refunding then Err(InvalidStatus)
    else if s.deposits[player].refunded then Err(AlreadyRefunded)
    else
      var amount := s.deposits[player].amount;
      if amount <= 0 then Err(EscrowError.InvalidAmount)
      else if s.totalReleased + amount > U64_MAX then Err(ArithmeticOverflow)
      else if s.totalReleased + amount > s.totalDeposited then Err(SettlementDoesNotConserve)
      else if amount > s.vault then Err(TransferFailed)
      else Ok(s.(deposits := s.deposits[player := DepositRecord(amount, true)],
                 totalReleased := s.totalReleased + amount,
                 vault := s.vault - amount))
  }

  function ApplyPropose(s: Session, signer: Pubkey, pending: Pubkey): Result<Session, EscrowError> {
    if signer != s.authority then Err(NotAuthority)
    else if pending == NOBODY || pending == s.authority then Err(InvalidAuthority)
    else if s.status != Open then Err(InvalidStatus)
    else Ok(s.(pendingAuthority := pending))
  }

  function ApplyAccept(s: Session, signer: Pubkey): Result<Session, EscrowError> {
    if s.status != Open then Err(InvalidStatus)
    else if signer == NOBODY || s.pendingAuthority != signer then Err(InvalidAuthority)
    else Ok(s.(authority := signer, pendingAuthority := NOBODY))
  }

  /** Closing sweeps whatever the vault holds beyond the deposits to the authority. */
  function ApplyClose(s: Session, signer: Pubkey): Result<Session, EscrowError> {
    if signer != s.authority then Err(NotAuthority)
    else if s.status != Settling && s.status != Refunding then Err(InvalidStatus)
    else if s.totalReleased != s.totalDeposited then Err(SessionNotEmpty)
    else Ok(s.(vault := 0, status := Closed))
  }

  function Apply(leq: Order, s: Session, i: Instruction): Result<Session, EscrowError> {
    match i
    case Tick(slots) => Ok(s.(slot := s.slot + slots))
    case Donate(sent) =>
      if s.status == Closed || s.vault + sent > U64_MAX then Err(TransferFailed) else Ok(s.(vault := s.vault + sent))
    case Deposit(player, requested, credited) => ApplyDeposit(s, player, requested, credited)
    case LockSession(signer) => ApplyLock(s, signer)
    case CommitSettlement(signer, root, transcript, total, claimAfter) =>
      ApplyCommit(s, signer, root, transcript, total, claimAfter)
    case ClaimPayout(player, amount, proof) => ApplyClaim(leq, s, player, amount, proof)
    case BeginRefund(caller) => ApplyBeginRefund(s, caller)
    case ClaimRefund(player) => ApplyClaimRefund(s, player)
    case ProposeAuthority(signer, pending) => ApplyPropose(s, signer, pending)
    case AcceptAuthority(signer) => ApplyAccept(s, signer)
    case CloseSession(signer) => ApplyClose(s, signer)
  }

  /** A rejected instruction leaves every account as it was. */
  function After(leq: Order, s: Session, i: Instruction): Session {
    match Apply(leq, s, i)
    case Ok(next) => next
    case Err(_) => s
  }

  function Run(leq: Order, s: Session, instructions: seq<Instruction>): Session
    decreases |instructions|
  {
    if instructions == [] then s else Run(leq, After(leq, s, instructions[0]), instructions[1..])
  }

  // ----- Totals over records -----

  ghost function Total(m: map<Pubkey, int>): int {
    if m == map[] then 0
    else
      var k :| k in m;
      m[k] + Total(m - {k})
  }

  lemma {:induction false} TotalWithout(m: map<Pubkey, int>, k: Pubkey)
    requires k in m
    ensures Total(m) == m[k] + Total(m - {k})
    decreases |m|
  {
    var picked :| picked in m && Total(m) == m[picked] + Total(m - {picked});
    if picked != k {
      TotalWithout(m - {picked}, k);
      TotalWithout(m - {k}, picked);
      assert m - {picked} - {k} == m - {k} - {picked};
    }
  }

  lemma {:induction false} TotalPut(m: map<Pubkey, int>, k: Pubkey, v: int)
    ensures Total(m[k := v]) == Total(m) - (if k in m then m[k] else 0) + v
  {
    TotalWithout(m[k := v], k);
    if k in m {
      TotalWithout(m, k);
      assert m[k := v] - {k} == m - {k};
    } else {
      assert m[k := v] - {k} == m;
    }
  }

  lemma {:induction false} TotalNotNegative(m: map<Pubkey, int>)
    requires forall k :: k in m ==> m[k] >= 0
    ensures Total(m) >= 0
    decreases |m|
  {
    if m != map[] {
      var k :| k in m;
      TotalWithout(m, k);
      TotalNotNegative(m - {k});
    }
  }

  /** Part of the entries adds up to no more than all of them, and to as much only with all. */
  lemma {:induction false} TotalPart(part: map<Pubkey, int>, whole: map<Pubkey, int>)
    requires forall k :: k in part ==> k in whole && whole[k] == part[k]
    requires forall k :: k in whole ==> whole[k] > 0
    ensures Total(part) <= Total(whole)
    ensures Total(part) == Total(whole) <==> part == whole
    decreases |part|
  {
    if part == map[] {
      if whole != map[] {
        var k :| k in whole;
        TotalWithout(whole, k);
        TotalNotNegative(whole - {k});
      }
    } else {
      var k :| k in part;
      TotalWithout(part, k);
      TotalWithout(whole, k);
      TotalPart(part - {k}, whole - {k});
      assert part == (part - {k})[k := part[k]] && whole == (whole - {k})[k := whole[k]];
    }
  }

  function Amounts(deposits: map<Pubkey, DepositRecord>): map<Pubkey, int> {
    map k | k in deposits :: deposits[k].amount
  }

  function Refunds(deposits: map<Pubkey, DepositRecord>): map<Pubkey, int> {
    map k | k in deposits && deposits[k].refunded :: deposits[k].amount
  }

  lemma {:induction false} AmountsPut(deposits: map<Pubkey, DepositRecord>, player: Pubkey, r: DepositRecord)
    ensures Amounts(deposits[player := r]) == Amounts(deposits)[player := r.amount]
    ensures r.refunded ==> Refunds(deposits[player := r]) == Refunds(deposits)[player := r.amount]
    ensures !r.refunded && (player in deposits ==> !deposits[player].refunded) ==>
      Refunds(deposits[player := r]) == Refunds(deposits)
  {
  }

  // ----- Safety -----

  /**
   * The books balance: deposits add up to the total, releases are the claims or the refunds made, and
   * the vault covers what is still owed.
   */
  ghost predicate Balanced(s: Session) {
    && s.totalDeposited == Total(Amounts(s.deposits))
    && (forall k :: k in s.deposits ==> s.deposits[k].amount > 0)
    && (forall k :: k in s.claims ==> s.claims[k] > 0)
    && 0 <= s.totalReleased <= s.totalDeposited <= U64_MAX
    && (s.status != Closed ==> s.vault >= s.totalDeposited - s.totalReleased)
    && 0 <= s.vault <= U64_MAX
    && s.totalReleased == Total(s.claims) + Total(Refunds(s.deposits))
  }

  /** Claims and refunds exclude each other, and each belongs to its own phase. */
  ghost predicate OneWayOut(s: Session) {
    && (s.claims == map[] || Refunds(s.deposits) == map[])
    && (s.status in {Open, Locked} ==> s.claims == map[] && Refunds(s.deposits) == map[])
    && (s.status == Settling ==> Refunds(s.deposits) == map[])
    && (s.status == Refunding ==> s.claims == map[])
    && (s.claims != map[] ==> s.slot >= s.claimAfter && s.totalReleased > 0)
    && s.authority != NOBODY
  }

  ghost predicate Safe(s: Session) { Balanced(s) && OneWayOut(s) }

  lemma {:induction false} DepositSafe(s: Session, player: Pubkey, requested: u64, credited: u64, s': Session)
    requires Safe(s) && ApplyDeposit(s, player, requested, credited) == Ok(s')
    ensures Safe(s')
  {
    hide Total;
    var record := DepositOf(s, player);
    assert player in s.deposits && s.deposits[player].refunded ==> player in Refunds(s.deposits);
    AmountsPut(s.deposits, player, record.(amount := record.amount + credited));
    TotalPut(Amounts(s.deposits), player, record.amount + credited);
  }

  lemma {:induction false} ClaimSafe(leq: Order, s: Session, player: Pubkey, amount: u64, proof: seq<Digest>,
      s': Session)
    requires Safe(s) && ApplyClaim(leq, s, player, amount, proof) == Ok(s')
    ensures Safe(s')
  {
    TotalPut(s.claims, player, amount);
  }

  lemma {:induction false} ClaimRefundSafe(s: Session, player: Pubkey, s': Session)
    requires Safe(s) && ApplyClaimRefund(s, player) == Ok(s')
    ensures Safe(s')
  {
    var amount := s.deposits[player].amount;
    AmountsPut(s.deposits, player, DepositRecord(amount, true));
    TotalPut(Amounts(s.deposits), player, amount);
    TotalPut(Refunds(s.deposits), player, amount);
  }

  lemma {:induction false} BeginRefundSafe(s: Session, caller: Pubkey, s': Session)
    requires Safe(s) && ApplyBeginRefund(s, caller) == Ok(s')
    ensures Safe(s')
  {
    assert s.claims == map[];
  }

  lemma {:induction false} ApplySafe(leq: Order, s: Session, i: Instruction, s': Session)
    requires Safe(s) && Apply(leq, s, i) == Ok(s')
    ensures Safe(s')
  {
    match i
    case Deposit(player, requested, credited) => DepositSafe(s, player, requested, credited, s');
    case ClaimPayout(player, amount, proof) => ClaimSafe(leq, s, player, amount, proof, s');
    case BeginRefund(caller) => BeginRefundSafe(s, caller, s');
    case ClaimRefund(player) => ClaimRefundSafe(s, player, s');
    case _ =>
  }

  lemma {:induction false} RunSafe(leq: Order, s: Session, instructions: seq<Instruction>)
    requires Safe(s)
    ensures Safe(Run(leq, s, instructions))
    decreases |instructions|
  {
    if instructions != [] {
      match Apply(leq, s, instructions[0]) {
        case Ok(next) => ApplySafe(leq, s, instructions[0], next);
        case Err(_) =>
      }
      RunSafe(leq, After(leq, s, instructions[0]), instructions[1..]);
    }
  }

  /**
   * Safety over the whole life of a session, whatever anyone submits: the totals are the sums of the
   * records, the vault covers the difference, and no session ever pays both a claim and a refund.
   */
  lemma {:induction false} SessionsAreSafe(leq: Order, key: Pubkey, authority: Pubkey, refundAfter: u64, slot: nat,
      instructions: seq<Instruction>)
    requires Initialize(key, authority, refundAfter, slot).Ok?
    ensures Safe(Run(leq, Initialize(key, authority, refundAfter, slot).value, instructions))
  {
    RunSafe(leq, Initialize(key, authority, refundAfter, slot).value, instructions);
  }
}
