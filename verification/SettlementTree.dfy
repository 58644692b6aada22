/**
 * The payout Merkle tree of server/settlement/merkle.js and the proof check of the on-chain escrow
 * (settlement/programs/xpoker_escrow/src/lib.rs). SHA-256 is idealised as an injective constructor per
 * domain; how digests compare as bytes is an arbitrary total order.
 */
module SettlementTree {
  import opened Wrappers
  import opened Seqs
  import Seats

  type Pubkey = nat

  const U64_MAX := 0xFFFF_FFFF_FFFF_FFFF
  const MAX_PROOF := 32

  datatype Digest =
    | Leaf(session: Pubkey, player: Pubkey, amount: int)
    | Node(left: Digest, right: Digest)
    | Unrelated(bytes: nat)

  type Order = (Digest, Digest) -> bool

  ghost predicate TotalOrder(leq: Order) {
    && (forall a, b :: leq(a, b) || leq(b, a))
    && (forall a, b :: leq(a, b) && leq(b, a) ==> a == b)
  }

  /** The parent of two nodes does not depend on which is given first. */
  function HashNode(leq: Order, first: Digest, second: Digest): Digest {
    if leq(first, second) then Node(first, second) else Node(second, first)
  }

  lemma {:induction false} NodesCommute(leq: Order, a: Digest, b: Digest)
    requires TotalOrder(leq)
    ensures HashNode(leq, a, b) == HashNode(leq, b, a)
  {
    assert leq(a, b) || leq(b, a);
  }

  // ----- The tree -----

  /** The level above: neighbours are paired, an odd last node is promoted unchanged. */
  function Above(leq: Order, level: seq<Digest>): (r: seq<Digest>)
    ensures |r| == (|level| + 1) / 2
  {
    seq((|level| + 1) / 2, i requires 0 <= i < (|level| + 1) / 2 =>
      if 2 * i + 1 < |level| then HashNode(leq, level[2 * i], level[2 * i + 1]) else level[2 * i])
  }

  function Root(leq: Order, level: seq<Digest>): Digest
    requires level != []
    decreases |level|
  {
    if |level| == 1 then level[0] else Root(leq, Above(leq, level))
  }

  /** The siblings met on the way up; a promoted node meets none. */
  function Siblings(level: seq<Digest>, k: nat): (r: seq<Digest>)
    requires k < |level|
    ensures |r| <= 1
  {
    if k % 2 == 1 then [level[k - 1]] else if k + 1 < |level| then [level[k + 1]] else []
  }

  function Proof(leq: Order, level: seq<Digest>, k: nat): seq<Digest>
    requires k < |level|
    decreases |level|
  {
    if |level| == 1 then [] else Siblings(level, k) + Proof(leq, Above(leq, level), k / 2)
  }

  function Fold(leq: Order, current: Digest, proof: seq<Digest>): Digest
    decreases |proof|
  {
    if proof == [] then current else Fold(leq, HashNode(leq, current, proof[0]), proof[1..])
  }

  lemma {:induction false} FoldConcat(leq: Order, current: Digest, a: seq<Digest>, b: seq<Digest>)
    ensures Fold(leq, current, a + b) == Fold(leq, Fold(leq, current, a), b)
    decreases |a|
  {
    if a == [] {
      assert a + b == b;
    } else {
      assert (a + b)[1..] == a[1..] + b;
      FoldConcat(leq, HashNode(leq, current, a[0]), a[1..], b);
    }
  }

  lemma {:induction false} SiblingsClimb(leq: Order, level: seq<Digest>, k: nat)
    requires TotalOrder(leq) && k < |level|
    ensures k / 2 < |Above(leq, level)| && Fold(leq, level[k], Siblings(level, k)) == Above(leq, level)[k / 2]
  {
    if k % 2 == 1 {
      assert k == 2 * (k / 2) + 1;
      NodesCommute(leq, level[k], level[k - 1]);
      assert [level[k - 1]][1..] == [];
    } else {
      assert k == 2 * (k / 2);
      if k + 1 < |level| {
        assert [level[k + 1]][1..] == [];
      }
    }
  }

  /** Completeness: every leaf's proof folds to the root, promoted odd nodes included. */
  lemma {:induction false} ProofFoldsToRoot(leq: Order, level: seq<Digest>, k: nat)
    requires TotalOrder(leq) && k < |level|
    ensures Fold(leq, level[k], Proof(leq, level, k)) == Root(leq, level)
    decreases |level|
  {
    if |level| > 1 {
      SiblingsClimb(leq, level, k);
      FoldConcat(leq, level[k], Siblings(level, k), Proof(leq, Above(leq, level), k / 2));
      ProofFoldsToRoot(leq, Above(leq, level), k / 2);
    }
  }

  // ----- Proof length -----

  function Pow2(d: nat): (r: nat)
    ensures r >= 1
  {
    if d == 0 then 1 else 2 * Pow2(d - 1)
  }

  /** How many levels lie between that many leaves and the root. */
  function Depth(leaves: nat): nat {
    if leaves <= 1 then 0 else 1 + Depth((leaves + 1) / 2)
  }

  /** The depth is the base-2 logarithm rounded up. */
  lemma {:induction false} DepthIsLog(leaves: nat, d: nat)
    ensures Depth(leaves) <= d <==> leaves <= Pow2(d)
    decreases leaves
  {
    if leaves > 1 && d > 0 {
      DepthIsLog((leaves + 1) / 2, d - 1);
    }
  }

  lemma {:induction false} ProofIsShort(leq: Order, level: seq<Digest>, k: nat)
    requires k < |level|
    ensures |Proof(leq, level, k)| <= Depth(|level|)
    decreases |level|
  {
    if |level| > 1 {
      ProofIsShort(leq, Above(leq, level), k / 2);
    }
  }

  /** The bound is met: the first leaf is never promoted. */
  lemma {:induction false} FirstProofIsLongest(leq: Order, level: seq<Digest>)
    requires level != []
    ensures |Proof(leq, level, 0)| == Depth(|level|)
    decreases |level|
  {
    if |level| > 1 {
      FirstProofIsLongest(leq, Above(leq, level));
    }
  }

  // ----- Binding -----

  ghost function Atoms(d: Digest): set<Digest> {
    if d.Node? then Atoms(d.left) + Atoms(d.right) else {d}
  }

  lemma {:induction false} FoldKeepsAtoms(leq: Order, current: Digest, proof: seq<Digest>)
    ensures Atoms(current) <= Atoms(Fold(leq, current, proof))
    decreases |proof|
  {
    if proof != [] {
      FoldKeepsAtoms(leq, HashNode(leq, current, proof[0]), proof[1..]);
    }
  }

  lemma {:induction false} RootAtoms(leq: Order, level: seq<Digest>, allowed: set<Digest>)
    requires level != [] && forall i :: 0 <= i < |level| ==> Atoms(level[i]) <= allowed
    ensures Atoms(Root(leq, level)) <= allowed
    decreases |level|
  {
    if |level| > 1 {
      RootAtoms(leq, Above(leq, level), allowed);
    }
  }

  /** A leaf that folds to the root of a tree of leaves, by any proof, is one of them. */
  lemma {:induction false} FoldedLeafIsListed(leq: Order, leaves: seq<Digest>, leaf: Digest, proof: seq<Digest>)
    requires leaves != [] && leaf.Leaf? && forall i :: 0 <= i < |leaves| ==> leaves[i].Leaf?
    requires Fold(leq, leaf, proof) == Root(leq, leaves)
    ensures leaf in leaves
  {
    var allowed := set d | d in leaves;
    RootAtoms(leq, leaves, allowed);
    FoldKeepsAtoms(leq, leaf, proof);
    assert leaf in Atoms(leaf);
  }

  // ----- Building -----

  datatype Payout = Payout(player: Pubkey, amount: int)

  datatype Claim = Claim(player: Pubkey, amount: int, leaf: Digest, proof: seq<Digest>)

  datatype Tree = Tree(session: Pubkey, root: Digest, total: int, claims: seq<Claim>)

  datatype TreeError = NoPayouts | DuplicatePlayer | InvalidAmount | TotalTooLarge | TotalMismatch

  function PlayerOf(p: Payout): int { p.player }

  function AmountOf(p: Payout): int { p.amount }

  /** The first payout that repeats a player or has an amount outside 1 to 2^64 - 1. */
  function FirstFault(payouts: seq<Payout>, k: nat): Option<TreeError>
    requires k <= |payouts|
    decreases |payouts| - k
  {
    if k == |payouts| then None
    else if exists j :: 0 <= j < k && payouts[j].player == payouts[k].player then Some(DuplicatePlayer)
    else if !(0 < payouts[k].amount <= U64_MAX) then Some(InvalidAmount)
    else FirstFault(payouts, k + 1)
  }

  predicate Payable(payouts: seq<Payout>) {
    && (forall i, j :: 0 <= i < j < |payouts| ==> payouts[i].player != payouts[j].player)
    && (forall i :: 0 <= i < |payouts| ==> 0 < payouts[i].amount <= U64_MAX)
  }

  lemma {:induction false} NoFault(payouts: seq<Payout>, k: nat)
    requires k <= |payouts| && Payable(payouts[..k])
    ensures FirstFault(payouts, k).None? <==> Payable(payouts)
    decreases |payouts| - k
  {
    if k == |payouts| {
      assert payouts[..k] == payouts;
    } else if exists j :: 0 <= j < k && payouts[j].player == payouts[k].player {
    } else if 0 < payouts[k].amount <= U64_MAX {
      assert payouts[..k + 1] == payouts[..k] + [payouts[k]];
      NoFault(payouts, k + 1);
    }
  }

  function Leaves(session: Pubkey, payouts: seq<Payout>): (r: seq<Digest>)
    ensures |r| == |payouts|
  {
    seq(|payouts|, i requires 0 <= i < |payouts| => Leaf(session, payouts[i].player, payouts[i].amount))
  }

  function ClaimsOf(leq: Order, session: Pubkey, payouts: seq<Payout>): (r: seq<Claim>)
    ensures |r| == |payouts|
  {
    var leaves := Leaves(session, payouts);
    seq(|payouts|, i requires 0 <= i < |payouts| =>
      Claim(payouts[i].player, payouts[i].amount, leaves[i], Proof(leq, leaves, i)))
  }

  function TreeOf(leq: Order, session: Pubkey, payouts: seq<Payout>): Tree
    requires payouts != []
  {
    Tree(session, Root(leq, Leaves(session, payouts)), SumOf(AmountOf, payouts), ClaimsOf(leq, session, payouts))
  }

  function BuildSettlementTree(leq: Order, session: Pubkey, payouts: seq<Payout>,
      expectedTotal: Option<int>): Result<Tree, TreeError> {
    if payouts == [] then Err(NoPayouts)
    else match FirstFault(payouts, 0)
      case Some(error) => Err(error)
      case None =>
        var sorted := Seats.SortBySeat(PlayerOf, payouts);
        var total := SumOf(AmountOf, sorted);
        if sorted == [] then Err(NoPayouts)
        else if total > U64_MAX then Err(TotalTooLarge)
        else if expectedTotal.Some? && !(0 < expectedTotal.value <= U64_MAX) then Err(InvalidAmount)
        else if expectedTotal.Some? && expectedTotal.value != total then Err(TotalMismatch)
        else Ok(TreeOf(leq, session, sorted))
  }

  /** A node of the level being built and the leaves below it. */
  datatype Group = Group(hash: Digest, indexes: seq<nat>)

  function Hashes(level: seq<Group>): (r: seq<Digest>)
    ensures |r| == |level|
  {
    seq(|level|, i requires 0 <= i < |level| => level[i].hash)
  }

  /** `owner` says which group each leaf lies below, once. */
  ghost predicate Owns(level: seq<Group>, owner: seq<nat>) {
    && (forall i :: 0 <= i < |owner| ==> owner[i] < |level|)
    && (forall g :: 0 <= g < |level| ==> Holds(level[g].indexes, owner, g))
    && (forall i :: 0 <= i < |owner| ==> i in level[owner[i]].indexes)
  }

  ghost predicate Holds(indexes: seq<nat>, owner: seq<nat>, g: nat) {
    Distinct(indexes) && forall k :: 0 <= k < |indexes| ==> indexes[k] < |owner| && owner[indexes[k]] == g
  }

  /** Appends a sibling to the proof of every leaf below a group. */
  method PushAll(proofs: array<seq<Digest>>, indexes: seq<nat>, sibling: Digest)
    requires Distinct(indexes) && forall i :: i in indexes ==> i < proofs.Length
    modifies proofs
    ensures forall i :: 0 <= i < proofs.Length ==>
      proofs[i] == old(proofs[i]) + if i in indexes then [sibling] else []
  {
    for k := 0 to |indexes|
      invariant forall i :: 0 <= i < proofs.Length ==>
        proofs[i] == old(proofs[i]) + if i in indexes[..k] then [sibling] else []
    {
      assert indexes[k] in indexes && indexes[k] !in indexes[..k];
      assert indexes[..k + 1] == indexes[..k] + [indexes[k]];
      proofs[indexes[k]] := proofs[indexes[k]] + [sibling];
    }
    assert indexes[..|indexes|] == indexes;
  }

  function NextGroups(leq: Order, level: seq<Group>): (r: seq<Group>)
    ensures |r| == (|level| + 1) / 2
  {
    seq((|level| + 1) / 2, h requires 0 <= h < (|level| + 1) / 2 =>
      if 2 * h + 1 < |level| then
        Group(HashNode(leq, level[2 * h].hash, level[2 * h + 1].hash), level[2 * h].indexes + level[2 * h + 1].indexes)
      else level[2 * h])
  }

  function Halves(owner: seq<nat>): (r: seq<nat>)
    ensures |r| == |owner|
  {
    seq(|owner|, i requires 0 <= i < |owner| => owner[i] / 2)
  }

  lemma {:induction false} HashesOfNext(leq: Order, level: seq<Group>)
    ensures Hashes(NextGroups(leq, level)) == Above(leq, Hashes(level))
  {
  }

  lemma {:induction false} GroupFits(level: seq<Group>, owner: seq<nat>, g: nat)
    requires Owns(level, owner) && g < |level|
    ensures Distinct(level[g].indexes)
    ensures forall i :: i in level[g].indexes ==> i < |owner| && owner[i] == g
  {
    assert Holds(level[g].indexes, owner, g);
  }

  lemma {:induction false} OwnsNext(leq: Order, level: seq<Group>, owner: seq<nat>)
    requires Owns(level, owner)
    ensures Owns(NextGroups(leq, level), Halves(owner))
  {
    var next, half := NextGroups(leq, level), Halves(owner);
    forall g | 0 <= g < |next| ensures Holds(next[g].indexes, half, g) {
      PairHolds(leq, level, owner, g);
    }
    forall i | 0 <= i < |half| ensures half[i] < |next| && i in next[half[i]].indexes {
      assert owner[i] == 2 * half[i] || owner[i] == 2 * half[i] + 1;
      assert i in level[owner[i]].indexes;
    }
  }

  lemma {:induction false} PairHolds(leq: Order, level: seq<Group>, owner: seq<nat>, g: nat)
    requires Owns(level, owner) && g < |NextGroups(leq, level)|
    ensures Holds(NextGroups(leq, level)[g].indexes, Halves(owner), g)
  {
    assert Holds(level[2 * g].indexes, owner, 2 * g);
    if 2 * g + 1 < |level| {
      var a, b := level[2 * g].indexes, level[2 * g + 1].indexes;
      assert Holds(b, owner, 2 * g + 1);
      forall i, j | 0 <= i < j < |a + b| ensures (a + b)[i] != (a + b)[j] {
        if i < |a| <= j {
          assert owner[a[i]] != owner[b[j - |a|]];
        }
      }
      forall k | 0 <= k < |a + b| ensures (a + b)[k] < |owner| && Halves(owner)[(a + b)[k]] == g {
        if k < |a| {
          assert owner[a[k]] == 2 * g;
        } else {
          assert owner[b[k - |a|]] == 2 * g + 1;
        }
      }
    }
  }

  /** The proofs after the pairs before `index` have exchanged hashes. */
  ghost predicate Extended(proofs: seq<seq<Digest>>, before: seq<seq<Digest>>, level: seq<Digest>, owner: seq<nat>,
      index: nat) {
    && |proofs| == |before| == |owner|
    && forall i :: 0 <= i < |owner| ==>
         owner[i] < |level| && proofs[i] == before[i] + if owner[i] < index then Siblings(level, owner[i]) else []
  }

  /** Pairs the groups of a level, pushing each group's hash onto the proofs of its sibling's leaves. */
  method PairLevel(leq: Order, level: seq<Group>, proofs: array<seq<Digest>>, ghost owner: seq<nat>)
    returns (next: seq<Group>)
    requires Owns(level, owner) && proofs.Length == |owner|
    modifies proofs
    ensures next == NextGroups(leq, level)
    ensures Extended(proofs[..], old(proofs[..]), Hashes(level), owner, |level|)
  {
    next := [];
    var index := 0;
    while index < |level|
      invariant 0 <= index <= |level| + 1 && index % 2 == 0
      invariant next == NextGroups(leq, level)[..index / 2]
      invariant Extended(proofs[..], old(proofs[..]), Hashes(level), owner, index)
    {
      var left := level[index];
      if index + 1 < |level| {
        var right := level[index + 1];
        ghost var before := proofs[..];
        GroupFits(level, owner, index);
        GroupFits(level, owner, index + 1);
        PushAll(proofs, left.indexes, right.hash);
        PushAll(proofs, right.indexes, left.hash);
        PairExtends(before, proofs[..], old(proofs[..]), level, owner, index);
        next := next + [Group(HashNode(leq, left.hash, right.hash), left.indexes + right.indexes)];
      } else {
        LoneExtends(proofs[..], old(proofs[..]), Hashes(level), owner, index);
        next := next + [left];
      }
      assert next == NextGroups(leq, level)[..index / 2 + 1];
      index := index + 2;
    }
    AllExtended(proofs[..], old(proofs[..]), Hashes(level), owner, index);
  }

  lemma {:induction false} AllExtended(proofs: seq<seq<Digest>>, before: seq<seq<Digest>>, level: seq<Digest>,
      owner: seq<nat>, index: nat)
    requires Extended(proofs, before, level, owner, index) && index >= |level|
    ensures Extended(proofs, before, level, owner, |level|)
  {
  }

  lemma {:induction false} LoneExtends(proofs: seq<seq<Digest>>, before: seq<seq<Digest>>, level: seq<Digest>,
      owner: seq<nat>, index: nat)
    requires Extended(proofs, before, level, owner, index) && index % 2 == 0 && index + 1 == |level|
    ensures Extended(proofs, before, level, owner, index + 2)
  {
    forall i | 0 <= i < |owner| && owner[i] == index ensures proofs[i] == before[i] + Siblings(level, owner[i]) {
    }
  }

  lemma {:induction false} PairExtends(proofs: seq<seq<Digest>>, after: seq<seq<Digest>>, start: seq<seq<Digest>>,
      level: seq<Group>, owner: seq<nat>, index: nat)
    requires Owns(level, owner) && index % 2 == 0 && index + 1 < |level|
    requires Extended(proofs, start, Hashes(level), owner, index) && |after| == |proofs|
    requires forall i :: 0 <= i < |owner| ==>
      after[i] == (proofs[i] + if i in level[index].indexes then [level[index + 1].hash] else [])
                  + if i in level[index + 1].indexes then [level[index].hash] else []
    ensures Extended(after, start, Hashes(level), owner, index + 2)
  {
    forall i | 0 <= i < |owner|
      ensures after[i] == start[i] + if owner[i] < index + 2 then Siblings(Hashes(level), owner[i]) else []
    {
      GroupFits(level, owner, index);
      GroupFits(level, owner, index + 1);
      assert i in level[index].indexes <==> owner[i] == index;
      assert i in level[index + 1].indexes <==> owner[i] == index + 1;
    }
  }

  // ----- The whole construction -----

  /** What the proofs collected so far still lack is what the current level has to add. */
  ghost predicate Partial(leq: Order, proofs: seq<seq<Digest>>, leaves: seq<Digest>, level: seq<Digest>,
      owner: seq<nat>) {
    && |proofs| == |owner| == |leaves|
    && forall i :: 0 <= i < |leaves| ==>
         owner[i] < |level| && proofs[i] + Proof(leq, level, owner[i]) == Proof(leq, leaves, i)
  }

  lemma {:induction false} PartialClimbs(leq: Order, proofs: seq<seq<Digest>>, after: seq<seq<Digest>>,
      leaves: seq<Digest>, level: seq<Digest>, owner: seq<nat>)
    requires Partial(leq, proofs, leaves, level, owner) && |level| > 1
    requires Extended(after, proofs, level, owner, |level|)
    ensures Partial(leq, after, leaves, Above(leq, level), Halves(owner))
  {
    forall i | 0 <= i < |leaves|
      ensures Halves(owner)[i] < |Above(leq, level)|
      ensures after[i] + Proof(leq, Above(leq, level), Halves(owner)[i]) == Proof(leq, leaves, i)
    {
      ProofClimbs(leq, proofs[i], after[i], level, owner[i]);
    }
  }

  lemma {:induction false} ProofClimbs(leq: Order, proof: seq<Digest>, after: seq<Digest>, level: seq<Digest>, k: nat)
    requires |level| > 1 && k < |level| && after == proof + Siblings(level, k)
    ensures k / 2 < |Above(leq, level)|
    ensures after + Proof(leq, Above(leq, level), k / 2) == proof + Proof(leq, level, k)
  {
    hide Above;
    var rest := Proof(leq, Above(leq, level), k / 2);
    assert proof + (Siblings(level, k) + rest) == (proof + Siblings(level, k)) + rest;
  }

  method CollectProofs(leq: Order, leaves: seq<Digest>) returns (root: Digest, proofs: seq<seq<Digest>>)
    requires leaves != []
    ensures root == Root(leq, leaves)
    ensures |proofs| == |leaves| && forall i :: 0 <= i < |leaves| ==> proofs[i] == Proof(leq, leaves, i)
  {
    var n := |leaves|;
    var collected := new seq<Digest>[n](_ => []);
    var level := seq(n, i requires 0 <= i < n => Group(leaves[i], [i]));
    ghost var owner: seq<nat> := seq(n, i => i);
    assert Hashes(level) == leaves;
    assert Partial(leq, collected[..], leaves, leaves, owner) by {
      forall i | 0 <= i < n ensures collected[..][i] + Proof(leq, leaves, owner[i]) == Proof(leq, leaves, i) {
      }
    }
    while |level| > 1
      invariant level != [] && Owns(level, owner) && Root(leq, Hashes(level)) == Root(leq, leaves)
      invariant fresh(collected) && collected.Length == n
      invariant Partial(leq, collected[..], leaves, Hashes(level), owner)
      decreases |level|
    {
      ghost var before := collected[..];
      HashesOfNext(leq, level);
      OwnsNext(leq, level, owner);
      var next := PairLevel(leq, level, collected, owner);
      PartialClimbs(leq, before, collected[..], leaves, Hashes(level), owner);
      owner := Halves(owner);
      level := next;
    }
    root := level[0].hash;
    proofs := collected[..];
    forall i | 0 <= i < n ensures proofs[i] == Proof(leq, leaves, i) {
      assert proofs[i] + Proof(leq, Hashes(level), owner[i]) == Proof(leq, leaves, i);
    }
  }

  method Build(leq: Order, session: Pubkey, payouts: seq<Payout>, expectedTotal: Option<int>)
    returns (r: Result<Tree, TreeError>)
    ensures r == BuildSettlementTree(leq, session, payouts, expectedTotal)
  {
    if payouts == [] {
      return Err(NoPayouts);
    }
    var fault := FirstFault(payouts, 0);
    if fault.Some? {
      return Err(fault.value);
    }
    var sorted := Seats.SortBySeat(PlayerOf, payouts);
    if sorted == [] {
      return Err(NoPayouts);
    }
    var total := SumOf(AmountOf, sorted);
    if total > U64_MAX {
      return Err(TotalTooLarge);
    }
    if expectedTotal.Some? {
      if !(0 < expectedTotal.value <= U64_MAX) {
        return Err(InvalidAmount);
      }
      if expectedTotal.value != total {
        return Err(TotalMismatch);
      }
    }
    var leaves := Leaves(session, sorted);
    var root, proofs := CollectProofs(leq, leaves);
    var claims := seq(|sorted|, i requires 0 <= i < |sorted| =>
      Claim(sorted[i].player, sorted[i].amount, leaves[i], proofs[i]));
    assert claims == ClaimsOf(leq, session, sorted);
    return Ok(Tree(session, root, total, claims));
  }

  // ----- Verifiers -----

  /** The server's check; a proof node or root that is not 32 bytes of hexadecimal is None. */
  predicate ServerAccepts(leq: Order, session: Pubkey, root: Option<Digest>, player: Pubkey, amount: int,
      proof: seq<Option<Digest>>) {
    && 0 < amount <= U64_MAX && |proof| <= MAX_PROOF && root.Some?
    && (forall k :: 0 <= k < |proof| ==> proof[k].Some?)
    && Fold(leq, Leaf(session, player, amount), Present(proof)) == root.value
  }

  function Present(proof: seq<Option<Digest>>): (r: seq<Digest>)
    requires forall k :: 0 <= k < |proof| ==> proof[k].Some?
    ensures |r| == |proof|
  {
    seq(|proof|, k requires 0 <= k < |proof| => proof[k].value)
  }

  datatype ClaimError = InvalidAmountError

  method VerifySettlementClaim(leq: Order, session: Pubkey, root: Option<Digest>, player: Pubkey, amount: int,
      proof: seq<Option<Digest>>)
    returns (r: Result<bool, ClaimError>)
    ensures r.Err? <==> !(0 < amount <= U64_MAX)
    ensures r.Ok? ==> r.value == ServerAccepts(leq, session, root, player, amount, proof)
  {
    if !(0 < amount <= U64_MAX) {
      return Err(InvalidAmountError);
    }
    var current := Leaf(session, player, amount);
    if |proof| > MAX_PROOF {
      return Ok(false);
    }
    for k := 0 to |proof|
      invariant forall j :: 0 <= j < k ==> proof[j].Some?
      invariant current == Fold(leq, Leaf(session, player, amount), Present(proof[..k]))
    {
      if proof[k].None? {
        return Ok(false);
      }
      FoldConcat(leq, Leaf(session, player, amount), Present(proof[..k]), [proof[k].value]);
      assert Present(proof[..k + 1]) == Present(proof[..k]) + [proof[k].value];
      assert [proof[k].value][1..] == [];
      current := HashNode(leq, current, proof[k].value);
    }
    assert proof[..|proof|] == proof;
    return Ok(root.Some? && current == root.value);
  }

  /** The escrow's check folds the bare hashes; its caller bounds the depth. */
  method VerifySortedMerkleProof(leq: Order, start: Digest, proof: seq<Digest>, expectedRoot: Digest)
    returns (accepted: bool)
    ensures accepted == (Fold(leq, start, proof) == expectedRoot)
  {
    var current := start;
    for k := 0 to |proof|
      invariant Fold(leq, start, proof) == Fold(leq, current, proof[k..])
    {
      var sibling := proof[k];
      assert proof[k..][1..] == proof[k + 1..];
      current := if leq(current, sibling) then Node(current, sibling) else Node(sibling, current);
    }
    return current == expectedRoot;
  }

  predicate EscrowAccepts(leq: Order, session: Pubkey, root: Digest, player: Pubkey, amount: int, proof: seq<Digest>) {
    && 0 < amount <= U64_MAX && |proof| <= MAX_PROOF
    && Fold(leq, Leaf(session, player, amount), proof) == root
  }

  function Encoded(proof: seq<Digest>): (r: seq<Option<Digest>>)
    ensures |r| == |proof| && forall k :: 0 <= k < |r| ==> r[k] == Some(proof[k])
  {
    seq(|proof|, k requires 0 <= k < |proof| => Some(proof[k]))
  }

  /** Server and chain agree on every well-formed claim. */
  lemma {:induction false} VerifiersAgree(leq: Order, session: Pubkey, root: Digest, player: Pubkey, amount: int,
      proof: seq<Digest>)
    ensures ServerAccepts(leq, session, Some(root), player, amount, Encoded(proof))
      <==> EscrowAccepts(leq, session, root, player, amount, proof)
  {
    assert Present(Encoded(proof)) == proof;
  }

  // ----- The settlement tree -----

  lemma {:induction false} SortedPayouts(payouts: seq<Payout>)
    ensures var sorted := Seats.SortBySeat(PlayerOf, payouts);
      && multiset(sorted) == multiset(payouts) && |sorted| == |payouts|
      && forall p :: p in sorted <==> p in payouts
  {
    var sorted := Seats.SortBySeat(PlayerOf, payouts);
    Seats.SortKeepsMembers(PlayerOf, payouts);
    assert |multiset(sorted)| == |sorted| && |multiset(payouts)| == |payouts|;
    forall p ensures p in sorted <==> p in payouts {
      assert p in sorted <==> p in multiset(sorted);
      assert p in payouts <==> p in multiset(payouts);
    }
  }

  /**
   * Exactly the listed payouts can be claimed: with the root of a built tree, a claim is accepted with
   * some proof only if it is one of the payouts, and every generated claim is accepted by both
   * verifiers as soon as there are at most 2^32 payouts.
   */
  lemma {:induction false} AcceptedClaimsAreListed(leq: Order, session: Pubkey, payouts: seq<Payout>,
      expectedTotal: Option<int>,
      session': Pubkey, player: Pubkey, amount: int, proof: seq<Digest>)
    requires BuildSettlementTree(leq, session, payouts, expectedTotal).Ok?
    requires EscrowAccepts(leq, session', BuildSettlementTree(leq, session, payouts, expectedTotal).value.root, player,
        amount, proof)
    ensures session' == session && Payout(player, amount) in payouts
  {
    var sorted := Seats.SortBySeat(PlayerOf, payouts);
    SortedPayouts(payouts);
    var leaves := Leaves(session, sorted);
    FoldedLeafIsListed(leq, leaves, Leaf(session', player, amount), proof);
    var i :| 0 <= i < |leaves| && leaves[i] == Leaf(session', player, amount);
    assert sorted[i] in sorted;
  }

  lemma {:induction false} ClaimsVerify(leq: Order, session: Pubkey, payouts: seq<Payout>, expectedTotal: Option<int>,
      k: nat)
    requires TotalOrder(leq) && BuildSettlementTree(leq, session, payouts, expectedTotal).Ok?
    requires k < |payouts| <= Pow2(MAX_PROOF)
    ensures var tree := BuildSettlementTree(leq, session, payouts, expectedTotal).value;
      && |tree.claims| == |payouts|
      && Payout(tree.claims[k].player, tree.claims[k].amount) in payouts
      && EscrowAccepts(leq, session, tree.root, tree.claims[k].player, tree.claims[k].amount, tree.claims[k].proof)
      && ServerAccepts(leq, session, Some(tree.root), tree.claims[k].player, tree.claims[k].amount,
        Encoded(tree.claims[k].proof))
  {
    var sorted := Seats.SortBySeat(PlayerOf, payouts);
    SortedPayouts(payouts);
    assert payouts[..0] == [];
    NoFault(payouts, 0);
    var tree := BuildSettlementTree(leq, session, payouts, expectedTotal).value;
    var leaves := Leaves(session, sorted);
    assert sorted[k] in sorted && sorted[k] in payouts;
    ProofFoldsToRoot(leq, leaves, k);
    ProofIsShort(leq, leaves, k);
    DepthIsLog(|leaves|, MAX_PROOF);
    VerifiersAgree(leq, session, tree.root, tree.claims[k].player, tree.claims[k].amount, tree.claims[k].proof);
  }

  /**
   * Every generated claim can be made exactly up to 2^32 payouts; beyond, the proof of the first payout
   * in key order exceeds the depth limit. No array of the server's language is that long, so the
   * depth limit never rejects a claim the server can have built.
   */
  lemma {:induction false} EveryClaimVerifiesIff(leq: Order, session: Pubkey, payouts: seq<Payout>,
      expectedTotal: Option<int>)
    requires TotalOrder(leq) && BuildSettlementTree(leq, session, payouts, expectedTotal).Ok?
    ensures var tree := BuildSettlementTree(leq, session, payouts, expectedTotal).value;
      (forall k :: 0 <= k < |tree.claims| ==>
         EscrowAccepts(leq, session, tree.root, tree.claims[k].player, tree.claims[k].amount, tree.claims[k].proof))
      <==> |payouts| <= Pow2(MAX_PROOF)
  {
    hide EscrowAccepts, Pow2, Seats.SortBySeat, Proof, Root, SumOf;
    var tree := BuildSettlementTree(leq, session, payouts, expectedTotal).value;
    var sorted := Seats.SortBySeat(PlayerOf, payouts);
    SortedPayouts(payouts);
    if |payouts| <= Pow2(MAX_PROOF) {
      forall k | 0 <= k < |tree.claims|
        ensures EscrowAccepts(leq, session, tree.root, tree.claims[k].player, tree.claims[k].amount,
            tree.claims[k].proof)
      {
        ClaimsVerify(leq, session, payouts, expectedTotal, k);
      }
    } else {
      FirstProofIsLongest(leq, Leaves(session, sorted));
      DepthIsLog(|sorted|, MAX_PROOF);
      FirstIsRefused(leq, session, tree);
    }
  }

  lemma {:induction false} FirstIsRefused(leq: Order, session: Pubkey, tree: Tree)
    requires tree.claims != [] && |tree.claims[0].proof| > MAX_PROOF
    ensures exists k ::
              && 0 <= k < |tree.claims|
              && !EscrowAccepts(leq, session, tree.root, tree.claims[k].player, tree.claims[k].amount,
                                tree.claims[k].proof)
  {
    var first := tree.claims[0];
    assert !EscrowAccepts(leq, session, tree.root, first.player, first.amount, first.proof);
  }
}
