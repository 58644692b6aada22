/**
 * The position-bound Merkle commitment to a shuffled deck: fairness/protocol.js. SHA-256 over
 * length-prefixed, domain-separated fields is idealised as an injective constructor per domain.
 */
module DeckMerkle {
  import opened Wrappers

  datatype Digest =
    | CardLeaf(position: int, cardId: int, nonce: nat)
    | Parent(left: Digest, right: Digest)
    | Unrelated(bytes: nat)

  datatype ProofItem = ProofItem(side: string, hash: Option<Digest>)

  /** A card as published: its id and the metadata derived from it. */
  datatype Card = Card(id: int, rank: char, suit: string, symbol: nat)

  /** A reveal as received; a field that is not 32 bytes of hexadecimal is None. */
  datatype Reveal = Reveal(position: int, card: Card, nonce: Option<nat>, proof: seq<ProofItem>)

  datatype CommittedDeck = CommittedDeck(order: seq<int>, nonces: seq<nat>, layers: seq<seq<Digest>>, root: Digest)

  datatype FairDealError = InvalidPosition | InvalidCard | EmptyTree

  const SUITS := ["clubs", "diamonds", "hearts", "spades"]
  const RANKS := "23456789TJQKA"

  function CardFromId(cardId: int): Result<Card, FairDealError> {
    if !(0 <= cardId < 52) then Err(InvalidCard)
    else Ok(Card(cardId, RANKS[cardId % 13], SUITS[cardId / 13], cardId / 13))
  }

  // ----- The tree -----

  /** The layer above: neighbours are paired, and an odd last node is paired with itself. */
  function Above(layer: seq<Digest>): (r: seq<Digest>)
    ensures |r| == (|layer| + 1) / 2
  {
    seq((|layer| + 1) / 2, i requires 0 <= i < (|layer| + 1) / 2 =>
      Parent(layer[2 * i], if 2 * i + 1 < |layer| then layer[2 * i + 1] else layer[2 * i]))
  }

  function Layers(leaves: seq<Digest>): (r: seq<seq<Digest>>)
    requires leaves != []
    ensures r != [] && r[0] == leaves && |r[|r| - 1]| == 1
    decreases |leaves|
  {
    if |leaves| == 1 then [leaves] else [leaves] + Layers(Above(leaves))
  }

  function Root(leaves: seq<Digest>): Digest
    requires leaves != []
  {
    var layers := Layers(leaves);
    layers[|layers| - 1][0]
  }

  method BuildLayer(current: seq<Digest>) returns (next: seq<Digest>)
    ensures next == Above(current)
  {
    next := [];
    var index := 0;
    while index < |current|
      invariant 0 <= index <= |current| + 1 && index % 2 == 0
      invariant |next| == index / 2 && next == Above(current)[..index / 2]
    {
      var left := current[index];
      var right := if index + 1 < |current| then current[index + 1] else left;
      assert Above(current)[index / 2] == Parent(left, right);
      next := next + [Parent(left, right)];
      index := index + 2;
    }
  }

  method BuildMerkleLayers(leaves: seq<Digest>) returns (r: Result<seq<seq<Digest>>, FairDealError>)
    ensures r == if leaves == [] then Err(EmptyTree) else Ok(Layers(leaves))
  {
    if leaves == [] {
      return Err(EmptyTree);
    }
    var layers := [leaves];
    while |layers[|layers| - 1]| > 1
      invariant layers != [] && layers[|layers| - 1] != []
      invariant Layers(leaves) == layers[..|layers| - 1] + Layers(layers[|layers| - 1])
      decreases |layers[|layers| - 1]|
    {
      var next := BuildLayer(layers[|layers| - 1]);
      layers := layers + [next];
    }
    assert layers[..|layers| - 1] + [layers[|layers| - 1]] == layers;
    return Ok(layers);
  }

  // ----- Proofs -----

  function SiblingIndex(layer: seq<Digest>, index: nat): (r: nat)
    requires index < |layer|
    ensures r < |layer|
  {
    if index % 2 == 1 then index - 1 else if index + 1 < |layer| then index + 1 else index
  }

  function ItemFor(layer: seq<Digest>, index: nat): ProofItem
    requires index < |layer|
  {
    ProofItem(if index % 2 == 1 then "left" else "right", Some(layer[SiblingIndex(layer, index)]))
  }

  function Proof(leaves: seq<Digest>, index: nat): seq<ProofItem>
    requires index < |leaves|
    decreases |leaves|
  {
    if |leaves| == 1 then [] else [ItemFor(leaves, index)] + Proof(Above(leaves), index / 2)
  }

  /** Walks the layers from the leaves up, as the source does, and yields the recursive proof. */
  method MerkleProof(leaves: seq<Digest>, layers: seq<seq<Digest>>, leafIndex: nat) returns (proof: seq<ProofItem>)
    requires leafIndex < |leaves| && layers == Layers(leaves)
    ensures proof == Proof(leaves, leafIndex)
  {
    proof := [];
    var index: nat := leafIndex;
    ghost var rest := leaves;
    for layerIndex := 0 to |layers| - 1
      invariant index < |rest|
      invariant layers[layerIndex..] == Layers(rest)
      invariant Proof(leaves, leafIndex) == proof + Proof(rest, index)
    {
      LayersStep(layers, layerIndex, rest);
      ghost var upper := Proof(Above(rest), index / 2);
      assert proof + ([ItemFor(rest, index)] + upper) == (proof + [ItemFor(rest, index)]) + upper;
      var layer := layers[layerIndex];
      var isRight := index % 2 == 1;
      var siblingIndex := if isRight then index - 1 else index + 1;
      if siblingIndex >= |layer| {
        siblingIndex := index;
      }
      proof := proof + [ProofItem(if isRight then "left" else "right", Some(layer[siblingIndex]))];
      index := index / 2;
      rest := Above(rest);
    }
    assert |Layers(rest)| == 1;
    assert proof + [] == proof;
  }

  lemma {:induction false} LayersStep(layers: seq<seq<Digest>>, k: nat, rest: seq<Digest>)
    requires k < |layers| - 1 && rest != [] && layers[k..] == Layers(rest)
    ensures layers[k] == rest && |rest| > 1 && layers[k + 1..] == Layers(Above(rest))
  {
    assert layers[k] == layers[k..][0];
    assert layers[k + 1..] == layers[k..][1..];
    assert |layers[k..]| >= 2;
  }

  /** Applies one proof item; a bad side or hash makes the whole proof invalid. */
  function Combine(current: Digest, item: ProofItem): Option<Digest> {
    if item.hash.None? then None
    else if item.side == "left" then Some(Parent(item.hash.value, current))
    else if item.side == "right" then Some(Parent(current, item.hash.value))
    else None
  }

  function Fold(current: Digest, proof: seq<ProofItem>): Option<Digest>
    decreases |proof|
  {
    if proof == [] then Some(current)
    else match Combine(current, proof[0])
      case None => None
      case Some(next) => Fold(next, proof[1..])
  }

  /** Completeness: every leaf's proof folds to the root, duplicated odd nodes included. */
  lemma {:induction false} ProofFoldsToRoot(leaves: seq<Digest>, index: nat)
    requires index < |leaves|
    ensures Fold(leaves[index], Proof(leaves, index)) == Some(Root(leaves))
    decreases |leaves|
  {
    if |leaves| > 1 {
      var above, rest := Above(leaves), Proof(Above(leaves), index / 2);
      ProofFoldsToRoot(above, index / 2);
      ItemClimbs(leaves, index);
      RootClimbs(leaves);
      assert ([ItemFor(leaves, index)] + rest)[1..] == rest;
    }
  }

  /** One proof item takes a node to the node above it. */
  lemma {:induction false} ItemClimbs(layer: seq<Digest>, index: nat)
    requires index < |layer|
    ensures index / 2 < |Above(layer)| && Combine(layer[index], ItemFor(layer, index)) == Some(Above(layer)[index / 2])
  {
    assert index % 2 == 1 ==> index == 2 * (index / 2) + 1;
    assert index % 2 == 0 ==> index == 2 * (index / 2);
  }

  lemma {:induction false} RootClimbs(leaves: seq<Digest>)
    requires |leaves| > 1
    ensures Root(leaves) == Root(Above(leaves))
  {
    var layers, rest := Layers(leaves), Layers(Above(leaves));
    assert layers[|layers| - 1] == rest[|rest| - 1];
  }

  // ----- Commitments and reveals -----

  function Leaves(order: seq<int>, nonces: seq<nat>): (r: seq<Digest>)
    requires |order| == |nonces|
    ensures |r| == |order|
  {
    seq(|order|, i requires 0 <= i < |order| => CardLeaf(i, order[i], nonces[i]))
  }

  ghost predicate Commits(deck: CommittedDeck) {
    && |deck.order| == |deck.nonces| == 52
    && (forall i :: 0 <= i < 52 ==> 0 <= deck.order[i] < 52)
    && deck.layers == Layers(Leaves(deck.order, deck.nonces))
    && deck.root == Root(Leaves(deck.order, deck.nonces))
  }

  method CommitDeck(order: seq<int>, nonces: seq<nat>) returns (deck: CommittedDeck)
    requires |order| == |nonces| == 52 && forall i :: 0 <= i < 52 ==> 0 <= order[i] < 52
    ensures Commits(deck) && deck.order == order && deck.nonces == nonces
  {
    var layers := BuildMerkleLayers(Leaves(order, nonces));
    deck := CommittedDeck(order, nonces, layers.value, layers.value[|layers.value| - 1][0]);
  }

  /** What the dealer publishes for a position: the card, its nonce and the path to the root. */
  function RevealOf(deck: CommittedDeck, position: int): (r: Result<Reveal, FairDealError>)
    requires |deck.order| == |deck.nonces| == 52 && forall i :: 0 <= i < 52 ==> 0 <= deck.order[i] < 52
  {
    if !(0 <= position < 52) then Err(InvalidPosition)
    else Ok(Reveal(position, CardFromId(deck.order[position]).value, Some(deck.nonces[position]),
                   Proof(Leaves(deck.order, deck.nonces), position)))
  }

  method RevealCard(deck: CommittedDeck, position: int) returns (r: Result<Reveal, FairDealError>)
    requires Commits(deck)
    ensures r == RevealOf(deck, position)
  {
    if !(0 <= position < 52) {
      return Err(InvalidPosition);
    }
    var proof := MerkleProof(Leaves(deck.order, deck.nonces), deck.layers, position);
    return Ok(Reveal(position, CardFromId(deck.order[position]).value, Some(deck.nonces[position]), proof));
  }

  predicate Accepted(root: Digest, shown: Reveal) {
    && CardFromId(shown.card.id) == Ok(shown.card)
    && shown.position >= 0 && shown.nonce.Some?
    && Fold(CardLeaf(shown.position, shown.card.id, shown.nonce.value), shown.proof) == Some(root)
  }

  /** The verifier: any malformed field makes it answer false rather than throw. */
  method VerifyCardReveal(root: Digest, shown: Reveal) returns (accepted: bool)
    ensures accepted == Accepted(root, shown)
  {
    var canonical := CardFromId(shown.card.id);
    if canonical.Err? || canonical.value != shown.card || shown.position < 0 || shown.nonce.None? {
      return false;
    }
    ghost var leaf := CardLeaf(shown.position, shown.card.id, shown.nonce.value);
    var current := CardLeaf(shown.position, shown.card.id, shown.nonce.value);
    for k := 0 to |shown.proof|
      invariant Fold(leaf, shown.proof) == Fold(current, shown.proof[k..])
    {
      var item := shown.proof[k];
      assert shown.proof[k..][1..] == shown.proof[k + 1..];
      if item.hash.None? {
        return false;
      }
      var sibling := item.hash.value;
      if item.side != "left" && item.side != "right" {
        return false;
      }
      current := if item.side == "left" then Parent(sibling, current) else Parent(current, sibling);
    }
    return current == root;
  }

  /** Every position of a committed deck can be revealed and the reveal is accepted. */
  lemma {:induction false} HonestRevealIsAccepted(deck: CommittedDeck, position: nat)
    requires Commits(deck) && position < 52
    ensures RevealOf(deck, position).Ok? && Accepted(deck.root, RevealOf(deck, position).value)
  {
    ProofFoldsToRoot(Leaves(deck.order, deck.nonces), position);
  }

  // ----- Binding -----

  /** The nodes without children below a digest. */
  ghost function Atoms(d: Digest): set<Digest> {
    if d.Parent? then Atoms(d.left) + Atoms(d.right) else {d}
  }

  lemma {:induction false} FoldKeepsAtoms(current: Digest, proof: seq<ProofItem>)
    requires Fold(current, proof).Some?
    decreases |proof|
    ensures Atoms(current) <= Atoms(Fold(current, proof).value)
  {
    if proof != [] {
      FoldKeepsAtoms(Combine(current, proof[0]).value, proof[1..]);
    }
  }

  ghost predicate AtomsWithin(layer: seq<Digest>, allowed: set<Digest>) {
    forall i :: 0 <= i < |layer| ==> Atoms(layer[i]) <= allowed
  }

  lemma {:induction false} RootAtoms(layer: seq<Digest>, allowed: set<Digest>)
    requires layer != [] && AtomsWithin(layer, allowed)
    ensures Atoms(Root(layer)) <= allowed
    decreases |layer|
  {
    if |layer| > 1 {
      RootAtoms(Above(layer), allowed);
      RootClimbs(layer);
    }
  }

  /** A card leaf that folds to the root of a commitment, by any proof, is the committed one. */
  lemma {:induction false} LeafIsCommitted(order: seq<int>, nonces: seq<nat>, leaf: Digest, proof: seq<ProofItem>)
    requires |order| == |nonces| > 0 && leaf.CardLeaf?
    requires Fold(leaf, proof) == Some(Root(Leaves(order, nonces)))
    ensures 0 <= leaf.position < |order|
    ensures leaf.cardId == order[leaf.position] && leaf.nonce == nonces[leaf.position]
  {
    var leaves := Leaves(order, nonces);
    var allowed := set d | d in leaves;
    RootAtoms(leaves, allowed);
    FoldKeepsAtoms(leaf, proof);
    assert leaf in Atoms(leaf);
    assert leaf in leaves;
  }

  /**
   * Binding: an accepted reveal names the card that was committed at its position, whatever the shape
   * of its proof.
   */
  lemma {:induction false} AcceptedRevealIsCommitted(deck: CommittedDeck, shown: Reveal)
    requires Commits(deck) && Accepted(deck.root, shown)
    ensures 0 <= shown.position < 52 && Ok(shown.card) == CardFromId(deck.order[shown.position])
    ensures shown.nonce == Some(deck.nonces[shown.position])
  {
    LeafIsCommitted(deck.order, deck.nonces,
      CardLeaf(shown.position, shown.card.id, shown.nonce.value), shown.proof);
  }

  /** A root commits to one deck only, even among decks of different sizes. */
  lemma {:induction false} RootDeterminesDeck(order: seq<int>, nonces: seq<nat>, order': seq<int>, nonces': seq<nat>)
    requires |order| == |nonces| > 0 && |order'| == |nonces'| > 0
    requires Root(Leaves(order, nonces)) == Root(Leaves(order', nonces'))
    ensures order == order' && nonces == nonces'
  {
    SameAt(order, nonces, order', nonces');
    SameAt(order', nonces', order, nonces);
  }

  lemma {:induction false} SameAt(order: seq<int>, nonces: seq<nat>, order': seq<int>, nonces': seq<nat>)
    requires |order| == |nonces| > 0 && |order'| == |nonces'| > 0
    requires Root(Leaves(order, nonces)) == Root(Leaves(order', nonces'))
    ensures |order| <= |order'|
    ensures forall i :: 0 <= i < |order| ==> order[i] == order'[i] && nonces[i] == nonces'[i]
  {
    var leaves := Leaves(order, nonces);
    forall i | 0 <= i < |order|
      ensures i < |order'| && order[i] == order'[i] && nonces[i] == nonces'[i]
    {
      ProofFoldsToRoot(leaves, i);
      LeafIsCommitted(order', nonces', leaves[i], Proof(leaves, i));
    }
    assert 0 <= |order| - 1 < |order|;
    assert order[|order| - 1] == order'[|order| - 1];
  }
}
