/**
 * Commit, derive, deal, audit: the fair-deal protocol of fairness/protocol.js. SHA-256, HMAC and HKDF
 * (RFC 5869) are idealised as injective constructors, one per domain, and the shuffle and the nonces
 * of a hand seed as an arbitrary function to permutations of the deck.
 */
module Fairness {
  import opened Wrappers
  import opened Seqs
  import opened Games
  import opened DeckMerkle
  import Seats
  import Shuffle

  datatype Rules = Rules(game: Game, seats: int, buttonSeat: int, boards: int)

  datatype Commitment = ServerSeed(seed: nat) | PlayerSeed(playerId: nat, seed: nat) | Forged(bytes: nat)

  datatype Beacon = Beacon(source: nat, chainHash: nat, round: nat, randomness: nat)

  datatype Seed = Seed(playerId: nat, seed: nat)

  datatype Committed = Committed(playerId: nat, commitment: Commitment)

  /** The input of the key derivation; the chain hash of the beacon does not enter it. */
  datatype HandSeed = HandSeed(rules: Rules, serverSeed: nat, source: nat, round: nat, randomness: nat,
    players: seq<Seed>)

  datatype Deal = Deal(order: seq<int>, nonces: seq<nat>)

  predicate IsDeck(order: seq<int>) {
    |order| == 52 && Distinct(order) && forall c :: c in order ==> 0 <= c < 52
  }

  predicate IsDeal(d: Deal) { IsDeck(d.order) && |d.nonces| == 52 }

  type ValidDeal = d: Deal | IsDeal(d) witness Deal(seq(52, i => i), seq(52, i => 0))

  type Dealer = HandSeed -> ValidDeal

  /** What the deterministic shuffle of a productive stream deals is such a deck. */
  lemma {:induction false} ShuffledDeckIsDeck(block: nat -> Shuffle.Block, deck: seq<nat>)
    requires Shuffle.Productive(block)
    requires deck == Shuffle.ShuffleAll(Shuffle.Deck(), Shuffle.StreamDraws(block, 0, 51))
    ensures IsDeck(deck)
  {
    Shuffle.ShuffledIsDistinct(Shuffle.Deck(), Shuffle.StreamDraws(block, 0, 51));
    forall c: int | c in deck ensures 0 <= c < 52 {
      assert c in multiset(deck);
      assert c in multiset(Shuffle.Deck());
    }
  }

  function DeckOf(d: ValidDeal): (deck: CommittedDeck)
    ensures deck.order == d.order && deck.nonces == d.nonces && Commits(deck)
  {
    InDeck(d.order);
    CommittedDeck(d.order, d.nonces, Layers(Leaves(d.order, d.nonces)), Root(Leaves(d.order, d.nonces)))
  }

  lemma {:induction false} InDeck(order: seq<int>)
    requires IsDeck(order)
    ensures forall i :: 0 <= i < 52 ==> 0 <= order[i] < 52
  {
    forall i | 0 <= i < 52 ensures 0 <= order[i] < 52 {
      assert order[i] in order;
    }
  }

  // ----- The hand seed -----

  datatype FairnessError = InvalidPlayers | DuplicatePlayer

  function IdOf(s: Seed): int { s.playerId }

  predicate UniqueIds(seeds: seq<Seed>) {
    forall i, j :: 0 <= i < j < |seeds| ==> seeds[i].playerId != seeds[j].playerId
  }

  function DeriveHandSeed(rules: Rules, serverSeed: nat, beacon: Beacon,
      playerSeeds: seq<Seed>): Result<HandSeed, FairnessError> {
    if |playerSeeds| < 2 then Err(InvalidPlayers)
    else if !UniqueIds(playerSeeds) then Err(DuplicatePlayer)
    else Ok(HandSeed(rules, serverSeed, beacon.source, beacon.round, beacon.randomness,
      Seats.SortBySeat(IdOf, playerSeeds)))
  }

  lemma {:induction false} HasSeed(b: seq<Seed>)
    ensures b == [] || exists s :: s in b
  {
    if b != [] {
      assert b[0] in b;
    }
  }

  lemma {:induction false} SortedUniquely(a: seq<Seed>, b: seq<Seed>)
    requires Seats.Ascending(IdOf, a) && Seats.Ascending(IdOf, b) && UniqueIds(a) && UniqueIds(b)
    requires forall s :: s in a <==> s in b
    ensures a == b
  {
    if a == [] {
      HasSeed(b);
    } else {
      SameFirst(a, b);
      forall s ensures s in a[1..] <==> s in b[1..] {
        TailMembers(a, s);
        TailMembers(b, s);
      }
      SortedUniquely(a[1..], b[1..]);
      assert a == [a[0]] + a[1..] && b == [b[0]] + b[1..];
    }
  }

  lemma {:induction false} SameFirst(a: seq<Seed>, b: seq<Seed>)
    requires a != [] && Seats.Ascending(IdOf, a) && Seats.Ascending(IdOf, b) && UniqueIds(a)
    requires forall s :: s in a <==> s in b
    ensures b != [] && a[0] == b[0]
  {
    assert a[0] in a;
    assert b[0] in b;
    var i :| 0 <= i < |b| && b[i] == a[0];
    var j :| 0 <= j < |a| && a[j] == b[0];
  }

  lemma {:induction false} TailMembers(a: seq<Seed>, s: Seed)
    requires a != [] && UniqueIds(a)
    ensures s in a[1..] <==> s in a && s != a[0]
  {
    if s in a[1..] {
      var k :| 0 <= k < |a[1..]| && a[1..][k] == s;
      assert a[k + 1] == s;
    }
    assert a == [a[0]] + a[1..];
  }

  lemma {:induction false} SortSeeds(seeds: seq<Seed>)
    requires UniqueIds(seeds)
    ensures var sorted := Seats.SortBySeat(IdOf, seeds);
      Seats.Ascending(IdOf, sorted) && UniqueIds(sorted) && |sorted| == |seeds| && forall s :: s in sorted <==>
        s in seeds
  {
    var sorted := Seats.SortBySeat(IdOf, seeds);
    Seats.SortAscending(IdOf, seeds);
    Seats.SortKeepsMembers(IdOf, seeds);
    assert |multiset(sorted)| == |sorted| && |multiset(seeds)| == |seeds|;
    forall s ensures s in sorted <==> s in seeds {
      assert s in sorted <==> s in multiset(sorted);
      assert s in seeds <==> s in multiset(seeds);
    }
    UniqueMembers(seeds, sorted);
  }

  /** Identities stay unique under reordering. */
  lemma {:induction false} UniqueMembers(a: seq<Seed>, b: seq<Seed>)
    requires UniqueIds(a) && multiset(a) == multiset(b)
    ensures UniqueIds(b)
  {
    assert Distinct(a);
    Shuffle.DistinctMultiset(a, b);
    forall i, j | 0 <= i < j < |b| ensures b[i].playerId != b[j].playerId {
      assert b[i] in multiset(b) && b[j] in multiset(b);
      assert b[i] in a && b[j] in a;
    }
  }

  /** The hand seed depends on who contributed which seed, not on the order they are listed in. */
  lemma {:induction false} DerivationIgnoresOrder(rules: Rules, serverSeed: nat, beacon: Beacon, a: seq<Seed>,
      b: seq<Seed>)
    requires UniqueIds(a) && UniqueIds(b) && |a| == |b| && forall s :: s in a <==> s in b
    ensures DeriveHandSeed(rules, serverSeed, beacon, a) == DeriveHandSeed(rules, serverSeed, beacon, b)
  {
    SortSeeds(a);
    SortSeeds(b);
    SortedUniquely(Seats.SortBySeat(IdOf, a), Seats.SortBySeat(IdOf, b));
  }

  /**
   * The hand seed binds everything it is derived from: rules, server seed, the beacon's source, round and
   * randomness, and every player's seed.
   */
  lemma {:induction false} DerivationBinds(rules: Rules, serverSeed: nat, beacon: Beacon, seeds: seq<Seed>,
      rules': Rules, serverSeed': nat, beacon': Beacon, seeds': seq<Seed>)
    requires DeriveHandSeed(rules, serverSeed, beacon, seeds).Ok?
    requires DeriveHandSeed(rules, serverSeed, beacon, seeds) == DeriveHandSeed(rules', serverSeed', beacon', seeds')
    ensures rules == rules' && serverSeed == serverSeed' && SameDraw(beacon, beacon')
    ensures |seeds| == |seeds'| && forall s :: s in seeds <==> s in seeds'
  {
    SortSeeds(seeds);
    SortSeeds(seeds');
  }

  /** Beacons of the same draw; the chain they were drawn from aside. */
  predicate SameDraw(a: Beacon, b: Beacon) {
    a.source == b.source && a.round == b.round && a.randomness == b.randomness
  }

  /** Different hand seeds deal differently, as keyed hashing idealised does. */
  ghost predicate DealsApart(dealer: Dealer) {
    forall a: HandSeed, b: HandSeed :: dealer(a) == dealer(b) ==> a == b
  }

  /** With such a dealer, equal roots come from equal inputs. */
  lemma {:induction false} RootBindsSeed(dealer: Dealer, a: HandSeed, b: HandSeed)
    requires DealsApart(dealer) && DeckOf(dealer(a)).root == DeckOf(dealer(b)).root
    ensures a == b
  {
    RootDeterminesDeck(dealer(a).order, dealer(a).nonces, dealer(b).order, dealer(b).nonces);
  }

  // ----- The committed hand and its audit -----

  datatype PublicRecord = PublicRecord(
    rules: Rules,
    rulesHash: Rules,
    serverCommitment: Commitment,
    playerCommitments: seq<Committed>,
    beacon: Beacon,
    deckRoot: Digest)

  datatype CommittedHand = CommittedHand(record: PublicRecord, serverSeed: nat, playerSeeds: seq<Seed>,
    deck: CommittedDeck)

  function CommitOf(s: Seed): Committed { Committed(s.playerId, PlayerSeed(s.playerId, s.seed)) }

  function CreateCommittedHand(dealer: Dealer, rules: Rules, beacon: Beacon, players: seq<Seed>, serverSeed: nat)
    : Result<CommittedHand, FairnessError>
  {
    if !(2 <= |players| <= 9) then Err(InvalidPlayers)
    else if !UniqueIds(players) then Err(DuplicatePlayer)
    else
      var sorted := Seats.SortBySeat(IdOf, players);
      var handSeed :- DeriveHandSeed(rules, serverSeed, beacon, sorted);
      var deck := DeckOf(dealer(handSeed));
      Ok(CommittedHand(
        PublicRecord(rules, rules, ServerSeed(serverSeed), Map(CommitOf, sorted), beacon, deck.root),
        serverSeed, sorted, deck))
  }

  /** The commitment listed for a player; a later duplicate would win, but duplicates are refused. */
  function CommitmentFor(commitments: seq<Committed>, playerId: nat): Option<Commitment> {
    if commitments == [] then None
    else match CommitmentFor(commitments[1..], playerId)
      case Some(c) => Some(c)
      case None => if commitments[0].playerId == playerId then Some(commitments[0].commitment) else None
  }

  predicate Opens(commitments: seq<Committed>, s: Seed) {
    CommitmentFor(commitments, s.playerId) == Some(PlayerSeed(s.playerId, s.seed))
  }

  predicate UniqueCommitters(commitments: seq<Committed>) {
    forall i, j :: 0 <= i < j < |commitments| ==> commitments[i].playerId != commitments[j].playerId
  }

  /** The local checks of an audit, with the deck they reconstruct. */
  function VerifyAudit(dealer: Dealer, record: PublicRecord, serverSeed: nat,
      playerSeeds: seq<Seed>): Option<CommittedDeck> {
    if !(record.serverCommitment == ServerSeed(serverSeed)
         && UniqueCommitters(record.playerCommitments)
         && |playerSeeds| == |record.playerCommitments|
         && (forall s :: s in playerSeeds ==> Opens(record.playerCommitments, s))
         && record.rules == record.rulesHash) then None
    else match DeriveHandSeed(record.rulesHash, serverSeed, record.beacon, playerSeeds)
      case Err(_) => None
      case Ok(handSeed) =>
        var deck := DeckOf(dealer(handSeed));
        if deck.root == record.deckRoot then Some(deck) else None
  }

  lemma {:induction false} ListedCommitment(seeds: seq<Seed>, i: nat)
    requires UniqueIds(seeds) && i < |seeds|
    ensures Opens(Map(CommitOf, seeds), seeds[i])
  {
    var commitments := Map(CommitOf, seeds);
    assert commitments[1..] == Map(CommitOf, seeds[1..]);
    if i > 0 {
      ListedCommitment(seeds[1..], i - 1);
    } else {
      NotListed(seeds[1..], seeds[0].playerId);
    }
  }

  lemma {:induction false} NotListed(seeds: seq<Seed>, playerId: nat)
    requires forall i :: 0 <= i < |seeds| ==> seeds[i].playerId != playerId
    ensures CommitmentFor(Map(CommitOf, seeds), playerId) == None
  {
    if seeds != [] {
      NotListed(seeds[1..], playerId);
      assert Map(CommitOf, seeds)[1..] == Map(CommitOf, seeds[1..]);
    }
  }

  lemma {:induction false} SortSorted(seeds: seq<Seed>)
    requires UniqueIds(seeds)
    ensures Seats.SortBySeat(IdOf, Seats.SortBySeat(IdOf, seeds)) == Seats.SortBySeat(IdOf, seeds)
  {
    var once := Seats.SortBySeat(IdOf, seeds);
    SortSeeds(seeds);
    SortSeeds(once);
    SortedUniquely(Seats.SortBySeat(IdOf, once), once);
  }

  /** Every hand the dealer commits passes its own audit, and the audit rebuilds the dealt deck. */
  lemma {:induction false} AuditAcceptsHonestHands(dealer: Dealer, rules: Rules, beacon: Beacon, players: seq<Seed>,
      serverSeed: nat)
    requires 2 <= |players| <= 9 && UniqueIds(players)
    ensures CreateCommittedHand(dealer, rules, beacon, players, serverSeed).Ok?
    ensures var hand := CreateCommittedHand(dealer, rules, beacon, players, serverSeed).value;
      VerifyAudit(dealer, hand.record, hand.serverSeed, hand.playerSeeds) == Some(hand.deck)
  {
    hide Opens, CommitmentFor, Seats.SortBySeat, DeckOf;
    var sorted := Seats.SortBySeat(IdOf, players);
    SortSeeds(players);
    SortSorted(players);
    var hand := CreateCommittedHand(dealer, rules, beacon, players, serverSeed).value;
    forall s | s in sorted ensures Opens(hand.record.playerCommitments, s) {
      var i :| 0 <= i < |sorted| && sorted[i] == s;
      ListedCommitment(sorted, i);
    }
  }

  /**
   * An accepted audit pins the deal down: any two accepted openings of one record use the same seeds,
   * and the deck they rebuild is the one committed by the record's root.
   */
  lemma {:induction false} AuditDeterminesTheDeal(dealer: Dealer, record: PublicRecord, server: nat, seeds: seq<Seed>,
      server': nat, seeds': seq<Seed>)
    requires VerifyAudit(dealer, record, server, seeds).Some? && VerifyAudit(dealer, record, server', seeds').Some?
    ensures server == server' && forall s :: s in seeds <==> s in seeds'
    ensures VerifyAudit(dealer, record, server, seeds) == VerifyAudit(dealer, record, server', seeds')
    ensures var deck := VerifyAudit(dealer, record, server, seeds).value;
      Commits(deck) && deck.root == record.deckRoot && IsDeck(deck.order)
  {
    SameSeeds(record.playerCommitments, seeds, seeds');
    SameSeeds(record.playerCommitments, seeds', seeds);
    DerivationIgnoresOrder(record.rulesHash, server, record.beacon, seeds, seeds');
  }

  /**
   * An audit passes exactly if the seeds are the committed ones, the server's and each player's once, the
   * record's rules are those hashed, and the deck these inputs and the beacon determine has the root on
   * record.
   */
  lemma {:induction false} AuditPassesIff(dealer: Dealer, record: PublicRecord, server: nat, seeds: seq<Seed>)
    ensures VerifyAudit(dealer, record, server, seeds).Some?
      <==> && record.serverCommitment == ServerSeed(server) && record.rules == record.rulesHash
           && UniqueCommitters(record.playerCommitments) && |seeds| == |record.playerCommitments|
           && (forall s :: s in seeds ==>
                 Committed(s.playerId, PlayerSeed(s.playerId, s.seed)) in record.playerCommitments)
           && |seeds| >= 2 && UniqueIds(seeds)
           && DeckOf(dealer(DeriveHandSeed(record.rules, server, record.beacon, seeds).value)).root
              == record.deckRoot
  {
    if UniqueCommitters(record.playerCommitments) {
      forall s | s in seeds ensures Opens(record.playerCommitments, s) <==> CommitOf(s) in record.playerCommitments {
        OpensIffListed(record.playerCommitments, s);
      }
    }
  }

  lemma {:induction false} OpensIffListed(commitments: seq<Committed>, s: Seed)
    requires UniqueCommitters(commitments)
    ensures Opens(commitments, s) <==> CommitOf(s) in commitments
  {
    if commitments != [] {
      var rest := commitments[1..];
      OpensIffListed(rest, s);
      assert commitments == [commitments[0]] + rest;
      if CommitmentFor(rest, s.playerId).Some? {
        CommitterListed(rest, s.playerId);
        var i :| 0 <= i < |rest| && rest[i].playerId == s.playerId;
        assert commitments[i + 1] == rest[i];
      } else {
        assert CommitOf(s) !in rest;
      }
    }
  }

  lemma {:induction false} CommitterListed(commitments: seq<Committed>, playerId: nat)
    requires CommitmentFor(commitments, playerId).Some?
    ensures exists i :: 0 <= i < |commitments| && commitments[i].playerId == playerId
  {
    if CommitmentFor(commitments[1..], playerId).Some? {
      CommitterListed(commitments[1..], playerId);
      var i :| 0 <= i < |commitments[1..]| && commitments[1..][i].playerId == playerId;
      assert commitments[i + 1].playerId == playerId;
    }
  }

  /** Two listings of all of `ids` that agree on what each id lists contain the same seeds. */
  lemma {:induction false} SameListing(ids: set<nat>, a: seq<Seed>, b: seq<Seed>)
    requires UniqueIds(b) && |b| == |ids|
    requires forall s :: s in a || s in b ==> s.playerId in ids
    requires forall s, t :: s in a && t in b && s.playerId == t.playerId ==> s == t
    ensures forall s :: s in a ==> s in b
  {
    var openers := set s | s in b :: s.playerId;
    IdsCount(b);
    SubsetOfSameSize(openers, ids);
    forall s | s in a ensures s in b {
      assert s.playerId in openers;
      var t :| t in b && t.playerId == s.playerId;
    }
  }

  lemma {:induction false} SameSeeds(commitments: seq<Committed>, a: seq<Seed>, b: seq<Seed>)
    requires UniqueCommitters(commitments) && UniqueIds(b) && |b| == |commitments|
    requires forall s :: s in a ==> Opens(commitments, s)
    requires forall s :: s in b ==> Opens(commitments, s)
    ensures forall s :: s in a ==> s in b
  {
    var committers := set c | c in commitments :: c.playerId;
    CommittersCount(commitments);
    forall s | s in a || s in b ensures s.playerId in committers {
      CommitterListed(commitments, s.playerId);
      var i :| 0 <= i < |commitments| && commitments[i].playerId == s.playerId;
      assert commitments[i] in commitments;
    }
    SameListing(committers, a, b);
  }

  lemma {:induction false} SubsetOfSameSize(a: set<nat>, b: set<nat>)
    requires a <= b && |a| == |b|
    ensures a == b
  {
    assert b == a + (b - a);
  }

  lemma {:induction false} IdsCount(seeds: seq<Seed>)
    requires UniqueIds(seeds)
    ensures |set s | s in seeds :: s.playerId| == |seeds|
  {
    if seeds != [] {
      var last := seeds[|seeds| - 1];
      var rest := seeds[..|seeds| - 1];
      IdsCount(rest);
      assert seeds == rest + [last];
      assert (set s | s in seeds :: s.playerId) == (set s | s in rest :: s.playerId) + {last.playerId};
    }
  }

  lemma {:induction false} CommittersCount(commitments: seq<Committed>)
    requires UniqueCommitters(commitments)
    ensures |set c | c in commitments :: c.playerId| == |commitments|
  {
    if commitments != [] {
      var last := commitments[|commitments| - 1];
      var rest := commitments[..|commitments| - 1];
      CommittersCount(rest);
      assert commitments == rest + [last];
      assert (set c | c in commitments :: c.playerId) == (set c | c in rest :: c.playerId) + {last.playerId};
    }
  }
}
