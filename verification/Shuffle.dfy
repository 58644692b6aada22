/**
 * The deterministic shuffle of fairness/protocol.js: a byte stream, rejection sampling and
 * Fisher-Yates. HMAC-SHA-256 keyed with the hand seed is an arbitrary function from block numbers
 * to 32-byte blocks.
 */
module Shuffle {
  import opened Seqs
  import opened Numbers

  const UINT32_SPACE := 0x1_0000_0000

  // ----- Fisher-Yates -----

  function Swap<T>(s: seq<T>, i: nat, j: nat): (r: seq<T>)
    requires i < |s| && j < |s|
    ensures |r| == |s|
  {
    s[i := s[j]][j := s[i]]
  }

  /** One draw for each index of the deck, each at most the index; the draw at index 0 is idle. */
  predicate Draws(draws: seq<nat>, n: nat) {
    |draws| == n && forall i :: 0 <= i < n ==> draws[i] <= i
  }

  /** The swaps for the indices from `index` down to 1. */
  function ShuffleFrom<T>(deck: seq<T>, draws: seq<nat>, index: nat): (r: seq<T>)
    requires Draws(draws, |deck|) && (index == 0 || index < |deck|)
    ensures |r| == |deck|
    decreases index
  {
    if index == 0 then deck else ShuffleFrom(Swap(deck, index, draws[index]), draws, index - 1)
  }

  function ShuffleAll<T>(deck: seq<T>, draws: seq<nat>): seq<T>
    requires Draws(draws, |deck|)
  {
    ShuffleFrom(deck, draws, if deck == [] then 0 else |deck| - 1)
  }

  lemma {:induction false} SwapPermutes<T>(s: seq<T>, i: nat, j: nat)
    requires i < |s| && j < |s|
    ensures multiset(Swap(s, i, j)) == multiset(s)
  {
  }

  lemma {:induction false} ShufflePermutes<T>(deck: seq<T>, draws: seq<nat>, index: nat)
    requires Draws(draws, |deck|) && index < |deck|
    ensures multiset(ShuffleFrom(deck, draws, index)) == multiset(deck)
    ensures forall k :: index < k < |deck| ==> ShuffleFrom(deck, draws, index)[k] == deck[k]
    ensures ShuffleFrom(deck, draws, index)[index] == deck[draws[index]]
    decreases index
  {
    if index > 0 {
      SwapPermutes(deck, index, draws[index]);
      ShufflePermutes(Swap(deck, index, draws[index]), draws, index - 1);
    }
  }

  /** Different draws yield different orders: the order determines every draw. */
  lemma {:induction false} ShuffleInjective<T>(deck: seq<T>, a: seq<nat>, b: seq<nat>, index: nat)
    requires Draws(a, |deck|) && Draws(b, |deck|) && index < |deck| && Distinct(deck)
    requires ShuffleFrom(deck, a, index) == ShuffleFrom(deck, b, index)
    ensures a[..index + 1] == b[..index + 1]
    decreases index
  {
    ShufflePermutes(deck, a, index);
    ShufflePermutes(deck, b, index);
    assert a[index] == b[index];
    if index > 0 {
      ShuffleInjective(Swap(deck, index, a[index]), a, b, index - 1);
      assert a[..index + 1] == a[..index] + [a[index]] && b[..index + 1] == b[..index] + [b[index]];
    }
  }

  /** Every order that agrees with the deck above `index` is reached by some draws. */
  lemma {:induction false} ShuffleSurjective<T>(deck: seq<T>, target: seq<T>, index: nat) returns (draws: seq<nat>)
    requires index < |deck| && |target| == |deck| && multiset(target) == multiset(deck)
    requires forall k :: index < k < |deck| ==> target[k] == deck[k]
    ensures Draws(draws, |deck|) && ShuffleFrom(deck, draws, index) == target
    decreases index
  {
    var j := SomePlace(deck, target, index);
    if index == 0 {
      draws := seq(|deck|, i => 0);
      assert deck[0] == target[0];
    } else {
      var swapped := Swap(deck, index, j);
      SwapPermutes(deck, index, j);
      var rest := ShuffleSurjective(swapped, target, index - 1);
      draws := rest[index := j];
      SameBelow(swapped, rest, draws, index - 1);
    }
  }

  /** The card wanted at `index` still lies at or below it. */
  lemma {:induction false} SomePlace<T>(deck: seq<T>, target: seq<T>, index: nat) returns (j: nat)
    requires index < |deck| && |target| == |deck| && multiset(target) == multiset(deck)
    requires forall k :: index < k < |deck| ==> target[k] == deck[k]
    ensures j <= index && deck[j] == target[index]
  {
    var low, high, front := deck[..index + 1], deck[index + 1..], target[..index + 1];
    assert deck == low + high && target[index + 1..] == high;
    assert target == front + high;
    assert multiset(front + high) == multiset(low + high);
    assert multiset(front + high) == multiset(front) + multiset(high);
    assert multiset(low + high) == multiset(low) + multiset(high);
    assert multiset(front) == multiset(front + high) - multiset(high) == multiset(low);
    assert front[index] in multiset(front);
    j :| 0 <= j < |low| && low[j] == target[index];
  }

  lemma {:induction false} SameBelow<T>(deck: seq<T>, a: seq<nat>, b: seq<nat>, index: nat)
    requires Draws(a, |deck|) && Draws(b, |deck|) && index < |deck|
    requires forall k :: 0 <= k <= index ==> a[k] == b[k]
    ensures ShuffleFrom(deck, a, index) == ShuffleFrom(deck, b, index)
    decreases index
  {
    if index > 0 {
      SameBelow(Swap(deck, index, a[index]), a, b, index - 1);
    }
  }

  predicate Reorders<T(==)>(target: seq<T>, deck: seq<T>) {
    multiset(target) == multiset(deck)
  }

  lemma {:induction false} EmptyShuffle<T(!new)>(deck: seq<T>)
    requires deck == []
    ensures forall draws :: Draws(draws, 0) ==> ShuffleAll(deck, draws) == deck && draws == []
    ensures forall target :: Reorders(target, deck) ==> Draws([], 0) && ShuffleAll(deck, []) == target
  {
    forall target: seq<T> | Reorders(target, deck) ensures target == [] {
      assert |multiset(target)| == |target|;
    }
  }

  /**
   * Fisher-Yates is a bijection between draws and orders: every shuffle is a permutation of the deck,
   * and every permutation comes from exactly one vector of draws.
   */
  lemma {:induction false} ShuffleIsBijection<T(!new)>(deck: seq<T>)
    requires Distinct(deck)
    ensures forall draws :: Draws(draws, |deck|) ==> multiset(ShuffleAll(deck, draws)) == multiset(deck)
    ensures forall a, b :: Draws(a, |deck|) && Draws(b, |deck|) && ShuffleAll(deck, a) == ShuffleAll(deck, b) ==> a == b
    ensures forall target :: Reorders(target, deck) ==>
              exists draws :: Draws(draws, |deck|) && ShuffleAll(deck, draws) == target
  {
    if deck == [] {
      EmptyShuffle(deck);
      return;
    }
    var last := |deck| - 1;
    forall draws | Draws(draws, |deck|) ensures multiset(ShuffleAll(deck, draws)) == multiset(deck) {
      ShufflePermutes(deck, draws, last);
    }
    forall a, b | Draws(a, |deck|) && Draws(b, |deck|) && ShuffleAll(deck, a) == ShuffleAll(deck, b)
      ensures a == b
    {
      ShuffleInjective(deck, a, b, last);
      assert a == a[..last + 1] && b == b[..last + 1];
    }
    forall target: seq<T> | Reorders(target, deck)
      ensures exists draws :: Draws(draws, |deck|) && ShuffleAll(deck, draws) == target
    {
      assert |multiset(target)| == |target| && |multiset(deck)| == |deck|;
      var draws := ShuffleSurjective(deck, target, last);
    }
  }

  // ----- Drawing without replacement -----

  /**
   * The same shuffle told with a shrinking pile: the card drawn goes to the last free place, and the last
   * card of the pile takes its place in the pile.
   */
  function DrawOut<T>(pile: seq<T>, draws: seq<nat>): (r: seq<T>)
    requires Draws(draws, |pile|)
    ensures |r| == |pile|
    decreases |pile|
  {
    if pile == [] then []
    else
      var n := |pile| - 1;
      DrawOut(Without(pile, draws[n]), draws[..n]) + [pile[draws[n]]]
  }

  function Without<T>(pile: seq<T>, j: nat): (r: seq<T>)
    requires j < |pile|
    ensures |r| == |pile| - 1
  {
    var n := |pile| - 1;
    if j == n then pile[..n] else pile[..n][j := pile[n]]
  }

  /** Swapping in place draws the cards one after another from those not drawn before. */
  lemma {:induction false} ShuffleIsDrawing<T>(deck: seq<T>, draws: seq<nat>)
    requires Draws(draws, |deck|)
    ensures ShuffleAll(deck, draws) == DrawOut(deck, draws)
  {
    if deck != [] {
      var n := |deck| - 1;
      PileUnderDeck(deck, draws, n);
      assert deck[..n + 1] == deck && draws[..n + 1] == draws && deck[n + 1..] == [];
    }
  }

  lemma {:induction false} PileUnderDeck<T>(deck: seq<T>, draws: seq<nat>, index: nat)
    requires Draws(draws, |deck|) && index < |deck|
    ensures ShuffleFrom(deck, draws, index) == DrawOut(deck[..index + 1], draws[..index + 1]) + deck[index + 1..]
    decreases index
  {
    hide Swap, Without;
    if index == 0 {
      assert DrawOut(Without(deck[..1], 0), draws[..0]) == [];
      assert deck == [deck[0]] + deck[1..];
    } else {
      var swapped := Swap(deck, index, draws[index]);
      PileUnderDeck(swapped, draws, index - 1);
      SwapDraws(deck, index, draws[index]);
      DrawOne(deck[..index + 1], draws[..index + 1], draws[..index]);
    }
  }

  lemma {:induction false} DrawOne<T>(pile: seq<T>, draws: seq<nat>, rest: seq<nat>)
    requires pile != [] && Draws(draws, |pile|) && rest == draws[..|pile| - 1]
    ensures DrawOut(pile, draws)
      == DrawOut(Without(pile, draws[|pile| - 1]), rest) + [pile[draws[|pile| - 1]]]
  {
  }

  lemma {:induction false} SwapDraws<T>(deck: seq<T>, index: nat, j: nat)
    requires 0 < index < |deck| && j <= index
    ensures Swap(deck, index, j)[..index] == Without(deck[..index + 1], j)
    ensures Swap(deck, index, j)[index..] == [deck[j]] + deck[index + 1..]
  {
  }

  // ----- Rejection sampling -----

  /** The greatest multiple of the range among 32-bit numbers; samples from it on are rejected. */
  function Limit(range: nat): nat
    requires range > 0
  {
    UINT32_SPACE / range * range
  }

  /** How many accepted samples reduce to the residue. */
  ghost function Accepted(range: nat, residue: nat, below: nat): set<nat>
    requires range > 0
  {
    set s: nat | s < below && s % range == residue
  }

  lemma {:induction false} AcceptedCount(range: nat, residue: nat, quotient: nat)
    requires residue < range
    ensures |Accepted(range, residue, quotient * range)| == quotient
  {
    if quotient == 0 {
      assert Accepted(range, residue, 0) == {};
    } else {
      hide Accepted;
      AcceptedCount(range, residue, quotient - 1);
      PreviousMultiple(quotient, range);
      OneMoreAccepted(range, residue, (quotient - 1) * range, quotient * range);
    }
  }

  lemma {:induction false} PreviousMultiple(quotient: nat, range: nat)
    requires quotient > 0 && range > 0
    ensures quotient * range == (quotient - 1) * range + range && ((quotient - 1) * range) % range == 0
  {
    Distribute(quotient - 1, 1, range);
    ModOffset(0, range, quotient - 1);
  }

  /** Each further block of `range` samples accepts one more sample of the residue. */
  lemma {:induction false} OneMoreAccepted(range: nat, residue: nat, low: nat, high: nat)
    requires residue < range && high == low + range && low % range == 0
    ensures |Accepted(range, residue, high)| == |Accepted(range, residue, low)| + 1
  {
    forall s: nat ensures s in Accepted(range, residue, high) <==>
      s == low + residue || s in Accepted(range, residue, low) {
      if low <= s < high {
        OffsetOf(low, s - low, range);
      }
    }
    assert Accepted(range, residue, high) == Accepted(range, residue, low) + {low + residue};
  }

  lemma {:induction false} OffsetOf(low: nat, offset: nat, range: nat)
    requires offset < range && low % range == 0
    ensures (low + offset) % range == offset
  {
    ModOffset(offset, range, low / range);
  }

  lemma {:induction false} ModOffset(r: nat, range: nat, times: nat)
    requires r < range
    ensures (times * range + r) % range == r && (times * range + r) / range == times
  {
    var value := times * range + r;
    SameDivision(times, r, value / range, value % range, range);
  }

  lemma {:induction false} SameDivision(a: int, r: nat, b: int, m: nat, range: nat)
    requires r < range && m < range && a * range + r == b * range + m
    ensures a == b && r == m
  {
    if a < b {
      NextMultiple(a, b, range);
    } else if b < a {
      NextMultiple(b, a, range);
    }
  }

  /**
   * Rejection makes the draw exactly uniform: each residue has the same number of accepted 32-bit
   * samples, and the samples above the limit are fewer than the range.
   */
  lemma {:induction false} SamplingIsUniform(range: nat, residue: nat)
    requires 1 <= range <= 52 && residue < range
    ensures |Accepted(range, residue, Limit(range))| == Limit(range) / range == UINT32_SPACE / range
    ensures UINT32_SPACE - Limit(range) < range && Limit(range) > 0
  {
    AcceptedCount(range, residue, UINT32_SPACE / range);
    ModOffset(0, range, UINT32_SPACE / range);
    assert UINT32_SPACE == Limit(range) + UINT32_SPACE % range;
    assert UINT32_SPACE / range > 0;
  }

  // ----- The stream -----

  type Block = b: seq<byte> | |b| == 32 witness seq(32, i => 0)

  /** Byte `i` of the unending output: block i / 32 is the HMAC of that counter. */
  function ByteAt(block: nat -> Block, i: nat): byte {
    block(i / 32)[i % 32]
  }

  function Slice(block: nat -> Block, from: nat, to: nat): (r: seq<byte>)
    requires from <= to
    ensures |r| == to - from
  {
    seq(to - from, i requires 0 <= i < to - from => ByteAt(block, from + i))
  }

  lemma {:induction false} SliceGrows(block: nat -> Block, from: nat, counter: nat)
    requires from <= 32 * counter
    ensures Slice(block, from, 32 * counter + 32) == Slice(block, from, 32 * counter) + block(counter)
  {
    var all := Slice(block, from, 32 * counter + 32);
    forall i | 0 <= i < 32 ensures all[32 * counter - from + i] == block(counter)[i] {
      assert all[32 * counter - from + i] == ByteAt(block, 32 * counter + i);
    }
  }

  function BigEndian(b: seq<byte>): nat
    requires |b| == 4
  {
    ((b[0] as int * 256 + b[1] as int) * 256 + b[2] as int) * 256 + b[3] as int
  }

  /** The 32-bit sample read at a position of the stream. */
  function Sample(block: nat -> Block, at: nat): nat {
    BigEndian(Slice(block, at, at + 4))
  }

  /** The first of the successive samples from `at` on that is below the limit is number `tries`. */
  ghost predicate FirstBelow(block: nat -> Block, at: nat, limit: nat, tries: nat) {
    Sample(block, at + 4 * tries) < limit && forall k: nat :: k < tries ==> Sample(block, at + 4 * k) >= limit
  }

  /** The stream does not reject for ever; this is assumed of HMAC. */
  ghost predicate Productive(block: nat -> Block) {
    forall at: nat, range: nat :: 1 <= range <= 52 ==> Settles(block, at, range)
  }

  ghost predicate Settles(block: nat -> Block, at: nat, range: nat)
    requires range > 0
  {
    exists tries: nat :: FirstBelow(block, at, Limit(range), tries)
  }

  ghost function Tries(block: nat -> Block, at: nat, range: nat): (tries: nat)
    requires Productive(block) && 1 <= range <= 52
    ensures FirstBelow(block, at, Limit(range), tries)
  {
    assert Settles(block, at, range);
    var tries: nat :| FirstBelow(block, at, Limit(range), tries);
    tries
  }

  /** The draw for a range at a position, and the position after it. */
  ghost function DrawBelow(block: nat -> Block, at: nat, range: nat): (r: nat)
    requires Productive(block) && 1 <= range <= 52
    ensures r < range
  {
    Sample(block, at + 4 * Tries(block, at, range)) % range
  }

  ghost function After(block: nat -> Block, at: nat, range: nat): nat
    requires Productive(block) && 1 <= range <= 52
  {
    at + 4 * Tries(block, at, range) + 4
  }

  /** The draws the stream yields from a position for the indices from `index` down to 1. */
  ghost function StreamDraws(block: nat -> Block, at: nat, index: nat): (draws: seq<nat>)
    requires Productive(block) && index < 52
    ensures Draws(draws, index + 1)
    decreases index
  {
    if index == 0 then [0]
    else StreamDraws(block, After(block, at, index + 1), index - 1) + [DrawBelow(block, at, index + 1)]
  }

  lemma {:induction false} DrawsStep(block: nat -> Block, at: nat, index: nat, draws: seq<nat>)
    requires Productive(block) && 0 < index < 52 && index < |draws|
        && StreamDraws(block, at, index) == draws[..index + 1]
    ensures draws[index] == DrawBelow(block, at, index + 1)
    ensures StreamDraws(block, After(block, at, index + 1), index - 1) == draws[..index]
  {
    assert draws[..index + 1][..index] == draws[..index];
    assert draws[..index + 1][index] == draws[index];
  }

  /** A sample is four successive bytes, the most significant first. */
  lemma {:induction false} SampleDigits(block: nat -> Block, at: nat)
    ensures Sample(block, at) < UINT32_SPACE
    ensures Sample(block, at) / 0x100_0000 == block(at / 32)[at % 32] as int
    ensures Sample(block, at) / 0x1_0000 % 256 == block((at + 1) / 32)[(at + 1) % 32] as int
    ensures Sample(block, at) / 256 % 256 == block((at + 2) / 32)[(at + 2) % 32] as int
    ensures Sample(block, at) % 256 == block((at + 3) / 32)[(at + 3) % 32] as int
  {
    var b := Slice(block, at, at + 4);
    assert b[0] == ByteAt(block, at) && b[1] == ByteAt(block, at + 1);
    assert b[2] == ByteAt(block, at + 2) && b[3] == ByteAt(block, at + 3);
    FourDigits(b[0] as int, b[1] as int, b[2] as int, b[3] as int);
  }

  lemma {:induction false} FourDigits(a: nat, b: nat, c: nat, d: nat)
    requires a < 256 && b < 256 && c < 256 && d < 256
    ensures var n := ((a * 256 + b) * 256 + c) * 256 + d;
      n < UINT32_SPACE && n / 0x100_0000 == a && n / 0x1_0000 % 256 == b && n / 256 % 256 == c && n % 256 == d
  {
  }

  /** The draw for the highest index comes first in the stream; the others follow after its samples. */
  lemma {:induction false} HighestDrawsFirst(block: nat -> Block, at: nat, index: nat, tries: nat)
    requires Productive(block) && 0 < index < 52
    requires FirstBelow(block, at, UINT32_SPACE / (index + 1) * (index + 1), tries)
    ensures var draws := StreamDraws(block, at, index);
      draws[index] == Sample(block, at + 4 * tries) % (index + 1)
      && draws[..index] == StreamDraws(block, at + 4 * tries + 4, index - 1)
  {
    var first := Tries(block, at, index + 1);
    assert first == tries;
  }

  // ----- No order is out of reach -----

  /** A stream whose k-th sample is the draw for the k-th index from the top, and zero after that. */
  function Scripted(draws: seq<nat>): nat -> Block
    requires Draws(draws, 52)
  {
    (n: nat) => ScriptedBlock(draws, n)
  }

  function ScriptedBlock(draws: seq<nat>, n: nat): Block
    requires Draws(draws, 52)
  {
    var b: seq<byte> := seq(32, i requires 0 <= i < 32 => ScriptedByte(draws, 32 * n + i));
    assert |b| == 32;
    b
  }

  function ScriptedByte(draws: seq<nat>, at: nat): byte
    requires Draws(draws, 52)
  {
    if at % 4 == 3 && at / 4 < 52 then draws[51 - at / 4] as byte else 0
  }

  lemma {:induction false} ScriptedBytes(draws: seq<nat>, at: nat)
    requires Draws(draws, 52)
    ensures ByteAt(Scripted(draws), at) == ScriptedByte(draws, at)
  {
    assert 32 * (at / 32) + at % 32 == at;
  }

  /** No window of four scripted bytes is rejected, wherever it starts. */
  lemma {:induction false} ScriptedIsAccepted(draws: seq<nat>, at: nat, range: nat)
    requires Draws(draws, 52) && 1 <= range <= 52
    ensures FirstBelow(Scripted(draws), at, Limit(range), 0)
  {
    hide Scripted, Limit, BigEndian;
    SamplingIsUniform(range, 0);
    ScriptedBytes(draws, at);
    SmallFirst(Slice(Scripted(draws), at, at + 4));
  }

  lemma {:induction false} ScriptedSample(draws: seq<nat>, k: nat)
    requires Draws(draws, 52) && k < 52
    ensures Sample(Scripted(draws), 4 * k) == draws[51 - k]
  {
    hide Scripted, BigEndian;
    var at := 4 * k;
    ScriptedBytes(draws, at);
    ScriptedBytes(draws, at + 1);
    ScriptedBytes(draws, at + 2);
    ScriptedBytes(draws, at + 3);
    SmallFirst(Slice(Scripted(draws), at, at + 4));
  }

  lemma {:induction false} SmallFirst(b: seq<byte>)
    requires |b| == 4 && b[0] < 52
    ensures BigEndian(b) < UINT32_SPACE - 52
    ensures b[0] == b[1] == b[2] == 0 ==> BigEndian(b) == b[3] as int
  {
  }

  lemma {:induction false} ScriptedIsProductive(draws: seq<nat>)
    requires Draws(draws, 52)
    ensures Productive(Scripted(draws))
  {
    forall at: nat, range: nat | 1 <= range <= 52 ensures Settles(Scripted(draws), at, range) {
      ScriptedIsAccepted(draws, at, range);
    }
  }

  lemma {:induction false} ScriptedStep(draws: seq<nat>, index: nat)
    requires Draws(draws, 52) && 0 < index < 52 && Productive(Scripted(draws))
    ensures var all := StreamDraws(Scripted(draws), 4 * (51 - index), index);
      all[index] == draws[index] && all[..index] == StreamDraws(Scripted(draws), 4 * (52 - index), index - 1)
  {
    hide Productive, Scripted, Sample, FirstBelow, StreamDraws;
    var block, at := Scripted(draws), 4 * (51 - index);
    ScriptedIsAccepted(draws, at, index + 1);
    ScriptedSample(draws, 51 - index);
    HighestDrawsFirst(block, at, index, 0);
    SmallModulo(draws[index], index + 1);
  }

  lemma {:induction false} SmallModulo(n: nat, range: nat)
    requires n < range
    ensures n % range == n
  {
  }

  lemma {:induction false} ScriptedDraws(draws: seq<nat>, index: nat)
    requires Draws(draws, 52) && index < 52 && Productive(Scripted(draws))
    ensures StreamDraws(Scripted(draws), 4 * (51 - index), index) == draws[..index + 1]
  {
    hide Productive, Scripted, StreamDraws;
    if index > 0 {
      ScriptedDraws(draws, index - 1);
      ScriptedStep(draws, index);
      var all := StreamDraws(Scripted(draws), 4 * (51 - index), index);
      assert all == all[..index] + [all[index]];
      assert draws[..index + 1] == draws[..index] + [draws[index]];
    } else {
      LastDrawIsIdle(draws);
    }
  }

  lemma {:induction false} LastDrawIsIdle(draws: seq<nat>)
    requires Draws(draws, 52) && Productive(Scripted(draws))
    ensures StreamDraws(Scripted(draws), 4 * 51, 0) == draws[..1]
  {
  }

  /** Every order of the 52 cards is dealt from some stream. */
  lemma {:induction false} EveryOrderIsDealt(order: seq<nat>) returns (block: nat -> Block)
    requires multiset(order) == multiset(Deck())
    ensures Productive(block) && ShuffleAll(Deck(), StreamDraws(block, 0, 51)) == order
  {
    hide Productive, StreamDraws, ShuffleFrom, Scripted;
    assert |multiset(order)| == |order| && |multiset(Deck())| == |Deck()|;
    var draws := ShuffleSurjective(Deck(), order, 51);
    block := Scripted(draws);
    ScriptedIsProductive(draws);
    ScriptedDraws(draws, 51);
    assert draws[..52] == draws;
  }

  class HmacStream {
    const block: nat -> Block
    var counter: nat
    var buffer: seq<byte>

    ghost predicate Valid()
      reads this
    {
      |buffer| <= 32 * counter && buffer == Slice(block, 32 * counter - |buffer|, 32 * counter)
    }

    /** How many bytes have been handed out. */
    ghost function Position(): nat
      requires Valid()
      reads this
    {
      32 * counter - |buffer|
    }

    constructor (block: nat -> Block)
      ensures Valid() && Position() == 0 && this.block == block
    {
      this.block := block;
      counter := 0;
      buffer := [];
    }

    /** Hands out the next bytes of the stream, whatever blocks the buffer held before. */
    method Bytes(length: nat) returns (output: seq<byte>)
      requires Valid() && length > 0
      modifies this
      ensures Valid() && Position() == old(Position()) + length
      ensures output == Slice(block, old(Position()), Position())
    {
      while |buffer| < length
        invariant Valid() && Position() == old(Position())
        decreases length - |buffer|
      {
        SliceGrows(block, Position(), counter);
        buffer := buffer + block(counter);
        counter := counter + 1;
      }
      output := buffer[..length];
      buffer := buffer[length..];
    }

    /** Rejects samples at or above the limit, so the draw is the first acceptable one reduced. */
    method Below(range: nat) returns (draw: nat)
      requires Valid() && Productive(block) && 1 <= range <= 52
      modifies this
      ensures Valid() && Position() == After(block, old(Position()), range)
      ensures draw == DrawBelow(block, old(Position()), range)
    {
      var limit := Limit(range);
      ghost var start, tries := Position(), Tries(block, Position(), range);
      ghost var tried := 0;
      var bytes := Bytes(4);
      var sample := BigEndian(bytes);
      while sample >= limit
        invariant Valid() && tried <= tries && Position() == start + 4 * tried + 4
        invariant sample == Sample(block, start + 4 * tried)
        invariant forall k: nat :: k < tried ==> Sample(block, start + 4 * k) >= limit
        decreases tries - tried
      {
        bytes := Bytes(4);
        sample := BigEndian(bytes);
        tried := tried + 1;
      }
      draw := sample % range;
    }
  }

  function Deck(): (deck: seq<nat>)
    ensures Distinct(deck) && |deck| == 52
  {
    seq(52, i => i)
  }

  method CreateDeck() returns (deck: seq<nat>)
    ensures deck == Deck()
  {
    deck := [];
    for suit := 0 to 4
      invariant deck == Deck()[..suit * 13]
    {
      for rank := 0 to 13
        invariant deck == Deck()[..suit * 13 + rank]
      {
        deck := deck + [suit * 13 + rank];
      }
    }
  }

  lemma {:induction false} ShuffleStep<T>(deck: seq<T>, draws: seq<nat>, index: nat, target: seq<T>)
    requires Draws(draws, |deck|) && 0 < index < |deck| && ShuffleFrom(deck, draws, index) == target
    ensures ShuffleFrom(Swap(deck, index, draws[index]), draws, index - 1) == target
  {
  }

  /** One turn of the loop: swap the card at the index with the one drawn. */
  method SwapOnce(deck: array<nat>, stream: HmacStream, index: nat)
    requires index < deck.Length <= 52 && stream.Valid() && Productive(stream.block)
    modifies deck, stream
    ensures stream.Valid() && stream.Position() == After(stream.block, old(stream.Position()), index + 1)
    ensures deck[..] == Swap(old(deck[..]), index, DrawBelow(stream.block, old(stream.Position()), index + 1))
  {
    var swapIndex := stream.Below(index + 1);
    deck[index], deck[swapIndex] := deck[swapIndex], deck[index];
  }

  /** The in-place shuffle computes the Fisher-Yates order for the draws its stream yields. */
  method ShuffleInPlace(deck: array<nat>, stream: HmacStream)
    requires 0 < deck.Length <= 52 && stream.Valid() && Productive(stream.block)
    modifies deck, stream
    ensures deck[..] == ShuffleAll(old(deck[..]), StreamDraws(stream.block, old(stream.Position()), deck.Length - 1))
  {
    hide After, Tries, Productive, Swap, Limit, Sample;
    var index := deck.Length - 1;
    ghost var draws := StreamDraws(stream.block, stream.Position(), index);
    ghost var target := ShuffleAll(deck[..], draws);
    while index > 0
      invariant 0 <= index < deck.Length && stream.Valid()
      invariant StreamDraws(stream.block, stream.Position(), index) == draws[..index + 1]
      invariant ShuffleFrom(deck[..], draws, index) == target
    {
      DrawsStep(stream.block, stream.Position(), index, draws);
      ShuffleStep(deck[..], draws, index, target);
      SwapOnce(deck, stream, index);
      index := index - 1;
    }
  }

  /** Every productive seed deals a permutation of the 52 cards. */
  method ShuffleDeck(block: nat -> Block) returns (deck: seq<nat>)
    requires Productive(block)
    ensures deck == ShuffleAll(Deck(), StreamDraws(block, 0, 51))
    ensures multiset(deck) == multiset(Deck()) && Distinct(deck)
  {
    var fresh52 := CreateDeck();
    var cards := new nat[52](i requires 0 <= i < 52 => fresh52[i]);
    var stream := new HmacStream(block);
    assert cards[..] == Deck();
    ShuffleInPlace(cards, stream);
    deck := cards[..];
    ShuffledIsDistinct(Deck(), StreamDraws(block, 0, 51));
  }

  lemma {:induction false} ShuffledIsDistinct<T(!new)>(deck: seq<T>, draws: seq<nat>)
    requires Distinct(deck) && Draws(draws, |deck|)
    ensures multiset(ShuffleAll(deck, draws)) == multiset(deck) && Distinct(ShuffleAll(deck, draws))
  {
    ShuffleIsBijection(deck);
    DistinctMultiset(deck, ShuffleAll(deck, draws));
  }

  lemma {:induction false} DistinctMultiset<T>(a: seq<T>, b: seq<T>)
    requires Distinct(a) && multiset(a) == multiset(b)
    ensures Distinct(b)
  {
    forall i, j | 0 <= i < j < |b| ensures b[i] != b[j] {
      if b[i] == b[j] {
        assert b == b[..i] + [b[i]] + b[i + 1..j] + [b[j]] + b[j + 1..];
        assert multiset(b)[b[i]] >= 2;
        DistinctCount(a, b[i]);
        assert false;
      }
    }
  }
}
