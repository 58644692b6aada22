/** What layering guarantees every player, when it fails, and that it loses no chip. */
module SidePots {
  import opened Wrappers
  import opened Seqs
  import opened Ledgers
  import opened Pots

  ghost predicate Valid(stakes: seq<Stake>) {
    && |stakes| >= 2
    && (forall i, j :: 0 <= i < j < |stakes| ==> stakes[i].playerId != stakes[j].playerId)
    && (forall i :: 0 <= i < |stakes| ==> stakes[i].contributed >= 0)
  }

  /** The sum over all players of what each of them matches of `cap`. */
  function Capped(stakes: seq<Stake>, cap: int): int {
    if stakes == [] then 0 else Min(stakes[0].contributed, cap) + Capped(stakes[1..], cap)
  }

  function MaxOther(stakes: seq<Stake>, playerId: PlayerId): (r: int)
    ensures r >= 0
  {
    if stakes == [] then 0
    else
      var rest := MaxOther(stakes[1..], playerId);
      if stakes[0].playerId != playerId && stakes[0].contributed > rest then stakes[0].contributed else rest
  }

  /** What the pots a player takes part in amount to, refund included. */
  function PotShare(pots: seq<Pot>, playerId: PlayerId): int {
    if pots == [] then 0
    else (if playerId in pots[0].participants then pots[0].amount else 0) + PotShare(pots[1..], playerId)
  }

  function Share(l: Layering, playerId: PlayerId): int {
    PotShare(l.pots, playerId) + Get(l.refunds, playerId)
  }

  function AtLeast(level: int): Stake -> bool { (s: Stake) => s.contributed >= level }

  // ----- Levels -----

  ghost predicate Rising(levels: seq<int>, previous: int) {
    && (forall k :: 0 <= k < |levels| ==> levels[k] > previous)
    && (forall j, k :: 0 <= j < k < |levels| ==> levels[j] < levels[k])
  }

  /** Every contribution is a level still to come or lies at or below the last one. */
  ghost predicate Levelled(stakes: seq<Stake>, levels: seq<int>, previous: int) {
    && previous >= 0
    && Rising(levels, previous)
    && (forall s :: s in stakes ==> s.contributed <= previous || s.contributed in levels)
    && (forall level :: level in levels ==> exists s :: s in stakes && s.contributed == level)
  }

  lemma {:induction false} InsertRising(x: int, levels: seq<int>)
    requires x > 0 && Rising(levels, 0)
    ensures Rising(InsertLevel(x, levels), 0)
    ensures forall y :: y in InsertLevel(x, levels) <==> y == x || y in levels
  {
    if levels != [] && x > levels[0] {
      InsertRising(x, levels[1..]);
      var rest := InsertLevel(x, levels[1..]);
      forall k | 0 <= k < |rest| ensures levels[0] < rest[k] {
        assert rest[k] in rest;
      }
    }
  }

  lemma {:induction false} LevelsAreLevelled(stakes: seq<Stake>)
    requires forall s :: s in stakes ==> s.contributed >= 0
    ensures Levelled(stakes, Levels(stakes), 0)
  {
    if stakes != [] {
      LevelsAreLevelled(stakes[1..]);
      if stakes[0].contributed > 0 {
        InsertRising(stakes[0].contributed, Levels(stakes[1..]));
      }
      forall level | level in Levels(stakes) ensures exists s :: s in stakes && s.contributed == level {
        if level in Levels(stakes[1..]) {
          var s :| s in stakes[1..] && s.contributed == level;
          assert s in stakes;
        } else {
          assert stakes[0] in stakes;
        }
      }
    }
  }

  lemma {:induction false} NextLevelled(stakes: seq<Stake>, levels: seq<int>, previous: int)
    requires levels != [] && Levelled(stakes, levels, previous)
    ensures Levelled(stakes, levels[1..], levels[0])
    ensures forall s :: s in stakes ==> s.contributed <= previous || s.contributed >= levels[0]
    ensures Count(AtLeast(levels[0]), stakes) >= 1
  {
    forall s | s in stakes ensures s.contributed <= levels[0] || s.contributed in levels[1..] {
      if s.contributed in levels {
        var k :| 0 <= k < |levels| && levels[k] == s.contributed;
        assert k > 0 ==> levels[1..][k - 1] == s.contributed;
      }
    }
    assert levels[0] in levels;
    var s :| s in stakes && s.contributed == levels[0];
    var i :| 0 <= i < |stakes| && stakes[i] == s;
    CountPositive(AtLeast(levels[0]), stakes, i);
    forall level | level in levels[1..] ensures exists s :: s in stakes && s.contributed == level {
      assert level in levels;
    }
  }

  lemma {:induction false} CappedStep(stakes: seq<Stake>, previous: int, level: int)
    requires previous <= level
    requires forall s :: s in stakes ==> s.contributed <= previous || s.contributed >= level
    ensures Capped(stakes, level) - Capped(stakes, previous) == (level - previous) * Count(AtLeast(level), stakes)
  {
    if stakes != [] {
      CappedStep(stakes[1..], previous, level);
      var n := Count(AtLeast(level), stakes[1..]);
      assert (level - previous) * (n + 1) == (level - previous) * n + (level - previous);
    }
  }

  lemma {:induction false} CappedAll(stakes: seq<Stake>, cap: int)
    requires forall s :: s in stakes ==> s.contributed <= cap
    ensures Capped(stakes, cap) == SumOf(Put, stakes)
  {
    if stakes != [] {
      CappedAll(stakes[1..], cap);
    }
  }

  lemma {:induction false} CappedZero(stakes: seq<Stake>)
    requires forall s :: s in stakes ==> s.contributed >= 0
    ensures Capped(stakes, 0) == 0
  {
    if stakes != [] {
      CappedZero(stakes[1..]);
    }
  }

  // ----- One layer -----

  lemma {:induction false} ParticipantsAreCounted(stakes: seq<Stake>, level: int)
    ensures |Participants(stakes, level)| == Count(AtLeast(level), stakes)
  {
    SameCount(stakes, level);
  }

  lemma {:induction false} SameCount(stakes: seq<Stake>, level: int)
    ensures Count((s: Stake) => s.contributed >= level, stakes) == Count(AtLeast(level), stakes)
  {
    if stakes != [] {
      SameCount(stakes[1..], level);
    }
  }

  /** A player's id is among the participants of a level exactly when the player reached it. */
  lemma {:induction false} ParticipantIds(stakes: seq<Stake>, i: nat, level: int)
    requires Valid(stakes) && i < |stakes|
    ensures var participants := Participants(stakes, level);
      && (stakes[i].playerId in Map(IdOf, participants) <==> stakes[i].contributed >= level)
      && (|participants| == 1 ==> (stakes[i].contributed >= level <==> participants[0] == stakes[i]))
  {
    var participants := Participants(stakes, level);
    var ids := Map(IdOf, participants);
    if stakes[i].contributed >= level {
      assert stakes[i] in stakes && stakes[i] in participants;
      var k :| 0 <= k < |participants| && participants[k] == stakes[i];
      assert ids[k] == stakes[i].playerId;
    }
    if stakes[i].playerId in ids {
      var k :| 0 <= k < |ids| && ids[k] == stakes[i].playerId;
      assert participants[k] in stakes;
      var j :| 0 <= j < |stakes| && stakes[j] == participants[k];
      assert j == i;
    }
    if |participants| == 1 {
      assert participants[0] in participants;
    }
  }

  lemma {:induction false} PotShareAppend(pots: seq<Pot>, pot: Pot, playerId: PlayerId)
    ensures PotShare(pots + [pot], playerId)
         == PotShare(pots, playerId) + (if playerId in pot.participants then pot.amount else 0)
  {
    if pots != [] {
      PotShareAppend(pots[1..], pot, playerId);
      assert (pots + [pot])[1..] == pots[1..] + [pot];
    } else {
      assert pots + [pot] == [pot];
    }
  }

  /** A layer adds its whole amount to the share of exactly those who reached it. */
  lemma {:induction false} LayerShare(stakes: seq<Stake>, acc: Layering, previous: int, level: int, next: Layering,
      i: nat)
    requires Valid(stakes) && i < |stakes|
    requires AddLayer(stakes, acc, previous, level) == Ok(next)
    ensures Share(next, stakes[i].playerId) == Share(acc, stakes[i].playerId)
      + (if stakes[i].contributed >= level then (level - previous) * Count(AtLeast(level), stakes) else 0)
  {
    var participants := Participants(stakes, level);
    ParticipantsAreCounted(stakes, level);
    ParticipantIds(stakes, i, level);
    var amount := (level - previous) * |participants|;
    if |participants| == 1 {
      AddChangesOne(acc.refunds, participants[0].playerId, amount);
      assert participants[0] in stakes;
      OwnId(stakes, i, participants[0]);
    } else {
      PotShareAppend(acc.pots, next.pots[|acc.pots|], stakes[i].playerId);
    }
  }

  lemma {:induction false} OwnId(stakes: seq<Stake>, i: nat, s: Stake)
    requires Valid(stakes) && i < |stakes| && s in stakes
    ensures s.playerId == stakes[i].playerId <==> s == stakes[i]
  {
    var j :| 0 <= j < |stakes| && stakes[j] == s;
  }

  lemma {:induction false} LayerMatched(stakes: seq<Stake>, acc: Layering, previous: int, level: int, next: Layering,
      i: nat)
    requires Valid(stakes) && i < |stakes| && previous < level
    requires forall s :: s in stakes ==> s.contributed <= previous || s.contributed >= level
    requires AddLayer(stakes, acc, previous, level) == Ok(next)
    ensures Share(next, stakes[i].playerId) == Share(acc, stakes[i].playerId)
      + (if stakes[i].contributed >= level then Capped(stakes, level) - Capped(stakes, previous) else 0)
  {
    LayerShare(stakes, acc, previous, level, next, i);
    CappedStep(stakes, previous, level);
  }

  // ----- The side-pot theorem -----

  lemma {:induction false} LayersShare(stakes: seq<Stake>, levels: seq<int>, previous: int, acc: Layering, r: Layering,
      i: nat)
    requires Valid(stakes) && i < |stakes| && Levelled(stakes, levels, previous)
    requires Layers(stakes, levels, previous, acc) == Ok(r)
    ensures var p := stakes[i];
      Share(r, p.playerId) == Share(acc, p.playerId)
        + Capped(stakes, p.contributed) - Capped(stakes, Min(p.contributed, previous))
    decreases |levels|
  {
    hide AddLayer, Share, Participants;
    var p := stakes[i];
    assert p in stakes;
    if levels != [] {
      var next := AddLayer(stakes, acc, previous, levels[0]).value;
      NextLevelled(stakes, levels, previous);
      LayerMatched(stakes, acc, previous, levels[0], next, i);
      LayersStep(stakes, levels, previous, acc);
      LayersShare(stakes, levels[1..], levels[0], next, r, i);
    }
  }

  lemma {:induction false} CheckedStakes(stakes: seq<Stake>)
    ensures CheckStakes(stakes).Ok? <==> Valid(stakes)
  {
    var ids := Map(IdOf, stakes);
    if Valid(stakes) {
      assert Distinct(ids);
      AllNonNegative(stakes);
    }
    if CheckStakes(stakes).Ok? {
      forall i, j | 0 <= i < j < |stakes| ensures stakes[i].playerId != stakes[j].playerId {
        assert ids[i] != ids[j];
      }
      forall i | 0 <= i < |stakes| ensures stakes[i].contributed >= 0 {
        assert stakes[i] in stakes;
      }
    }
  }

  lemma {:induction false} AllNonNegative(stakes: seq<Stake>)
    requires Valid(stakes)
    ensures forall s :: s in stakes ==> s.contributed >= 0
  {
  }

  lemma {:induction false} BuiltByLayers(stakes: seq<Stake>, r: Layering)
    requires BuildPots(stakes) == Ok(r)
    ensures Valid(stakes) && Levelled(stakes, Levels(stakes), 0)
    ensures Layers(stakes, Levels(stakes), 0, Layering([], [])) == Ok(r)
  {
    CheckedStakes(stakes);
    AllNonNegative(stakes);
    LevelsAreLevelled(stakes);
  }

  /**
   * The side-pot theorem: the pots a player takes part in, with the player's refund, total what
   * every player matched of this player's contribution.
   */
  lemma {:induction false} SidePotTheorem(stakes: seq<Stake>, r: Layering, i: nat)
    requires BuildPots(stakes) == Ok(r) && i < |stakes|
    ensures Share(r, stakes[i].playerId) == Capped(stakes, stakes[i].contributed)
  {
    BuiltByLayers(stakes, r);
    LayersShare(stakes, Levels(stakes), 0, Layering([], []), r, i);
    CappedZero(stakes);
    assert stakes[i] in stakes;
  }

  // ----- Refunds -----

  function Positive(n: int): int { if n > 0 then n else 0 }

  lemma {:induction false} MaxOtherOf(stakes: seq<Stake>, playerId: PlayerId)
    ensures forall j :: 0 <= j < |stakes| && stakes[j].playerId != playerId
              ==> stakes[j].contributed <= MaxOther(stakes, playerId)
    ensures MaxOther(stakes, playerId) == 0
            || exists j :: 0 <= j < |stakes| && stakes[j].playerId != playerId
                           && stakes[j].contributed == MaxOther(stakes, playerId)
  {
    if stakes != [] {
      MaxOtherOf(stakes[1..], playerId);
      if MaxOther(stakes, playerId) > 0 && MaxOther(stakes, playerId) == MaxOther(stakes[1..], playerId) {
        var j :| 0 <= j < |stakes[1..]| && stakes[1..][j].playerId != playerId
                 && stakes[1..][j].contributed == MaxOther(stakes, playerId);
        assert stakes[j + 1].contributed == MaxOther(stakes, playerId);
      }
    }
  }

  lemma {:induction false} OneIsOther(stakes: seq<Stake>, i: nat, j: nat, k: nat)
    requires Valid(stakes) && i < |stakes| && j < k < |stakes|
    ensures stakes[j].playerId != stakes[i].playerId || stakes[k].playerId != stakes[i].playerId
  {
  }

  lemma {:induction false} AloneIff(stakes: seq<Stake>, i: nat, level: int)
    requires Valid(stakes) && i < |stakes|
    ensures stakes[i].contributed >= level > MaxOther(stakes, stakes[i].playerId)
      <==> |Participants(stakes, level)| == 1 && Participants(stakes, level)[0] == stakes[i]
  {
    var participants := Participants(stakes, level);
    ParticipantIds(stakes, i, level);
    MaxOtherOf(stakes, stakes[i].playerId);
    if stakes[i].contributed >= level > MaxOther(stakes, stakes[i].playerId) {
      ParticipantsAreCounted(stakes, level);
      CountPositive(AtLeast(level), stakes, i);
      if Count(AtLeast(level), stakes) >= 2 {
        var j, k := TwoPositions(AtLeast(level), stakes);
        OneIsOther(stakes, i, j, k);
      }
    } else if |participants| == 1 && participants[0] == stakes[i] && MaxOther(stakes, stakes[i].playerId) >= level {
      assert participants[0] in participants;
      if j :| 0 <= j < |stakes| && stakes[j].playerId != stakes[i].playerId && stakes[j].contributed >= level {
        ParticipantIds(stakes, j, level);
      }
    }
  }

  /** A layer refunds only a player who alone reached it, and then the whole layer. */
  lemma {:induction false} LayerRefund(stakes: seq<Stake>, acc: Layering, previous: int, level: int, next: Layering,
      i: nat)
    requires Valid(stakes) && i < |stakes| && 0 <= previous < level
    requires AddLayer(stakes, acc, previous, level) == Ok(next)
    ensures Get(next.refunds, stakes[i].playerId) == Get(acc.refunds, stakes[i].playerId)
      + (if stakes[i].contributed >= level > MaxOther(stakes, stakes[i].playerId) then level - previous else 0)
  {
    var participants := Participants(stakes, level);
    AloneIff(stakes, i, level);
    if |participants| == 1 {
      AddChangesOne(acc.refunds, participants[0].playerId, level - previous);
      assert participants[0] in participants;
      OwnId(stakes, i, participants[0]);
    }
  }

  lemma {:induction false} MaxOtherBetween(stakes: seq<Stake>, playerId: PlayerId, previous: int, level: int)
    requires forall s :: s in stakes ==> s.contributed <= previous || s.contributed >= level
    requires 0 <= previous < level
    ensures MaxOther(stakes, playerId) <= previous || MaxOther(stakes, playerId) >= level
  {
    MaxOtherOf(stakes, playerId);
  }

  /** What a contribution of `c` exceeds both the next contribution and a level already settled by. */
  function Excess(c: int, other: int, previous: int): int {
    Positive(c - if other > previous then other else previous)
  }

  lemma {:induction false} ExcessStep(c: int, other: int, previous: int, level: int)
    requires previous < level
    requires c <= previous || c >= level
    requires other <= previous || other >= level
    ensures Excess(c, other, previous) == (if c >= level > other then level - previous else 0) + Excess(c, other, level)
  {
  }

  lemma {:induction false} LayersRefund(stakes: seq<Stake>, levels: seq<int>, previous: int, acc: Layering, r: Layering,
      i: nat)
    requires Valid(stakes) && i < |stakes| && Levelled(stakes, levels, previous)
    requires Layers(stakes, levels, previous, acc) == Ok(r)
    ensures Get(r.refunds, stakes[i].playerId) == Get(acc.refunds, stakes[i].playerId)
      + Excess(stakes[i].contributed, MaxOther(stakes, stakes[i].playerId), previous)
    decreases |levels|
  {
    var p := stakes[i];
    assert p in stakes;
    if levels != [] {
      var level := levels[0];
      var next := AddLayer(stakes, acc, previous, level).value;
      LayersStep(stakes, levels, previous, acc);
      NextLevelled(stakes, levels, previous);
      LayerRefund(stakes, acc, previous, level, next, i);
      LayersRefund(stakes, levels[1..], level, next, r, i);
      MaxOtherBetween(stakes, p.playerId, previous, level);
      ExcessStep(p.contributed, MaxOther(stakes, p.playerId), previous, level);
    }
  }

  /** Each player is refunded exactly what nobody else matched: the excess over the next contribution. */
  lemma {:induction false} RefundIsExcess(stakes: seq<Stake>, r: Layering, i: nat)
    requires BuildPots(stakes) == Ok(r) && i < |stakes|
    ensures Get(r.refunds, stakes[i].playerId)
         == Positive(stakes[i].contributed - MaxOther(stakes, stakes[i].playerId))
  {
    BuiltByLayers(stakes, r);
    LayersRefund(stakes, Levels(stakes), 0, Layering([], []), r, i);
  }

  lemma {:induction false} NotBothExceed(stakes: seq<Stake>, i: nat, j: nat)
    requires i < |stakes| && j < |stakes| && stakes[i].playerId != stakes[j].playerId
    ensures stakes[i].contributed <= MaxOther(stakes, stakes[i].playerId)
            || stakes[j].contributed <= MaxOther(stakes, stakes[j].playerId)
  {
    MaxOtherOf(stakes, stakes[i].playerId);
    MaxOtherOf(stakes, stakes[j].playerId);
  }

  lemma {:induction false} AtMostOneRefund(stakes: seq<Stake>, r: Layering, i: nat, j: nat)
    requires BuildPots(stakes) == Ok(r) && i < j < |stakes|
    ensures Get(r.refunds, stakes[i].playerId) == 0 || Get(r.refunds, stakes[j].playerId) == 0
  {
    hide BuildPots, Get, MaxOther;
    RefundIsExcess(stakes, r, i);
    RefundIsExcess(stakes, r, j);
    assert stakes[i].playerId != stakes[j].playerId by {
      BuiltByLayers(stakes, r);
    }
    NotBothExceed(stakes, i, j);
  }

  // ----- Conservation, success and the shape of the pots -----

  lemma {:induction false} LayerTotal(stakes: seq<Stake>, acc: Layering, previous: int, level: int, next: Layering)
    requires previous < level && forall s :: s in stakes ==> s.contributed <= previous || s.contributed >= level
    requires AddLayer(stakes, acc, previous, level) == Ok(next)
    ensures SumOf(AmountOf, next.pots) + Total(next.refunds)
         == SumOf(AmountOf, acc.pots) + Total(acc.refunds) + Capped(stakes, level) - Capped(stakes, previous)
  {
    var participants := Participants(stakes, level);
    ParticipantsAreCounted(stakes, level);
    CappedStep(stakes, previous, level);
    if |participants| == 1 {
      AddChangesOne(acc.refunds, participants[0].playerId, (level - previous) * |participants|);
    } else {
      SumOfConcat(AmountOf, acc.pots, [next.pots[|acc.pots|]]);
    }
  }

  lemma {:induction false} LayersTotal(stakes: seq<Stake>, levels: seq<int>, previous: int, acc: Layering, r: Layering)
    requires Levelled(stakes, levels, previous)
    requires Layers(stakes, levels, previous, acc) == Ok(r)
    ensures SumOf(AmountOf, r.pots) + Total(r.refunds)
         == SumOf(AmountOf, acc.pots) + Total(acc.refunds) + SumOf(Put, stakes) - Capped(stakes, previous)
    decreases |levels|
  {
    if levels == [] {
      CappedAll(stakes, previous);
    } else {
      var next := AddLayer(stakes, acc, previous, levels[0]).value;
      NextLevelled(stakes, levels, previous);
      LayerTotal(stakes, acc, previous, levels[0], next);
      LayersStep(stakes, levels, previous, acc);
      LayersTotal(stakes, levels[1..], levels[0], next, r);
    }
  }

  /** Whoever reached the level of a pot takes part in it; whoever did not fold may win it. */
  ghost predicate PotOf(stakes: seq<Stake>, pot: Pot) {
    && pot.participants == Map(IdOf, Participants(stakes, pot.cap))
    && |pot.participants| >= 2
    && pot.eligible == Map(IdOf, Unfolded(Participants(stakes, pot.cap)))
    && pot.eligible != []
    && pot.amount > 0 && pot.net == pot.amount && pot.rake == 0
  }

  ghost predicate PotsOf(stakes: seq<Stake>, pots: seq<Pot>, top: int) {
    && (forall k :: 0 <= k < |pots| ==> PotOf(stakes, pots[k]) && pots[k].index == k && pots[k].cap <= top)
    && (forall j, k :: 0 <= j < k < |pots| ==> pots[j].cap < pots[k].cap)
  }

  lemma {:induction false} LayerShape(stakes: seq<Stake>, acc: Layering, previous: int, level: int, next: Layering)
    requires previous < level && PotsOf(stakes, acc.pots, previous)
    requires Count(AtLeast(level), stakes) >= 1
    requires AddLayer(stakes, acc, previous, level) == Ok(next)
    ensures PotsOf(stakes, next.pots, level)
    ensures next.pots != [] <==> acc.pots != [] || Count(AtLeast(level), stakes) >= 2
  {
    ParticipantsAreCounted(stakes, level);
    var n := |Participants(stakes, level)|;
    if n >= 2 {
      LayerPot(stakes, acc, previous, level, next);
    }
  }

  lemma {:induction false} LayerPot(stakes: seq<Stake>, acc: Layering, previous: int, level: int, next: Layering)
    requires previous < level && |Participants(stakes, level)| >= 2
    requires AddLayer(stakes, acc, previous, level) == Ok(next)
    ensures exists pot :: next.pots == acc.pots + [pot] && PotOf(stakes, pot)
                          && pot.index == |acc.pots| && pot.cap == level
  {
    Product(level - previous, |Participants(stakes, level)|);
    var pot := next.pots[|acc.pots|];
    assert next.pots == acc.pots + [pot] && PotOf(stakes, pot);
  }

  lemma {:induction false} Product(a: int, b: int)
    requires a > 0 && b > 0
    ensures a * b > 0
  {
  }

  lemma {:induction false} LayersShape(stakes: seq<Stake>, levels: seq<int>, previous: int, acc: Layering, r: Layering)
    requires Levelled(stakes, levels, previous) && PotsOf(stakes, acc.pots, previous)
    requires Layers(stakes, levels, previous, acc) == Ok(r)
    ensures exists top :: PotsOf(stakes, r.pots, top)
    ensures acc.pots != [] ==> r.pots != []
    ensures levels != [] && Count(AtLeast(levels[0]), stakes) >= 2 ==> r.pots != []
    decreases |levels|
  {
    if levels != [] {
      var next := AddLayer(stakes, acc, previous, levels[0]).value;
      NextLevelled(stakes, levels, previous);
      LayerShape(stakes, acc, previous, levels[0], next);
      LayersStep(stakes, levels, previous, acc);
      LayersShape(stakes, levels[1..], levels[0], next, r);
    }
  }

  /** Every level that two or more players reached was reached by somebody who did not fold. */
  ghost predicate OwnedLevels(stakes: seq<Stake>, levels: seq<int>) {
    forall k :: 0 <= k < |levels| && Count(AtLeast(levels[k]), stakes) >= 2
      ==> exists s :: s in stakes && s.contributed >= levels[k] && !s.folded
  }

  lemma {:induction false} LayerSucceeds(stakes: seq<Stake>, acc: Layering, previous: int, level: int)
    requires Count(AtLeast(level), stakes) >= 1
    ensures AddLayer(stakes, acc, previous, level).Ok?
      <==> Count(AtLeast(level), stakes) == 1 || exists s :: s in stakes && s.contributed >= level && !s.folded
  {
    var participants := Participants(stakes, level);
    ParticipantsAreCounted(stakes, level);
    var eligible := Unfolded(participants);
    if s :| s in stakes && s.contributed >= level && !s.folded {
      assert s in participants && s in eligible;
    }
    if eligible != [] {
      assert eligible[0] in eligible;
    }
  }

  lemma {:induction false} LayersSucceed(stakes: seq<Stake>, levels: seq<int>, previous: int, acc: Layering)
    requires Levelled(stakes, levels, previous)
    ensures Layers(stakes, levels, previous, acc).Ok? <==> OwnedLevels(stakes, levels)
    decreases |levels|
  {
    if levels != [] {
      NextLevelled(stakes, levels, previous);
      LayerSucceeds(stakes, acc, previous, levels[0]);
      LayersStep(stakes, levels, previous, acc);
      if AddLayer(stakes, acc, previous, levels[0]).Ok? {
        var next := AddLayer(stakes, acc, previous, levels[0]).value;
        LayersSucceed(stakes, levels[1..], levels[0], next);
        OwnedTail(stakes, levels);
      }
    }
  }

  lemma {:induction false} OwnedTail(stakes: seq<Stake>, levels: seq<int>)
    requires levels != []
    requires Count(AtLeast(levels[0]), stakes) >= 2
             ==> exists s :: s in stakes && s.contributed >= levels[0] && !s.folded
    ensures OwnedLevels(stakes, levels) <==> OwnedLevels(stakes, levels[1..])
  {
    if OwnedLevels(stakes, levels) {
      forall k | 0 <= k < |levels[1..]| && Count(AtLeast(levels[1..][k]), stakes) >= 2
        ensures exists s :: s in stakes && s.contributed >= levels[1..][k] && !s.folded
      {
        assert levels[1..][k] == levels[k + 1];
      }
    }
    if OwnedLevels(stakes, levels[1..]) {
      forall k | 0 <= k < |levels| && Count(AtLeast(levels[k]), stakes) >= 2
        ensures exists s :: s in stakes && s.contributed >= levels[k] && !s.folded
      {
        if k > 0 {
          assert levels[k] == levels[1..][k - 1];
        }
      }
    }
  }

  /**
   * Layering succeeds exactly on valid stakes whose contested levels all have an owner, and then it
   * accounts for every chip, so its conservation check is never what fails.
   */
  lemma {:induction false} BuildPotsSucceedsIff(stakes: seq<Stake>)
    ensures BuildPots(stakes).Ok? <==> Valid(stakes) && OwnedLevels(stakes, Levels(stakes))
    ensures BuildPots(stakes).Ok? ==> var r := BuildPots(stakes).value;
      SumOf(AmountOf, r.pots) + Total(r.refunds) == SumOf(Put, stakes)
    ensures Valid(stakes) && BuildPots(stakes).Err? ==> BuildPots(stakes).error == NoEligiblePlayer
  {
    CheckedStakes(stakes);
    if Valid(stakes) {
      AllNonNegative(stakes);
      LevelsAreLevelled(stakes);
      LayersSucceed(stakes, Levels(stakes), 0, Layering([], []));
      CappedZero(stakes);
      var built := Layers(stakes, Levels(stakes), 0, Layering([], []));
      if built.Ok? {
        LayersTotal(stakes, Levels(stakes), 0, Layering([], []), built.value);
      } else {
        OnlyOwnership(stakes, Levels(stakes), 0, Layering([], []));
      }
    }
  }

  lemma {:induction false} OnlyOwnership(stakes: seq<Stake>, levels: seq<int>, previous: int, acc: Layering)
    requires Layers(stakes, levels, previous, acc).Err?
    ensures Layers(stakes, levels, previous, acc).error == NoEligiblePlayer
    decreases |levels|
  {
    LayersStep(stakes, levels, previous, acc);
    if AddLayer(stakes, acc, previous, levels[0]).Ok? {
      OnlyOwnership(stakes, levels[1..], levels[0], AddLayer(stakes, acc, previous, levels[0]).value);
    }
  }

  /** The pots rise level by level, so each pot's participants include those of every later pot. */
  lemma {:induction false} PotsAreNested(stakes: seq<Stake>, r: Layering)
    requires BuildPots(stakes) == Ok(r)
    ensures forall k :: 0 <= k < |r.pots| ==> PotOf(stakes, r.pots[k]) && r.pots[k].index == k
    ensures forall j, k, p :: 0 <= j < k < |r.pots| && p in r.pots[k].participants ==> p in r.pots[j].participants
    ensures Count((s: Stake) => s.contributed > 0, stakes) >= 2 ==> r.pots != []
  {
    BuiltByLayers(stakes, r);
    LayersShape(stakes, Levels(stakes), 0, Layering([], []), r);
    var top :| PotsOf(stakes, r.pots, top);
    forall j, k, p | 0 <= j < k < |r.pots| && p in r.pots[k].participants
      ensures p in r.pots[j].participants
    {
      LowerLevelHasMore(stakes, r.pots[j].cap, r.pots[k].cap, p);
    }
    if Count((s: Stake) => s.contributed > 0, stakes) >= 2 {
      FirstLevel(stakes);
    }
  }

  lemma {:induction false} LowerLevelHasMore(stakes: seq<Stake>, low: int, high: int, playerId: PlayerId)
    requires low <= high && playerId in Map(IdOf, Participants(stakes, high))
    ensures playerId in Map(IdOf, Participants(stakes, low))
  {
    var above, below := Participants(stakes, high), Participants(stakes, low);
    var k :| 0 <= k < |above| && Map(IdOf, above)[k] == playerId;
    assert above[k] in above && above[k] in below;
    var j :| 0 <= j < |below| && below[j] == above[k];
    assert Map(IdOf, below)[j] == playerId;
  }

  lemma {:induction false} FirstLevel(stakes: seq<Stake>)
    requires Levelled(stakes, Levels(stakes), 0)
    requires Count((s: Stake) => s.contributed > 0, stakes) >= 2
    ensures Levels(stakes) != [] && Count(AtLeast(Levels(stakes)[0]), stakes) >= 2
  {
    var levels := Levels(stakes);
    var i, j := TwoPositions((s: Stake) => s.contributed > 0, stakes);
    assert stakes[i] in stakes && stakes[j] in stakes;
    forall x | x in levels ensures levels[0] <= x {
      var k :| 0 <= k < |levels| && levels[k] == x;
    }
    CountAtLeastTwo(AtLeast(levels[0]), stakes, i, j);
  }

  lemma {:induction false} RefundsStayWithin(stakes: seq<Stake>, levels: seq<int>, previous: int, acc: Layering,
      ids: seq<PlayerId>)
    requires Within(acc.refunds, ids) && Layers(stakes, levels, previous, acc).Ok?
    requires forall s :: s in stakes ==> s.playerId in ids
    ensures Within(Layers(stakes, levels, previous, acc).value.refunds, ids)
    decreases |levels|
  {
    if levels != [] {
      var participants := Participants(stakes, levels[0]);
      if |participants| == 1 {
        assert participants[0] in participants;
        AddStaysWithin(acc.refunds, participants[0].playerId, levels[0] - previous, ids);
      }
      LayersStep(stakes, levels, previous, acc);
      RefundsStayWithin(stakes, levels[1..], levels[0], AddLayer(stakes, acc, previous, levels[0]).value, ids);
    }
  }
}
