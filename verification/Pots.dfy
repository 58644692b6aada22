/** Pot layering, rake and award of pots: server/poker/pots.js. */
module Pots {
  import opened Wrappers
  import opened Seqs
  import opened Ledgers
  import opened Evaluations

  type PlayerId = nat

  datatype Error =
    | TooFewPlayers | DuplicatePlayer | NegativeContribution | NoEligiblePlayer | PotsNotConserved
    | BadRakeBps | BadRakeCap | RakeNotConserved
    | NoPots | BadBoardCount | DuplicateOddChipOrder | MissingRank | WinnerOutsideOrder | AwardsNotConserved

  datatype Stake = Stake(playerId: PlayerId, contributed: int, folded: bool)

  datatype Pot = Pot(
    index: nat,
    amount: int,
    cap: int,
    participants: seq<PlayerId>,
    eligible: seq<PlayerId>,
    rake: int,
    net: int
  )

  function IdOf(s: Stake): PlayerId { s.playerId }

  function Put(s: Stake): int { s.contributed }

  function AmountOf(p: Pot): int { p.amount }

  function RakeOf(p: Pot): int { p.rake }

  function NetOf(p: Pot): int { p.net }

  // ----- Layers -----

  function InsertLevel(x: int, levels: seq<int>): seq<int> {
    if levels == [] || x < levels[0] then [x] + levels
    else if x == levels[0] then levels
    else [levels[0]] + InsertLevel(x, levels[1..])
  }

  /** The distinct positive contributions in ascending order. */
  function Levels(stakes: seq<Stake>): seq<int> {
    if stakes == [] then []
    else if stakes[0].contributed > 0 then InsertLevel(stakes[0].contributed, Levels(stakes[1..]))
    else Levels(stakes[1..])
  }

  function Participants(stakes: seq<Stake>, level: int): seq<Stake> {
    Filter((s: Stake) => s.contributed >= level, stakes)
  }

  function Unfolded(stakes: seq<Stake>): seq<Stake> {
    Filter((s: Stake) => !s.folded, stakes)
  }

  datatype Layering = Layering(pots: seq<Pot>, refunds: Ledger)

  function AddLayer(stakes: seq<Stake>, acc: Layering, previous: int, level: int): Result<Layering, Error> {
    var participants := Participants(stakes, level);
    var amount := (level - previous) * |participants|;
    if |participants| == 1 then
      Ok(acc.(refunds := Add(acc.refunds, participants[0].playerId, amount)))
    else
      var eligible := Unfolded(participants);
      if |eligible| == 0 then Err(NoEligiblePlayer)
      else Ok(acc.(pots := acc.pots + [Pot(|acc.pots|, amount, level, Map(IdOf, participants),
                                           Map(IdOf, eligible), 0, amount)]))
  }

  function Layers(stakes: seq<Stake>, levels: seq<int>, previous: int, acc: Layering): Result<Layering, Error>
    decreases |levels|
  {
    if levels == [] then Ok(acc)
    else
      var next :- AddLayer(stakes, acc, previous, levels[0]);
      Layers(stakes, levels[1..], levels[0], next)
  }

  function CheckStakes(stakes: seq<Stake>): Result<(), Error> {
    if |stakes| < 2 then Err(TooFewPlayers)
    else if !Distinct(Map(IdOf, stakes)) then Err(DuplicatePlayer)
    else if exists s :: s in stakes && s.contributed < 0 then Err(NegativeContribution)
    else Ok(())
  }

  function BuildPots(stakes: seq<Stake>): Result<Layering, Error> {
    var _ :- CheckStakes(stakes);
    var built :- Layers(stakes, Levels(stakes), 0, Layering([], []));
    if SumOf(AmountOf, built.pots) + Total(built.refunds) != SumOf(Put, stakes) then Err(PotsNotConserved)
    else Ok(built)
  }

  lemma {:induction false} LayersStep(stakes: seq<Stake>, levels: seq<int>, previous: int, acc: Layering)
    requires levels != []
    ensures Layers(stakes, levels, previous, acc)
         == match AddLayer(stakes, acc, previous, levels[0])
            case Ok(next) => Layers(stakes, levels[1..], levels[0], next)
            case Err(e) => Err(e)
  {
  }

  /** The layering loop of buildPots. */
  method LayerLoop(stakes: seq<Stake>, levels: seq<int>) returns (r: Result<Layering, Error>)
    ensures r == Layers(stakes, levels, 0, Layering([], []))
  {
    var acc := Layering([], []);
    var previous := 0;
    var i := 0;
    while i < |levels|
      invariant 0 <= i <= |levels|
      invariant Layers(stakes, levels, 0, Layering([], [])) == Layers(stakes, levels[i..], previous, acc)
    {
      LayersStep(stakes, levels[i..], previous, acc);
      assert levels[i..][0] == levels[i] && levels[i..][1..] == levels[i + 1..];
      var layer := LayerOnce(stakes, acc, previous, levels[i]);
      if layer.Err? {
        return layer;
      }
      acc := layer.value;
      previous := levels[i];
      i := i + 1;
    }
    return Ok(acc);
  }

  method LayerOnce(stakes: seq<Stake>, acc: Layering, previous: int, level: int) returns (r: Result<Layering, Error>)
    ensures r == AddLayer(stakes, acc, previous, level)
  {
    var participants := Participants(stakes, level);
    var amount := (level - previous) * |participants|;
    if |participants| == 1 {
      return Ok(acc.(refunds := Add(acc.refunds, participants[0].playerId, amount)));
    }
    var eligible := Unfolded(participants);
    if |eligible| == 0 {
      return Err(NoEligiblePlayer);
    }
    var pot := Pot(|acc.pots|, amount, level, Map(IdOf, participants), Map(IdOf, eligible), 0, amount);
    return Ok(acc.(pots := acc.pots + [pot]));
  }

  method BuildPotsByLayers(stakes: seq<Stake>) returns (r: Result<Layering, Error>)
    ensures r == BuildPots(stakes)
  {
    var checked := CheckStakes(stakes);
    if checked.Err? {
      return Err(checked.error);
    }
    var built := LayerLoop(stakes, Levels(stakes));
    if built.Err? {
      return built;
    }
    if SumOf(AmountOf, built.value.pots) + Total(built.value.refunds) != SumOf(Put, stakes) {
      return Err(PotsNotConserved);
    }
    return built;
  }

  // ----- Rake -----

  datatype Raked = Raked(pots: seq<Pot>, totalRake: int)

  /** Rake is taken from the first pots until `remaining` is used up. */
  function TakeRake(pots: seq<Pot>, remaining: int): (r: seq<Pot>)
    ensures |r| == |pots|
  {
    if pots == [] then []
    else
      var rake := Min(remaining, pots[0].amount);
      [pots[0].(rake := rake, net := pots[0].amount - rake)] + TakeRake(pots[1..], remaining - rake)
  }

  function RakeTarget(pots: seq<Pot>, bps: int, cap: int, flopDealt: bool): int {
    Min(if flopDealt then SumOf(AmountOf, pots) * bps / 10000 else 0, cap)
  }

  function ApplyRake(pots: seq<Pot>, bps: int, cap: int, flopDealt: bool): Result<Raked, Error> {
    if !(0 <= bps <= 10000) then Err(BadRakeBps)
    else if cap < 0 then Err(BadRakeCap)
    else
      var raked := TakeRake(pots, RakeTarget(pots, bps, cap, flopDealt));
      var totalRake := SumOf(RakeOf, raked);
      if SumOf(NetOf, raked) + totalRake != SumOf(AmountOf, pots) then Err(RakeNotConserved)
      else Ok(Raked(raked, totalRake))
  }

  /** The raking pass of applyRake. */
  method RakeLoop(pots: seq<Pot>, target: int) returns (raked: seq<Pot>)
    ensures raked == TakeRake(pots, target)
  {
    var remaining := target;
    raked := [];
    var i := 0;
    while i < |pots|
      invariant 0 <= i <= |pots|
      invariant raked + TakeRake(pots[i..], remaining) == TakeRake(pots, target)
    {
      assert pots[i..][1..] == pots[i + 1..];
      var rake := if remaining < pots[i].amount then remaining else pots[i].amount;
      remaining := remaining - rake;
      raked := raked + [pots[i].(rake := rake, net := pots[i].amount - rake)];
      i := i + 1;
    }
    assert pots[i..] == [] && raked + [] == raked;
  }

  method ApplyRakeByPot(pots: seq<Pot>, bps: int, cap: int, flopDealt: bool) returns (r: Result<Raked, Error>)
    ensures r == ApplyRake(pots, bps, cap, flopDealt)
  {
    if !(0 <= bps <= 10000) {
      return Err(BadRakeBps);
    }
    if cap < 0 {
      return Err(BadRakeCap);
    }
    var raked := RakeLoop(pots, RakeTarget(pots, bps, cap, flopDealt));
    var totalRake := SumOf(RakeOf, raked);
    if SumOf(NetOf, raked) + totalRake != SumOf(AmountOf, pots) {
      return Err(RakeNotConserved);
    }
    return Ok(Raked(raked, totalRake));
  }

  // ----- Awards -----

  type Rankings = map<PlayerId, Evaluation>

  /** The first of the best-ranked players, as the reducing pass finds it. */
  function BestSoFar(eligible: seq<PlayerId>, ranks: Rankings, current: PlayerId): (r: PlayerId)
    requires current in ranks && forall p :: p in eligible ==> p in ranks
    ensures r in ranks
  {
    if eligible == [] then current
    else BestSoFar(eligible[1..], ranks,
                   if Compare(ranks[eligible[0]], ranks[current]) > 0 then eligible[0] else current)
  }

  /** Nobody eligible leaves nothing to divide by, which the engine's division rejects. */
  function Winners(eligible: seq<PlayerId>, ranks: Rankings): Result<seq<PlayerId>, Error> {
    if eligible == [] then Err(NoEligiblePlayer)
    else if |eligible| == 1 then Ok(eligible)
    else if exists p :: p in eligible && p !in ranks then Err(MissingRank)
    else
      var best := BestSoFar(eligible[1..], ranks, eligible[0]);
      Ok(FilterTied(eligible, ranks, best))
  }

  function FilterTied(eligible: seq<PlayerId>, ranks: Rankings, best: PlayerId): seq<PlayerId>
    requires best in ranks && forall p :: p in eligible ==> p in ranks
  {
    if eligible == [] then []
    else (if Compare(ranks[eligible[0]], ranks[best]) == 0 then [eligible[0]] else [])
         + FilterTied(eligible[1..], ranks, best)
  }

  function Ordered(winners: seq<PlayerId>, order: seq<PlayerId>): seq<PlayerId> {
    Filter((p: PlayerId) => p in winners, order)
  }

  function AddEach(awards: Ledger, players: seq<PlayerId>, amount: int): Ledger
    decreases |players|
  {
    if players == [] then awards else AddEach(Add(awards, players[0], amount), players[1..], amount)
  }

  /** One pot's share on one board, split among its winners with odd chips in order. */
  function AwardBoard(awards: Ledger, winners: seq<PlayerId>, order: seq<PlayerId>, amount: int): Result<Ledger, Error>
    requires winners != []
  {
    var ordered := Ordered(winners, order);
    var odd := amount % |winners|;
    if |ordered| != |winners| then Err(WinnerOutsideOrder)
    else Ok(AddEach(AddEach(awards, winners, amount / |winners|), ordered[..odd], 1))
  }

  datatype Detail = Detail(potIndex: nat, board: nat, amount: int, winners: seq<PlayerId>)

  datatype Settlement = Settlement(awards: Ledger, details: seq<Detail>)

  /** What board `board` (counted from zero) of `boards` gets of a pot. */
  function BoardAmount(net: int, boards: nat, board: nat): int
    requires boards > 0
  {
    net / boards + (if board < net % boards then 1 else 0)
  }

  function AwardPot(acc: Settlement, pot: Pot, rankings: seq<Rankings>, order: seq<PlayerId>, board: nat)
    : Result<Settlement, Error>
    requires board <= |rankings| && rankings != []
    decreases |rankings| - board
  {
    if board == |rankings| then Ok(acc)
    else
      var amount := BoardAmount(pot.net, |rankings|, board);
      var winners :- Winners(pot.eligible, rankings[board]);
      WinnersExist(pot.eligible, rankings[board]);
      var awards :- AwardBoard(acc.awards, winners, order, amount);
      AwardPot(Settlement(awards, acc.details + [Detail(pot.index, board + 1, amount, winners)]),
               pot, rankings, order, board + 1)
  }

  lemma {:induction false} BestIsTied(eligible: seq<PlayerId>, ranks: Rankings, current: PlayerId)
    requires current in ranks && forall p :: p in eligible ==> p in ranks
    ensures var best := BestSoFar(eligible, ranks, current);
      && best in ranks && (best == current || best in eligible)
      && Compare(ranks[best], ranks[current]) >= 0
      && forall p :: p in eligible ==> Compare(ranks[best], ranks[p]) >= 0
  {
    if eligible != [] {
      var next := if Compare(ranks[eligible[0]], ranks[current]) > 0 then eligible[0] else current;
      BestIsTied(eligible[1..], ranks, next);
      var best := BestSoFar(eligible, ranks, current);
      CompareIsTotalPreorder(ranks[best], ranks[next], ranks[current]);
      CompareIsTotalPreorder(ranks[best], ranks[next], ranks[eligible[0]]);
      CompareIsTotalPreorder(ranks[eligible[0]], ranks[current], ranks[current]);
    } else {
      CompareIsTotalPreorder(ranks[current], ranks[current], ranks[current]);
    }
  }

  lemma {:induction false} TiedMembers(eligible: seq<PlayerId>, ranks: Rankings, best: PlayerId)
    requires best in ranks && forall p :: p in eligible ==> p in ranks
    ensures forall p :: p in FilterTied(eligible, ranks, best)
              <==> p in eligible && Compare(ranks[p], ranks[best]) == 0
  {
    if eligible != [] {
      TiedMembers(eligible[1..], ranks, best);
    }
  }

  lemma {:induction false} WinnersExist(eligible: seq<PlayerId>, ranks: Rankings)
    ensures Winners(eligible, ranks).Ok? ==> Winners(eligible, ranks).value != []
  {
    if |eligible| > 1 && forall p :: p in eligible ==> p in ranks {
      BestIsTied(eligible[1..], ranks, eligible[0]);
      var best := BestSoFar(eligible[1..], ranks, eligible[0]);
      TiedMembers(eligible, ranks, best);
      CompareIsTotalPreorder(ranks[best], ranks[best], ranks[best]);
      assert best in FilterTied(eligible, ranks, best);
    }
  }

  function AwardPots(acc: Settlement, pots: seq<Pot>, rankings: seq<Rankings>, order: seq<PlayerId>)
    : Result<Settlement, Error>
    requires rankings != []
    decreases |pots|
  {
    if pots == [] then Ok(acc)
    else
      var next :- AwardPot(acc, pots[0], rankings, order, 0);
      AwardPots(next, pots[1..], rankings, order)
  }

  function SettlePots(pots: seq<Pot>, rankings: seq<Rankings>, order: seq<PlayerId>): Result<Settlement, Error>
  {
    if pots == [] then Err(NoPots)
    else if !(1 <= |rankings| <= 2) then Err(BadBoardCount)
    else if !Distinct(order) then Err(DuplicateOddChipOrder)
    else
      var settled :- AwardPots(Settlement([], []), pots, rankings, order);
      if Total(settled.awards) != SumOf(NetOf, pots) then Err(AwardsNotConserved) else Ok(settled)
  }

  /** The nested loops of settlePots. */
  method SettlePotsLoop(pots: seq<Pot>, rankings: seq<Rankings>, order: seq<PlayerId>)
    returns (r: Result<Settlement, Error>)
    ensures r == SettlePots(pots, rankings, order)
  {
    if pots == [] { return Err(NoPots); }
    if !(1 <= |rankings| <= 2) { return Err(BadBoardCount); }
    if !Distinct(order) { return Err(DuplicateOddChipOrder); }
    var acc := Settlement([], []);
    var i := 0;
    while i < |pots|
      invariant 0 <= i <= |pots|
      invariant AwardPots(Settlement([], []), pots, rankings, order) == AwardPots(acc, pots[i..], rankings, order)
    {
      var pot := pots[i];
      assert pots[i..][0] == pot && pots[i..][1..] == pots[i + 1..];
      var one := SettleOnePot(acc, pot, rankings, order);
      if one.Err? {
        return Err(one.error);
      }
      acc := one.value;
      i := i + 1;
    }
    if Total(acc.awards) != SumOf(NetOf, pots) { return Err(AwardsNotConserved); }
    return Ok(acc);
  }

  method SettleOnePot(start: Settlement, pot: Pot, rankings: seq<Rankings>, order: seq<PlayerId>)
    returns (r: Result<Settlement, Error>)
    requires rankings != []
    ensures r == AwardPot(start, pot, rankings, order, 0)
  {
    var acc := start;
    var base := pot.net / |rankings|;
    var remainder := pot.net % |rankings|;
    var board := 0;
    while board < |rankings|
      invariant 0 <= board <= |rankings|
      invariant remainder == (if board < pot.net % |rankings| then pot.net % |rankings| - board else 0)
      invariant AwardPot(start, pot, rankings, order, 0) == AwardPot(acc, pot, rankings, order, board)
    {
      var amount := base + (if remainder > 0 then 1 else 0);
      if remainder > 0 { remainder := remainder - 1; }
      var found := Winners(pot.eligible, rankings[board]);
      if found.Err? { return Err(found.error); }
      var winners := found.value;
      WinnersExist(pot.eligible, rankings[board]);
      var awarded := SplitBoard(acc.awards, winners, order, amount);
      if awarded.Err? { return Err(awarded.error); }
      acc := Settlement(awarded.value, acc.details + [Detail(pot.index, board + 1, amount, winners)]);
      board := board + 1;
    }
    return Ok(acc);
  }

  method SplitBoard(start: Ledger, winners: seq<PlayerId>, order: seq<PlayerId>, amount: int)
    returns (r: Result<Ledger, Error>)
    requires winners != []
    ensures r == AwardBoard(start, winners, order, amount)
  {
    var awards := start;
    var share := amount / |winners|;
    var odd := amount % |winners|;
    for i := 0 to |winners|
      invariant AddEach(start, winners, share) == AddEach(awards, winners[i..], share)
    {
      assert winners[i..][1..] == winners[i + 1..];
      awards := Add(awards, winners[i], share);
    }
    var ordered := Ordered(winners, order);
    if |ordered| != |winners| { return Err(WinnerOutsideOrder); }
    ghost var shared := awards;
    var k := 0;
    while k < |ordered| && odd > 0
      invariant 0 <= k <= |ordered|
      invariant odd == amount % |winners| - k >= 0
      invariant AddEach(shared, ordered[..amount % |winners|], 1)
             == AddEach(awards, ordered[k..amount % |winners|], 1)
    {
      assert ordered[k..amount % |winners|][1..] == ordered[k + 1..amount % |winners|];
      awards := Add(awards, ordered[k], 1);
      odd := odd - 1;
      k := k + 1;
    }
    return Ok(awards);
  }
}
