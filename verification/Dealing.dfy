/** Cards on the table come from the committed deck: table-coordinator.js against fairness/protocol.js. */
module Dealing {
  import opened Wrappers
  import opened Seqs
  import opened Games
  import opened DeckMerkle
  import opened DealMaps
  import opened Fairness
  import Betting
  import BettingInvariant
  import Evaluator
  import FinishedHands
  import Shuffle
  import ShowdownTheorems

  // ----- Public cards -----

  datatype CardError = WrongRevealCount | WrongPosition | InvalidProof

  function CardIds(shown: seq<Reveal>): (r: seq<int>)
    ensures |r| == |shown| && forall i :: 0 <= i < |r| ==> r[i] == shown[i].card.id
  {
    seq(|shown|, i requires 0 <= i < |shown| => shown[i].card.id)
  }

  ghost predicate AllVerified(shown: seq<Reveal>, positions: seq<int>, root: Digest) {
    && |shown| == |positions|
    && forall i :: 0 <= i < |shown| ==> shown[i].position == positions[i] && Accepted(root, shown[i])
  }

  function VerifiedCards(shown: seq<Reveal>, positions: seq<int>, root: Digest): Result<seq<int>, CardError> {
    if |shown| != |positions| then Err(WrongRevealCount)
    else match FirstFault(shown, positions, root)
      case Some(error) => Err(error)
      case None => Ok(CardIds(shown))
  }

  function FirstFault(shown: seq<Reveal>, positions: seq<int>, root: Digest): Option<CardError>
    requires |shown| == |positions|
  {
    if shown == [] then None
    else if shown[0].position != positions[0] then Some(WrongPosition)
    else if !Accepted(root, shown[0]) then Some(InvalidProof)
    else FirstFault(shown[1..], positions[1..], root)
  }

  /** Checks the reveals one by one against the positions the plan names next. */
  method VerifiedPublicCards(shown: seq<Reveal>, positions: seq<int>, root: Digest)
    returns (r: Result<seq<int>, CardError>)
    ensures r == VerifiedCards(shown, positions, root)
  {
    if |shown| != |positions| {
      return Err(WrongRevealCount);
    }
    for index := 0 to |shown|
      invariant FirstFault(shown, positions, root) == FirstFault(shown[index..], positions[index..], root)
    {
      assert shown[index..][1..] == shown[index + 1..] && positions[index..][1..] == positions[index + 1..];
      if shown[index].position != positions[index] {
        return Err(WrongPosition);
      }
      var accepted := VerifyCardReveal(root, shown[index]);
      if !accepted {
        return Err(InvalidProof);
      }
    }
    return Ok(CardIds(shown));
  }

  lemma {:induction false} NoFault(shown: seq<Reveal>, positions: seq<int>, root: Digest)
    requires |shown| == |positions|
    ensures FirstFault(shown, positions, root).None? <==> AllVerified(shown, positions, root)
  {
    if shown != [] {
      NoFault(shown[1..], positions[1..], root);
      if AllVerified(shown[1..], positions[1..], root) && shown[0].position == positions[0]
        && Accepted(root, shown[0]) {
        forall i | 0 <= i < |shown| ensures shown[i].position == positions[i] && Accepted(root, shown[i]) {
          if i > 0 {
            assert shown[i] == shown[1..][i - 1] && positions[i] == positions[1..][i - 1];
          }
        }
      }
      if AllVerified(shown, positions, root) {
        forall i | 0 <= i < |shown[1..]|
          ensures shown[1..][i].position == positions[1..][i] && Accepted(root, shown[1..][i])
        {
          assert shown[1..][i] == shown[i + 1] && positions[1..][i] == positions[i + 1];
        }
      }
    }
  }

  function CardsAt(order: seq<int>, positions: seq<int>): (r: seq<int>)
    requires forall i :: 0 <= i < |positions| ==> 0 <= positions[i] < |order|
    ensures |r| == |positions| && forall i :: 0 <= i < |r| ==> r[i] == order[positions[i]]
  {
    seq(|positions|, i requires 0 <= i < |positions| => order[positions[i]])
  }

  /** Whatever reveals a table accepts, the cards are those the committed deck holds at the positions asked for. */
  lemma {:induction false} VerifiedCardsAreCommitted(deck: CommittedDeck, shown: seq<Reveal>, positions: seq<int>)
    requires Commits(deck) && VerifiedCards(shown, positions, deck.root).Ok?
    ensures forall i :: 0 <= i < |positions| ==> 0 <= positions[i] < 52
    ensures VerifiedCards(shown, positions, deck.root).value == CardsAt(deck.order, positions)
  {
    NoFault(shown, positions, deck.root);
    forall i | 0 <= i < |positions| ensures 0 <= positions[i] < 52 && shown[i].card.id == deck.order[positions[i]] {
      AcceptedRevealIsCommitted(deck, shown[i]);
    }
  }

  /** The dealer's own reveals of the positions asked for are accepted. */
  lemma {:induction false} HonestCardsAreVerified(deck: CommittedDeck, shown: seq<Reveal>, positions: seq<int>)
    requires Commits(deck) && |shown| == |positions|
    requires forall i :: 0 <= i < |positions| ==> 0 <= positions[i] < 52 && Ok(shown[i]) == RevealOf(deck, positions[i])
    ensures VerifiedCards(shown, positions, deck.root) == Ok(CardsAt(deck.order, positions))
  {
    forall i | 0 <= i < |positions| ensures shown[i].position == positions[i] && Accepted(deck.root, shown[i]) {
      HonestRevealIsAccepted(deck, positions[i]);
    }
    NoFault(shown, positions, deck.root);
    VerifiedCardsAreCommitted(deck, shown, positions);
  }

  // ----- The cards of a hand -----

  function BoardPositions(plan: Plan): seq<int>
    requires plan.boards != []
  {
    plan.boards[0].flop + plan.boards[0].turn + plan.boards[0].river
  }

  /** How many players sit at lower seats: a player's index in seat order, which the plan deals to. */
  function SeatRank(ps: seq<Betting.Player>, seat: int): nat {
    Count((p: Betting.Player) => p.seat < seat, ps)
  }

  lemma {:induction false} RankGrows(ps: seq<Betting.Player>, low: int, high: int)
    requires low < high
    ensures SeatRank(ps, low) <= SeatRank(ps, high)
    ensures (exists i :: 0 <= i < |ps| && low <= ps[i].seat < high) ==> SeatRank(ps, low) < SeatRank(ps, high)
  {
    if ps != [] {
      RankGrows(ps[1..], low, high);
      if i :| 0 <= i < |ps| && low <= ps[i].seat < high {
        if i > 0 {
          assert ps[1..][i - 1] == ps[i];
        }
      }
    }
  }

  lemma {:induction false} RankBelow(ps: seq<Betting.Player>, i: nat)
    requires i < |ps|
    ensures SeatRank(ps, ps[i].seat) < |ps|
  {
    RankGrows(ps, ps[i].seat, ps[i].seat + 1);
    CountBounded((p: Betting.Player) => p.seat < ps[i].seat + 1, ps);
  }

  /** Different seats, different ranks, all below the number of players. */
  lemma {:induction false} RanksAreTurns(ps: seq<Betting.Player>, i: nat, j: nat)
    requires BettingInvariant.Table(ps) && i < |ps| && j < |ps|
    ensures SeatRank(ps, ps[i].seat) < |ps|
    ensures i != j ==> SeatRank(ps, ps[i].seat) != SeatRank(ps, ps[j].seat)
  {
    RankBelow(ps, i);
    if i != j {
      if ps[i].seat < ps[j].seat {
        RankGrows(ps, ps[i].seat, ps[j].seat);
      } else {
        RankGrows(ps, ps[j].seat, ps[i].seat);
      }
    }
  }

  /** A plan the protocol makes deals from distinct positions of the deck. */
  lemma {:induction false} PlanPositions(game: Game, seats: int, buttonSeat: int, boards: int, s: int)
    requires DealPlan(game, seats, buttonSeat, boards).Ok? && 0 <= s < seats
    ensures var plan := DealPlan(game, seats, buttonSeat, boards).value;
      && plan.boards != [] && s in plan.holeCards && |plan.holeCards[s]| == HoleCount(game)
      && |BoardPositions(plan)| == 5
      && var all := plan.holeCards[s] + BoardPositions(plan);
         Distinct(all) && forall i :: 0 <= i < |all| ==> 0 <= all[i] < 52
  {
    var turn, rounds := TurnOf(seats, buttonSeat, s), Rounds(game);
    OrderInvert(seats, buttonSeat, s);
    PlanFits(rounds, seats, boards);
    HoleSpread(rounds, seats, turn);
    HolesAndBoard(HolePositions(rounds, seats, turn), rounds * seats);
    PlanShape(game, seats, buttonSeat, boards);
  }

  function FiveFrom(s: int): seq<int> { [s + 1, s + 2, s + 3] + [s + 5] + [s + 7] }

  lemma {:induction false} PlanShape(game: Game, seats: int, buttonSeat: int, boards: int)
    requires DealPlan(game, seats, buttonSeat, boards).Ok?
    ensures var plan := DealPlan(game, seats, buttonSeat, boards).value;
      plan.boards != [] && BoardPositions(plan) == FiveFrom(Rounds(game) * seats)
      && plan.holeCards == HoleCards(Rounds(game), seats, buttonSeat)
  {
    var plan := DealPlan(game, seats, buttonSeat, boards).value;
    assert plan.boards[0] == BoardFrom(1, Preflop, Rounds(game) * seats + 0 * BoardLength(Preflop));
  }

  lemma {:induction false} HolesAndBoard(holes: seq<int>, start: int)
    requires Distinct(holes) && 0 <= start && start + 8 <= 52 && forall i :: 0 <= i < |holes| ==> 0 <= holes[i] < start
    ensures var all := holes + FiveFrom(start); Distinct(all) && forall i :: 0 <= i < |all| ==> 0 <= all[i] < 52
  {
    forall i | 0 <= i < |holes| + 5 ensures 0 <= (holes + FiveFrom(start))[i] < 52 {
      if i < |holes| {
        assert 0 <= holes[i] < start;
      }
    }
    forall i, j | 0 <= i < j < |holes| + 5 ensures (holes + FiveFrom(start))[i] != (holes + FiveFrom(start))[j] {
      if j < |holes| {
        assert holes[i] != holes[j];
      }
    }
  }

  lemma {:induction false} HoleSpread(rounds: nat, seats: nat, turn: nat)
    requires turn < seats
    ensures forall i :: 0 <= i < rounds ==> 0 <= HolePositions(rounds, seats, turn)[i] < rounds * seats
    ensures Distinct(HolePositions(rounds, seats, turn))
  {
    var positions := HolePositions(rounds, seats, turn);
    forall i | 0 <= i < rounds ensures 0 <= positions[i] < rounds * seats {
      NextRound(i, rounds, seats);
    }
    forall i, j | 0 <= i < j < rounds ensures positions[i] != positions[j] {
      NextRound(i, j, seats);
    }
  }

  lemma {:induction false} NextRound(i: nat, j: nat, seats: nat)
    requires i < j
    ensures 0 <= i * seats && i * seats + seats <= j * seats
  {
    RoundsAdd(i, j - i, seats);
    RoundsAdd(1, j - i - 1, seats);
  }

  lemma {:induction false} RoundsAdd(i: nat, more: nat, seats: nat)
    ensures (i + more) * seats == i * seats + more * seats
    ensures 0 <= i * seats && 0 <= more * seats
  {
  }

  lemma {:induction false} DistinctCards(order: seq<int>, positions: seq<int>)
    requires IsDeck(order) && Distinct(positions) && forall i :: 0 <= i < |positions| ==> 0 <= positions[i] < 52
    ensures Evaluator.ValidCards(CardsAt(order, positions))
  {
    InDeck(order);
  }

  /** The board and the hole cards of a hand dealt from a deck by the committed plan. */
  function BoardCards(order: seq<int>, plan: Plan): seq<int>
    requires plan.boards != [] && forall i :: 0 <= i < |BoardPositions(plan)| ==> 0 <= BoardPositions(plan)[i] < |order|
  {
    CardsAt(order, BoardPositions(plan))
  }

  ghost predicate DealtHoles(order: seq<int>, plan: Plan, ps: seq<Betting.Player>, holes: seq<seq<int>>) {
    && |holes| == |ps|
    && forall i :: 0 <= i < |ps| ==>
         var rank := SeatRank(ps, ps[i].seat);
         && rank in plan.holeCards
         && (forall k :: 0 <= k < |plan.holeCards[rank]| ==> 0 <= plan.holeCards[rank][k] < |order|)
         && holes[i] == CardsAt(order, plan.holeCards[rank])
  }

  /**
   * Dealing along the plan from any permutation of the deck gives every player a legal hand: all of
   * the player's hole cards and board cards are different, so no evaluator rejects them.
   */
  lemma {:induction false} DealtHandsAreLegal(h: Betting.Hand, order: seq<int>, buttonSeat: int, boards: int,
      holes: seq<seq<int>>)
    requires IsDeck(order) && BettingInvariant.Table(h.players)
    requires DealPlan(h.game, |h.players|, buttonSeat, boards).Ok?
    requires DealtHoles(order, DealPlan(h.game, |h.players|, buttonSeat, boards).value, h.players, holes)
    requires |h.board| == 5 && CommittedBoard(order, DealPlan(h.game, |h.players|, buttonSeat, boards).value, h.board)
    ensures ShowdownTheorems.Dealt(h.game, FinishedHands.Contenders(h.players, holes), h.board)
  {
    var plan := DealPlan(h.game, |h.players|, buttonSeat, boards).value;
    var players := FinishedHands.Contenders(h.players, holes);
    forall p | p in players
      ensures |p.holeCards| == HoleCount(h.game) && Evaluator.ValidCards(p.holeCards + h.board)
    {
      var i :| 0 <= i < |players| && players[i] == p;
      RanksAreTurns(h.players, i, i);
      var rank := SeatRank(h.players, h.players[i].seat);
      PlanPositions(h.game, |h.players|, buttonSeat, boards, rank);
      OneHandIsLegal(order, plan, rank, h.board, holes[i]);
    }
  }

  lemma {:induction false} OneHandIsLegal(order: seq<int>, plan: Plan, rank: int, board: seq<int>, hole: seq<int>)
    requires IsDeck(order) && plan.boards != [] && rank in plan.holeCards && |BoardPositions(plan)| == 5
    requires var all := plan.holeCards[rank] + BoardPositions(plan);
      Distinct(all) && forall i :: 0 <= i < |all| ==> 0 <= all[i] < 52
    requires |board| == 5 && CommittedBoard(order, plan, board)
    requires |hole| == |plan.holeCards[rank]|
    requires forall i :: 0 <= i < |hole| ==>
        0 <= plan.holeCards[rank][i] < 52 && hole[i] == order[plan.holeCards[rank][i]]
    ensures Evaluator.ValidCards(hole + board)
  {
    var all := plan.holeCards[rank] + BoardPositions(plan);
    DistinctCards(order, all);
    assert CardsAt(order, all) == hole + board;
  }

  /** A board is the beginning of the one the deck and the plan determine. */
  predicate CommittedBoard(order: seq<int>, plan: Plan, board: seq<int>) {
    && plan.boards != [] && |board| <= |BoardPositions(plan)|
    && forall i :: 0 <= i < |board| ==>
      0 <= BoardPositions(plan)[i] < |order| && board[i] == order[BoardPositions(plan)[i]]
  }

  /** No card is dealt to two players. */
  lemma {:induction false} PlayersShareNoCard(game: Game, seats: int, buttonSeat: int, boards: int, order: seq<int>,
      s: int, s': int, i: int, j: int)
    requires IsDeck(order) && DealPlan(game, seats, buttonSeat, boards).Ok?
    requires 0 <= s < seats && 0 <= s' < seats && s != s' && 0 <= i < HoleCount(game) && 0 <= j < HoleCount(game)
    ensures var plan := DealPlan(game, seats, buttonSeat, boards).value;
      && |plan.holeCards[s]| == |plan.holeCards[s']| == HoleCount(game)
      && 0 <= plan.holeCards[s][i] < 52 && 0 <= plan.holeCards[s'][j] < 52
      && order[plan.holeCards[s][i]] != order[plan.holeCards[s'][j]]
  {
    PlanPositions(game, seats, buttonSeat, boards, s);
    PlanPositions(game, seats, buttonSeat, boards, s');
    var plan := DealPlan(game, seats, buttonSeat, boards).value;
    var t, t' := TurnOf(seats, buttonSeat, s), TurnOf(seats, buttonSeat, s');
    OrderInvert(seats, buttonSeat, s);
    OrderInvert(seats, buttonSeat, s');
    assert plan.holeCards[s][i] == i * seats + t && plan.holeCards[s'][j] == j * seats + t';
    if i * seats + t == j * seats + t' {
      Shuffle.SameDivision(i, t, j, t', seats);
    }
    assert plan.holeCards[s][i] == (plan.holeCards[s] + BoardPositions(plan))[i];
    assert plan.holeCards[s'][j] == (plan.holeCards[s'] + BoardPositions(plan))[j];
  }
}
