/** Which deck position every hole, burn and board card comes from: fairness/protocol.js. */
module DealMaps {
  import opened Wrappers
  import opened Games

  datatype Street = Preflop | Flop | Turn | River

  datatype Burn = Burn(before: Street, position: int)

  datatype BoardPlan = BoardPlan(board: int, burns: seq<Burn>, flop: seq<int>, turn: seq<int>, river: seq<int>)

  datatype Runout = Runout(boards: seq<BoardPlan>, nextPosition: int)

  datatype Plan = Plan(game: Game, seats: int, buttonSeat: int, dealingOrder: seq<int>,
                       holeCards: map<int, seq<int>>, boards: seq<BoardPlan>, nextPosition: int)

  datatype PlanError = InvalidPosition | InvalidBoards | InvalidSeats | InvalidButton | DeckExhausted

  function Range(from: int, to: int): (r: seq<int>)
    requires from <= to
    ensures |r| == to - from && forall i :: 0 <= i < |r| ==> r[i] == from + i
  {
    seq(to - from, i => from + i)
  }

  // ----- The board -----

  function Remaining(street: Street): seq<Street> {
    match street
    case Preflop => [Flop, Turn, River]
    case Flop => [Turn, River]
    case Turn => [River]
    case River => []
  }

  function CardCount(street: Street): nat { if street == Flop then 3 else 1 }

  /** Positions one board consumes: a burn and its cards for each street to come. */
  function BoardLength(street: Street): nat {
    match street
    case Preflop => 8
    case Flop => 4
    case Turn => 2
    case River => 0
  }

  function OnStreet(plan: BoardPlan, street: Street): seq<int> {
    match street
    case Preflop => []
    case Flop => plan.flop
    case Turn => plan.turn
    case River => plan.river
  }

  function WithStreet(plan: BoardPlan, street: Street, cards: seq<int>): BoardPlan {
    match street
    case Preflop => plan
    case Flop => plan.(flop := cards)
    case Turn => plan.(turn := cards)
    case River => plan.(river := cards)
  }

  /** The positions of a board in the order they leave the deck, the k-th burn before the k-th street. */
  function InOrder(plan: BoardPlan, streets: seq<Street>, k: nat): seq<int>
    requires |plan.burns| >= k && |streets| >= k
  {
    if k == 0 then []
    else InOrder(plan, streets, k - 1) + [plan.burns[k - 1].position] + OnStreet(plan, streets[k - 1])
  }

  /** A board plan takes exactly the positions from `start`, burning before each street. */
  ghost predicate Deals(plan: BoardPlan, street: Street, start: int) {
    var streets := Remaining(street);
    && |plan.burns| == |streets|
    && (forall k :: 0 <= k < |streets| ==> plan.burns[k].before == streets[k])
    && (forall s :: |OnStreet(plan, s)| == if s in streets then CardCount(s) else 0)
    && InOrder(plan, streets, |streets|) == Range(start, start + BoardLength(street))
  }

  function BoardFrom(board: int, street: Street, s: int): BoardPlan {
    match street
    case Preflop => BoardPlan(board, [Burn(Flop, s), Burn(Turn, s + 4), Burn(River, s + 6)],
                              [s + 1, s + 2, s + 3], [s + 5], [s + 7])
    case Flop => BoardPlan(board, [Burn(Turn, s), Burn(River, s + 2)], [], [s + 1], [s + 3])
    case Turn => BoardPlan(board, [Burn(River, s)], [], [], [s + 1])
    case River => BoardPlan(board, [], [], [], [])
  }

  lemma {:induction false} BoardDeals(board: int, street: Street, s: int)
    ensures Deals(BoardFrom(board, street, s), street, s)
  {
    var plan, streets := BoardFrom(board, street, s), Remaining(street);
    match street {
      case Preflop =>
        assert InOrder(plan, streets, 1) == Range(s, s + 4);
        assert InOrder(plan, streets, 2) == Range(s, s + 6);
        assert InOrder(plan, streets, 3) == Range(s, s + 8);
      case Flop =>
        assert InOrder(plan, streets, 1) == Range(s, s + 2);
        assert InOrder(plan, streets, 2) == Range(s, s + 4);
      case Turn =>
        assert InOrder(plan, streets, 1) == Range(s, s + 2);
      case River =>
    }
  }

  /** Lays out one board by moving the position along, street by street. */
  method LayOutBoard(board: int, street: Street, start: int) returns (plan: BoardPlan, position: int)
    ensures plan == BoardFrom(board, street, start) && position == start + BoardLength(street)
  {
    plan, position := BoardPlan(board, [], [], [], []), start;
    var remaining := Remaining(street);
    for k := 0 to |remaining|
      invariant k == 0 ==> plan == BoardPlan(board, [], [], [], []) && position == start
      invariant street == Preflop && k == 1 ==>
        (&& position == start + 4
         && plan == BoardPlan(board, [Burn(Flop, start)], [start + 1, start + 2, start + 3], [], []))
      invariant street == Preflop && k == 2 ==>
        (&& position == start + 6
         && plan == BoardPlan(board, [Burn(Flop, start), Burn(Turn, start + 4)],
                              [start + 1, start + 2, start + 3], [start + 5], []))
      invariant street == Flop && k == 1 ==>
        (&& position == start + 2
         && plan == BoardPlan(board, [Burn(Turn, start)], [], [start + 1], []))
      invariant k == |remaining| ==> plan == BoardFrom(board, street, start) && position == start + BoardLength(street)
    {
      var nextStreet := remaining[k];
      plan := plan.(burns := plan.burns + [Burn(nextStreet, position)]);
      position := position + 1;
      var cards := TakePositions(position, CardCount(nextStreet));
      plan := WithStreet(plan, nextStreet, cards);
      position := position + CardCount(nextStreet);
    }
  }

  method TakePositions(position: int, count: nat) returns (cards: seq<int>)
    ensures cards == Range(position, position + count)
    ensures count == 1 ==> cards == [position]
    ensures count == 3 ==> cards == [position, position + 1, position + 2]
  {
    cards := [];
    for k := 0 to count
      invariant cards == Range(position, position + k)
    {
      cards := cards + [position + k];
    }
  }

  function Boards(street: Street, start: int, count: nat): (r: seq<BoardPlan>)
    ensures |r| == count
  {
    seq(count, b requires 0 <= b < count => BoardFrom(b + 1, street, start + b * BoardLength(street)))
  }

  function RunoutPlan(startPosition: int, street: Street, boards: int): Result<Runout, PlanError> {
    if !(0 <= startPosition < 52) then Err(InvalidPosition)
    else if !(1 <= boards <= 2) then Err(InvalidBoards)
    else if startPosition + boards * BoardLength(street) > 52 then Err(DeckExhausted)
    else Ok(Runout(Boards(street, startPosition, boards), startPosition + boards * BoardLength(street)))
  }

  method PlanRunout(startPosition: int, street: Street, boards: int) returns (r: Result<Runout, PlanError>)
    ensures r == RunoutPlan(startPosition, street, boards)
  {
    if !(0 <= startPosition < 52) {
      return Err(InvalidPosition);
    }
    if !(1 <= boards <= 2) {
      return Err(InvalidBoards);
    }
    var position := startPosition;
    var plans := [];
    for boardIndex := 0 to boards
      invariant position == startPosition + boardIndex * BoardLength(street)
      invariant plans == Boards(street, startPosition, boardIndex)
    {
      var plan, after := LayOutBoard(boardIndex + 1, street, position);
      plans := plans + [plan];
      position := after;
      assert (boardIndex + 1) * BoardLength(street) == boardIndex * BoardLength(street) + BoardLength(street);
    }
    return if position > 52 then Err(DeckExhausted) else Ok(Runout(plans, position));
  }

  /** Every position the boards take, in deck order. */
  function BoardsInOrder(boards: seq<BoardPlan>, street: Street): seq<int>
    requires forall b :: b in boards ==> |b.burns| == |Remaining(street)|
  {
    if boards == [] then []
    else
      assert boards[|boards| - 1] in boards;
      BoardsInOrder(boards[..|boards| - 1], street)
        + InOrder(boards[|boards| - 1], Remaining(street), |Remaining(street)|)
  }

  lemma {:induction false} BoardsCover(street: Street, start: int, count: nat)
    ensures forall b :: b in Boards(street, start, count) ==> |b.burns| == |Remaining(street)|
    ensures BoardsInOrder(Boards(street, start, count), street) == Range(start, start + count * BoardLength(street))
  {
    hide InOrder, BoardFrom, BoardLength, Remaining, BoardsInOrder, Boards;
    if count > 0 {
      var boards, before := Boards(street, start, count), start + (count - 1) * BoardLength(street);
      BoardsCover(street, start, count - 1);
      BoardDeals(count, street, before);
      BoardAdded(street, start, count);
      LastBoard(boards, street, BoardFrom(count, street, before));
      OneMore(count, BoardLength(street));
      RangesAppend(start, before, start + count * BoardLength(street));
    } else {
      NoBoards(street, start);
    }
  }

  lemma {:induction false} NoBoards(street: Street, start: int)
    ensures Boards(street, start, 0) == [] && BoardsInOrder([], street) == Range(start, start + 0 * BoardLength(street))
  {
  }

  lemma {:induction false} BoardAdded(street: Street, start: int, count: nat)
    requires count > 0
    ensures var boards := Boards(street, start, count);
      boards[count - 1] == BoardFrom(count, street, start + (count - 1) * BoardLength(street))
      && boards[..count - 1] == Boards(street, start, count - 1)
  {
    hide BoardFrom, BoardLength;
  }

  lemma {:induction false} LastBoard(boards: seq<BoardPlan>, street: Street, last: BoardPlan)
    requires boards != [] && last == boards[|boards| - 1] && |last.burns| == |Remaining(street)|
    requires forall b :: b in boards[..|boards| - 1] ==> |b.burns| == |Remaining(street)|
    ensures forall b :: b in boards ==> |b.burns| == |Remaining(street)|
    ensures BoardsInOrder(boards, street)
      == BoardsInOrder(boards[..|boards| - 1], street) + InOrder(last, Remaining(street), |Remaining(street)|)
  {
    hide InOrder, Remaining;
    assert boards == boards[..|boards| - 1] + [last];
  }

  lemma {:induction false} OneMore(count: nat, length: nat)
    requires count > 0
    ensures count * length == (count - 1) * length + length
  {
  }

  lemma {:induction false} RangesAppend(a: int, b: int, c: int)
    requires a <= b <= c
    ensures Range(a, b) + Range(b, c) == Range(a, c)
  {
  }

  // ----- The hole cards -----

  function ActiveSeatOrder(seats: int, buttonSeat: int): (r: seq<int>)
    requires 2 <= seats
    ensures |r| == seats
  {
    var first := if seats == 2 then buttonSeat else (buttonSeat + 1) % seats;
    seq(seats, i => (first + i) % seats)
  }

  function Rounds(game: Game): nat { if game == NLH then 2 else 4 }

  /** The positions of the player dealt to at turn k of every round. */
  function HolePositions(rounds: nat, seats: nat, k: int): (r: seq<int>)
    ensures |r| == rounds && forall i :: 0 <= i < rounds ==> r[i] == i * seats + k
  {
    seq(rounds, i => i * seats + k)
  }

  /** Seat s is dealt to at the turn at which it stands in the dealing order. */
  function TurnOf(seats: int, buttonSeat: int, seat: int): int
    requires 2 <= seats
  {
    var first := if seats == 2 then buttonSeat else (buttonSeat + 1) % seats;
    (seat - first) % seats
  }

  function HoleCards(rounds: nat, seats: int, buttonSeat: int): map<int, seq<int>>
    requires 2 <= seats
  {
    map s | 0 <= s < seats :: HolePositions(rounds, seats, TurnOf(seats, buttonSeat, s))
  }

  function DealPlan(game: Game, seats: int, buttonSeat: int, boards: int): Result<Plan, PlanError> {
    if !(2 <= seats <= 9) then Err(InvalidSeats)
    else if !(0 <= buttonSeat < seats) then Err(InvalidButton)
    else
      var runout :- RunoutPlan(Rounds(game) * seats, Preflop, boards);
      Ok(Plan(game, seats, buttonSeat, ActiveSeatOrder(seats, buttonSeat),
              HoleCards(Rounds(game), seats, buttonSeat), runout.boards, runout.nextPosition))
  }

  lemma {:induction false} TurnsInvert(seats: int, buttonSeat: int, k: int)
    requires 2 <= seats && 0 <= k < seats && 0 <= buttonSeat < seats
    ensures var s := ActiveSeatOrder(seats, buttonSeat)[k]; 0 <= s < seats && TurnOf(seats, buttonSeat, s) == k
  {
    var first := if seats == 2 then buttonSeat else (buttonSeat + 1) % seats;
    Wrap(first + k, seats);
    var s := (first + k) % seats;
    Wrap(s - first, seats);
  }

  /** Reducing a number less than one turn out of range adds or subtracts one turn. */
  lemma {:induction false} Wrap(x: int, n: int)
    requires n > 0 && -n <= x < 2 * n
    ensures x % n == if x < 0 then x + n else if x < n then x else x - n
  {
  }

  lemma {:induction false} OrderInvert(seats: int, buttonSeat: int, s: int)
    requires 2 <= seats && 0 <= s < seats && 0 <= buttonSeat < seats
    ensures var k := TurnOf(seats, buttonSeat, s);
      0 <= k < seats && ActiveSeatOrder(seats, buttonSeat)[k] == s
  {
    var first := if seats == 2 then buttonSeat else (buttonSeat + 1) % seats;
    Wrap(s - first, seats);
    var k := (s - first) % seats;
    Wrap(first + k, seats);
  }

  /** Hole cards dealt so far: `round` whole rounds and `turn` turns of the next. */
  function DealtSoFar(seats: int, buttonSeat: int, round: nat, turn: int): map<int, seq<int>>
    requires 2 <= seats
  {
    map s | 0 <= s < seats ::
      HolePositions(if TurnOf(seats, buttonSeat, s) < turn then round + 1 else round, seats,
        TurnOf(seats, buttonSeat, s))
  }

  lemma {:induction false} DealsOne(seats: int, buttonSeat: int, round: nat, k: int)
    requires 2 <= seats && 0 <= buttonSeat < seats && 0 <= k < seats
    ensures var seat := ActiveSeatOrder(seats, buttonSeat)[k];
      var before := DealtSoFar(seats, buttonSeat, round, k);
      seat in before
      && DealtSoFar(seats, buttonSeat, round, k + 1) == before[seat := before[seat] + [round * seats + k]]
  {
    TurnsInvert(seats, buttonSeat, k);
    var seat := ActiveSeatOrder(seats, buttonSeat)[k];
    var before, after := DealtSoFar(seats, buttonSeat, round, k), DealtSoFar(seats, buttonSeat, round, k + 1);
    HoleGrows(round, seats, k);
    forall s | 0 <= s < seats && s != seat ensures after[s] == before[s] {
      OtherTurn(seats, buttonSeat, k, s);
    }
    assert after == before[seat := after[seat]];
  }

  lemma {:induction false} HoleGrows(round: nat, seats: nat, k: int)
    ensures HolePositions(round + 1, seats, k) == HolePositions(round, seats, k) + [round * seats + k]
  {
  }

  lemma {:induction false} OtherTurn(seats: int, buttonSeat: int, k: int, s: int)
    requires 2 <= seats && 0 <= buttonSeat < seats && 0 <= k < seats && 0 <= s < seats
    requires s != ActiveSeatOrder(seats, buttonSeat)[k]
    ensures TurnOf(seats, buttonSeat, s) != k
  {
    OrderInvert(seats, buttonSeat, s);
  }

  lemma {:induction false} RoundEnds(seats: int, buttonSeat: int, round: nat)
    requires 2 <= seats && 0 <= buttonSeat < seats
    ensures DealtSoFar(seats, buttonSeat, round, seats) == DealtSoFar(seats, buttonSeat, round + 1, 0)
      == HoleCards(round + 1, seats, buttonSeat)
  {
  }

  /** Deals one card at a time around the table, then lays out the boards. */
  method PlanDeal(game: Game, seats: int, buttonSeat: int, boards: int) returns (r: Result<Plan, PlanError>)
    ensures r == DealPlan(game, seats, buttonSeat, boards)
  {
    if !(2 <= seats <= 9) {
      return Err(InvalidSeats);
    }
    if !(0 <= buttonSeat < seats) {
      return Err(InvalidButton);
    }
    var rounds := if game == NLH then 2 else 4;
    var order := ActiveSeatOrder(seats, buttonSeat);
    var holeCards := HoleCards(0, seats, buttonSeat);
    var position := 0;
    assert holeCards == DealtSoFar(seats, buttonSeat, 0, 0);
    for round := 0 to rounds
      invariant position == round * seats && holeCards == DealtSoFar(seats, buttonSeat, round, 0)
    {
      for k := 0 to seats
        invariant position == round * seats + k && holeCards == DealtSoFar(seats, buttonSeat, round, k)
      {
        DealsOne(seats, buttonSeat, round, k);
        holeCards := holeCards[order[k] := holeCards[order[k]] + [position]];
        position := position + 1;
      }
      RoundEnds(seats, buttonSeat, round);
      assert (round + 1) * seats == round * seats + seats;
    }
    RoundEnds(seats, buttonSeat, rounds - 1);
    var runout := PlanRunout(position, Preflop, boards);
    match runout
    case Err(error) => return Err(error);
    case Ok(laid) => return Ok(Plan(game, seats, buttonSeat, order, holeCards, laid.boards, laid.nextPosition));
  }

  // ----- The plan uses each position once -----

  /** A plan's hole cards name a card for each round and each seat of the dealing order. */
  ghost predicate Complete(plan: Plan) {
    && plan.seats > 0 && |plan.dealingOrder| == plan.seats
    && (forall s :: 0 <= s < plan.seats ==> s in plan.holeCards && |plan.holeCards[s]| == Rounds(plan.game))
    && (forall k :: 0 <= k < plan.seats ==> 0 <= plan.dealingOrder[k] < plan.seats)
  }

  /** The n-th hole card dealt goes to the (n mod seats)-th seat in order, in round n / seats. */
  function HoleAt(plan: Plan, n: nat): int
    requires Complete(plan) && n < Rounds(plan.game) * plan.seats
  {
    RoundOf(n, plan.seats, Rounds(plan.game));
    plan.holeCards[plan.dealingOrder[n % plan.seats]][n / plan.seats]
  }

  lemma {:induction false} RoundOf(n: nat, seats: nat, rounds: nat)
    requires seats > 0 && n < rounds * seats
    ensures 0 <= n / seats < rounds && 0 <= n % seats < seats && n == n / seats * seats + n % seats
  {
    AtLeastAsMany(n / seats, rounds, seats);
  }

  lemma {:induction false} AtLeastAsMany(a: int, b: nat, seats: nat)
    ensures a >= b ==> a * seats >= b * seats
  {
    if a >= b {
      assert a * seats == b * seats + (a - b) * seats;
    }
  }

  function HolesInOrder(plan: Plan): (r: seq<int>)
    requires Complete(plan)
    ensures |r| == Rounds(plan.game) * plan.seats
  {
    seq(Rounds(plan.game) * plan.seats, n requires 0 <= n < Rounds(plan.game) * plan.seats => HoleAt(plan, n))
  }

  /** The hole cards leave the deck from the top, in dealing order. */
  lemma {:induction false} HolesCover(game: Game, seats: int, buttonSeat: int, boards: int)
    requires 2 <= seats <= 9 && 0 <= buttonSeat < seats && 1 <= boards <= 2
    ensures DealPlan(game, seats, buttonSeat, boards).Ok?
    ensures var plan := DealPlan(game, seats, buttonSeat, boards).value;
      Complete(plan) && HolesInOrder(plan) == Range(0, Rounds(game) * seats)
  {
    PlanFits(Rounds(game), seats, boards);
    var plan := DealPlan(game, seats, buttonSeat, boards).value;
    forall k | 0 <= k < seats ensures 0 <= plan.dealingOrder[k] < seats {
      TurnsInvert(seats, buttonSeat, k);
    }
    forall n | 0 <= n < Rounds(game) * seats ensures HoleAt(plan, n) == n {
      RoundOf(n, seats, Rounds(game));
      TurnsInvert(seats, buttonSeat, n % seats);
    }
  }

  lemma {:induction false} PlanFits(rounds: nat, seats: int, boards: int)
    requires 2 <= rounds <= 4 && 2 <= seats <= 9 && 1 <= boards <= 2
    ensures 0 <= rounds * seats <= 36 && rounds * seats + boards * 8 <= 52
    ensures rounds * seats + boards * 8 == 52 <==> rounds == 4 && seats == 9 && boards == 2
  {
    if rounds == 2 {
    } else if rounds == 3 {
    } else {
      assert rounds == 4;
    }
  }

  /**
   * Dealing consumes the deck from the top without gap or repetition: hole cards in dealing order and
   * then every burn and board card are positions 0, 1, 2, ... up to the next free one, at most 52.
   */
  lemma {:induction false} PlanUsesEachPositionOnce(game: Game, seats: int, buttonSeat: int, boards: int)
    ensures DealPlan(game, seats, buttonSeat, boards).Ok?
      <==> 2 <= seats <= 9 && 0 <= buttonSeat < seats && 1 <= boards <= 2
    ensures DealPlan(game, seats, buttonSeat, boards).Ok? ==>
      var plan := DealPlan(game, seats, buttonSeat, boards).value;
      && Complete(plan) && |plan.boards| == boards
      && (forall b :: 0 <= b < boards ==>
            Deals(plan.boards[b], Preflop, Rounds(game) * seats + b * BoardLength(Preflop)))
      && (forall b :: b in plan.boards ==> |b.burns| == |Remaining(Preflop)|)
      && HolesInOrder(plan) + BoardsInOrder(plan.boards, Preflop) == Range(0, plan.nextPosition)
      && plan.nextPosition <= 52
      && (plan.nextPosition == 52 <==> game == PLO4 && seats == 9 && boards == 2)
  {
    hide BoardsInOrder, InOrder;
    if 2 <= seats <= 9 && 0 <= buttonSeat < seats && 1 <= boards <= 2 {
      HolesCover(game, seats, buttonSeat, boards);
      PlanFits(Rounds(game), seats, boards);
      BoardsCover(Preflop, Rounds(game) * seats, boards);
      BoardsDeal(Rounds(game) * seats, boards);
      RangesJoin(Rounds(game) * seats, boards * BoardLength(Preflop));
    }
  }

  lemma {:induction false} BoardsDeal(start: int, count: nat)
    ensures forall b :: 0 <= b < count ==>
        Deals(Boards(Preflop, start, count)[b], Preflop, start + b * BoardLength(Preflop))
  {
    forall b | 0 <= b < count ensures Deals(Boards(Preflop, start, count)[b], Preflop,
      start + b * BoardLength(Preflop)) {
      BoardDeals(b + 1, Preflop, start + b * BoardLength(Preflop));
    }
  }

  lemma {:induction false} RangesJoin(a: nat, b: nat)
    ensures Range(0, a) + Range(a, a + b) == Range(0, a + b)
  {
  }

  lemma {:induction false} TurnsGoRound(seats: int, buttonSeat: int, s: int)
    requires 2 <= seats && 0 <= buttonSeat < seats && 0 <= s < seats
    ensures TurnOf(seats, buttonSeat, buttonSeat) == if seats == 2 then 0 else seats - 1
    ensures var turn := TurnOf(seats, buttonSeat, s);
      0 <= turn < seats && 0 <= (s + 1) % seats < seats
      && TurnOf(seats, buttonSeat, (s + 1) % seats) == if turn == seats - 1 then 0 else turn + 1
  {
    var first := if seats == 2 then buttonSeat else (buttonSeat + 1) % seats;
    Wrap(buttonSeat + 1, seats);
    Wrap(s + 1, seats);
    Wrap(buttonSeat - first, seats);
    Wrap(s - first, seats);
    Wrap((s + 1) % seats - first, seats);
  }

  /**
   * Cards go round the table one at a time: the button is served last, or first when heads-up, each seat
   * after the one before it, and every further round gives a seat its next card one lap later.
   */
  lemma {:induction false} CardsGoRound(game: Game, seats: int, buttonSeat: int, boards: int, s: int)
    requires DealPlan(game, seats, buttonSeat, boards).Ok? && 0 <= s < seats
    ensures 2 <= seats && 0 <= (s + 1) % seats < seats && 0 <= buttonSeat < seats
    ensures var holes := DealPlan(game, seats, buttonSeat, boards).value.holeCards;
      && s in holes && buttonSeat in holes && (s + 1) % seats in holes
      && |holes[s]| == |holes[buttonSeat]| == |holes[(s + 1) % seats]| == (if game == NLH then 2 else 4)
      && holes[buttonSeat][0] == (if seats == 2 then 0 else seats - 1)
      && holes[(s + 1) % seats][0] == (if holes[s][0] == seats - 1 then 0 else holes[s][0] + 1)
      && forall r :: 0 < r < |holes[s]| ==> holes[s][r] == holes[s][r - 1] + seats
  {
    hide TurnOf, RunoutPlan;
    TurnsGoRound(seats, buttonSeat, s);
    var holes := DealPlan(game, seats, buttonSeat, boards).value.holeCards;
    forall r | 0 < r < |holes[s]| ensures holes[s][r] == holes[s][r - 1] + seats {
      assert r * seats == (r - 1) * seats + seats;
    }
  }
}
