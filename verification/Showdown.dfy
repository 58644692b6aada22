/** Settlement of a finished hand: server/poker/showdown.js. */
module Showdown {
  import opened Wrappers
  import opened Seqs
  import opened Seats
  import opened Games
  import opened Ledgers
  import opened Evaluations
  import Evaluator
  import opened Pots

  datatype Contender = Contender(
    playerId: PlayerId,
    seat: int,
    contributed: int,
    folded: bool,
    holeCards: seq<int>
  )

  datatype Failure =
    | PotError(pots: Pots.Error)
    | CardError(cards: Evaluator.Error)
    | BadBoards
    | BadHoleCards
    | NotOneLivePlayer
    | PayoutsNotConserved

  datatype Outcome = Outcome(
    payouts: Ledger,
    refunds: Ledger,
    totalRake: int,
    pots: seq<Pot>,
    details: seq<Detail>
  )

  function SeatOf(c: Contender): int { c.seat }

  function Identity(c: Contender): PlayerId { c.playerId }

  predicate Live(c: Contender) { !c.folded }

  function StakeOf(c: Contender): Stake { Stake(c.playerId, c.contributed, c.folded) }

  function Stakes(players: seq<Contender>): seq<Stake> { Map(StakeOf, players) }

  function OddChipOrder(players: seq<Contender>, buttonSeat: int): seq<PlayerId> {
    Map(Identity, Clockwise(SeatOf, players, buttonSeat))
  }

  function Evaluate(game: Game, holeCards: seq<int>, board: seq<int>): Result<Evaluation, Evaluator.Error> {
    if game == NLH then Evaluator.EvaluateHoldem(holeCards, board) else Evaluator.EvaluateOmaha4(holeCards, board)
  }

  /** The ranking of every unfolded player on one board. */
  function RankBoard(game: Game, players: seq<Contender>, board: seq<int>): Result<Rankings, Failure> {
    if players == [] then Ok(map[])
    else if players[0].folded then RankBoard(game, players[1..], board)
    else
      match Evaluate(game, players[0].holeCards, board)
      case Err(e) => Err(CardError(e))
      case Ok(rank) =>
        var rest :- RankBoard(game, players[1..], board);
        Ok(rest[players[0].playerId := rank])
  }

  function RankBoards(game: Game, players: seq<Contender>, boards: seq<seq<int>>): Result<seq<Rankings>, Failure> {
    if boards == [] then Ok([])
    else
      var first :- RankBoard(game, players, boards[0]);
      var rest :- RankBoards(game, players, boards[1..]);
      Ok([first] + rest)
  }

  function Lift<T>(r: Result<T, Pots.Error>): Result<T, Failure> {
    match r case Ok(v) => Ok(v) case Err(e) => Err(PotError(e))
  }

  function Finalize(players: seq<Contender>, refunds: Ledger, pots: seq<Pot>, totalRake: int,
                    rankings: seq<Rankings>, buttonSeat: int): Result<Outcome, Failure> {
    var settlement :- Lift(SettlePots(pots, rankings, OddChipOrder(players, buttonSeat)));
    var payouts := AddAll(settlement.awards, refunds);
    if Total(payouts) + totalRake != SumOf(Put, Stakes(players)) then Err(PayoutsNotConserved)
    else Ok(Outcome(payouts, refunds, totalRake, pots, settlement.details))
  }

  function SettleShowdown(game: Game, players: seq<Contender>, boards: seq<seq<int>>, buttonSeat: int,
                          rakeBps: int, rakeCap: int): Result<Outcome, Failure> {
    if !(1 <= |boards| <= 2) || exists b :: b in boards && |b| != 5 then Err(BadBoards)
    else if exists p :: p in players && !p.folded && |p.holeCards| != HoleCount(game) then Err(BadHoleCards)
    else
      var built :- Lift(BuildPots(Stakes(players)));
      var raked :- Lift(ApplyRake(built.pots, rakeBps, rakeCap, true));
      var rankings :- RankBoards(game, players, boards);
      Finalize(players, built.refunds, raked.pots, raked.totalRake, rankings, buttonSeat)
  }

  function SettleUncontested(players: seq<Contender>, buttonSeat: int, flopDealt: bool,
                             rakeBps: int, rakeCap: int): Result<Outcome, Failure> {
    if Count(Live, players) != 1 then Err(NotOneLivePlayer)
    else
      var built :- Lift(BuildPots(Stakes(players)));
      var raked :- Lift(ApplyRake(built.pots, rakeBps, rakeCap, flopDealt));
      Finalize(players, built.refunds, raked.pots, raked.totalRake, [map[]], buttonSeat)
  }

  /** The refunds loop of finalize. */
  method AddRefunds(awards: Ledger, refunds: Ledger) returns (payouts: Ledger)
    ensures payouts == AddAll(awards, refunds)
  {
    payouts := awards;
    for i := 0 to |refunds|
      invariant AddAll(awards, refunds) == AddAll(payouts, refunds[i..])
    {
      assert refunds[i..][1..] == refunds[i + 1..];
      payouts := Add(payouts, refunds[i].key, refunds[i].amount);
    }
  }
}
