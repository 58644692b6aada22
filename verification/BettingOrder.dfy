/** The turn order: the next seat is the closest one clockwise. */
module BettingOrder {
  import opened Seqs
  import opened Seats
  import opened Betting

  ghost predicate OnTable(ps: seq<Player>) {
    forall p :: p in ps ==> 0 <= p.seat <= 8
  }

  /** A seat is found exactly when somebody satisfies the predicate, and it is the seat of such a player. */
  lemma {:induction false} NextSeatFinds(ps: seq<Player>, after: int, pred: Player -> bool)
    ensures var r := NextSeat(ps, after, pred);
      && (r.None? ==> forall p :: p in ps ==> !pred(p))
      && (r.Some? ==> exists i :: 0 <= i < |ps| && pred(ps[i]) && ps[i].seat == r.value)
  {
    var order := Clockwise(SeatOfPlayer, ps, after);
    ClockwiseKeepsMembers(SeatOfPlayer, ps, after);
    match IndexWhere(pred, order)
    case None =>
    case Some(k) =>
      assert order[k] in ps;
  }

  /**
   * Play passes clockwise: the chosen seat satisfies the predicate and nobody satisfying it sits
   * closer; there is no choice exactly when nobody satisfies it.
   */
  lemma {:induction false} NextSeatIsClosest(ps: seq<Player>, after: int, pred: Player -> bool)
    requires OnTable(ps) && 0 <= after <= 8
    ensures var r := NextSeat(ps, after, pred);
      && (r.None? <==> forall p :: p in ps ==> !pred(p))
      && (r.Some? ==>
            && (exists i :: 0 <= i < |ps| && pred(ps[i]) && ps[i].seat == r.value)
            && (forall p :: p in ps && pred(p) ==> Distance(after, r.value) <= Distance(after, p.seat)))
  {
    hide Clockwise, Distance;
    var order := Clockwise(SeatOfPlayer, ps, after);
    NextSeatFinds(ps, after, pred);
    ClockwiseKeepsMembers(SeatOfPlayer, ps, after);
    ClockwiseByDistance(SeatOfPlayer, ps, after);
    match IndexWhere(pred, order)
    case None =>
    case Some(k) =>
      assert order[k] in ps;
      forall p | p in ps && pred(p)
        ensures Distance(after, order[k].seat) <= Distance(after, p.seat)
      {
        var j :| 0 <= j < |order| && order[j] == p;
        assert k <= j;
      }
  }
}
