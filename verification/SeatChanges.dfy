/**
 * Who may take a seat, sit out, come back or leave, and what that does to the table: seatPlayer, sitOut,
 * returnPlayer and leave of server/table-coordinator.js.
 */
module SeatChanges {
  import opened Tables
  import opened TableSeats
  import opened TableInvariant
  import Seats

  /** Only the player's own seat changes, and only as given; everything else at the table stays. */
  ghost predicate OneSeatChanges(s: State, s': State, playerId: PlayerId, changed: Seat -> Seat) {
    && s' == s.(seats := s'.seats) && |s'.seats| == |s.seats|
    && forall j :: 0 <= j < |s.seats| ==>
         s'.seats[j] == if s.seats[j].playerId == playerId then changed(s.seats[j]) else s.seats[j]
  }

  ghost predicate SomeSeat(s: State, p: Seat -> bool) { exists x :: x in s.seats && p(x) }

  /**
   * A seat is taken between hands, where nobody sits, by somebody not seated yet, for a buy-in within
   * the table's limits; the newcomer has the full time bank, and everybody else sits as before.
   */
  lemma {:induction false} SeatIsTaken(s: State, playerId: PlayerId, seat: int, buyIn: int)
    requires TableOk(s)
    ensures DecideSeat(s, playerId, seat, buyIn).Some?
      <==> s.status == Waiting && 0 <= seat < s.rules.value.seats
           && !SomeSeat(s, (x: Seat) => x.seat == seat || x.playerId == playerId)
           && s.rules.value.minimumBuyIn <= buyIn <= s.rules.value.maximumBuyIn
    ensures DecideSeat(s, playerId, seat, buyIn).Some? ==>
      var r := Step(s, DecideSeat(s, playerId, seat, buyIn).value);
      && r.Ok? && r.value == s.(seats := r.value.seats)
      && forall x :: x in r.value.seats
           <==> x in s.seats || x == Seat(playerId, seat, buyIn, Seated, s.rules.value.timeBank, false, false)
  {
    hide PlayOk, InHand;
    if DecideSeat(s, playerId, seat, buyIn).Some? {
      Arrives(s, DecideSeat(s, playerId, seat, buyIn).value.player);
    }
  }

  lemma {:induction false} Arrives(s: State, x: Seat)
    requires SeatsOk(s.seats) && SeatOk(x)
    requires forall y :: y in s.seats ==> y.seat != x.seat && y.playerId != x.playerId
    ensures forall y :: y in Seats.SortBySeat(SeatNumber, s.seats + [x]) <==> y in s.seats || y == x
  {
    SortAppended(s.seats, x);
    InsertSeat(s.seats, x);
  }

  lemma {:induction false} OneUpdate(s: State, playerId: PlayerId, f: Seat -> Seat)
    requires SeatsOk(s.seats) && exists x :: x in s.seats && x.playerId == playerId
    ensures UpdateSeat(s.seats, playerId, f).Ok?
    ensures OneSeatChanges(s, s.(seats := UpdateSeat(s.seats, playerId, f).value), playerId, f)
  {
    var x :| x in s.seats && x.playerId == playerId;
    var k :| 0 <= k < |s.seats| && s.seats[k] == x;
  }

  /** Whoever is seated and not out yet may sit out: at once, or after the hand being played. */
  lemma {:induction false} SitsOut(s: State, playerId: PlayerId)
    requires TableOk(s)
    ensures DecidePresence(s, SitOut(playerId)).Some?
      <==> SomeSeat(s, (x: Seat) => x.playerId == playerId && x.status != SittingOut && !x.sitOutNextHand)
    ensures DecidePresence(s, SitOut(playerId)).Some? ==>
      var r, playing := Step(s, DecidePresence(s, SitOut(playerId)).value), InHand(s.current, playerId);
      r.Ok? && OneSeatChanges(s, r.value, playerId,
        (x: Seat) => if playing then x.(sitOutNextHand := true)
                     else x.(sitOutNextHand := false, status := SittingOut))
  {
    hide PlayOk, InHand;
    PlayerAt(s, playerId);
    if DecidePresence(s, SitOut(playerId)).Some? {
      OneUpdate(s, playerId, (x: Seat) => WithSatOut(x, InHand(s.current, playerId)));
    }
  }

  /** Whoever is out, or about to be, and has chips may come back, into the hand being played or the next. */
  lemma {:induction false} ComesBackIn(s: State, playerId: PlayerId)
    requires TableOk(s)
    ensures DecidePresence(s, ReturnPlayer(playerId)).Some?
      <==> SomeSeat(s, (x: Seat) =>
             x.playerId == playerId && x.stack > 0 && (x.status == SittingOut || x.sitOutNextHand))
    ensures DecidePresence(s, ReturnPlayer(playerId)).Some? ==>
      var r, playing := Step(s, DecidePresence(s, ReturnPlayer(playerId)).value), InHand(s.current, playerId);
      r.Ok? && OneSeatChanges(s, r.value, playerId,
        (x: Seat) => x.(sitOutNextHand := false, status := if playing then Playing else Seated))
  {
    hide PlayOk, InHand;
    PlayerAt(s, playerId);
    if DecidePresence(s, ReturnPlayer(playerId)).Some? {
      OneUpdate(s, playerId, (x: Seat) => WithReturned(x, InHand(s.current, playerId)));
    }
  }

  /** Whoever is seated may leave: a bystander is gone at once, a player of the hand is marked to go. */
  lemma {:induction false} Leaves(s: State, playerId: PlayerId)
    requires TableOk(s)
    ensures DecidePresence(s, Leave(playerId)).Some? <==> SomeSeat(s, (x: Seat) => x.playerId == playerId)
    ensures DecidePresence(s, Leave(playerId)).Some? ==>
      var r := Step(s, DecidePresence(s, Leave(playerId)).value);
      && r.Ok? && r.value == s.(seats := r.value.seats)
      && (InHand(s.current, playerId) ==> OneSeatChanges(s, r.value, playerId, (x: Seat) => x.(leaving := true)))
      && (!InHand(s.current, playerId) ==> forall x :: x in r.value.seats <==> x in s.seats && x.playerId != playerId)
  {
    hide PlayOk, InHand;
    PlayerAt(s, playerId);
    if DecidePresence(s, Leave(playerId)).Some? {
      OneUpdate(s, playerId, (x: Seat) => x.(leaving := true));
    }
  }

  lemma {:induction false} PlayerAt(s: State, playerId: PlayerId)
    requires TableOk(s)
    ensures InHand(s.current, playerId) ==> s.status == HandActive
    ensures IndexOfId(s.seats, playerId).None? ==> forall x :: x in s.seats ==> x.playerId != playerId
    ensures IndexOfId(s.seats, playerId).Some? ==>
      var i := IndexOfId(s.seats, playerId).value;
      i < |s.seats| && s.seats[i] in s.seats && s.seats[i].playerId == playerId
      && forall x :: x in s.seats && x.playerId == playerId ==> x == s.seats[i]
  {
  }
}
