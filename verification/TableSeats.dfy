/** How table events change the seats: who sits where, and how many chips they hold. */
module TableSeats {
  import opened Wrappers
  import opened Seqs
  import opened Tables
  import B = Betting
  import Seats

  ghost predicate SeatOk(s: Seat) { 0 <= s.seat <= 8 && s.stack >= 0 }

  /** Different players at different seats, in seat order. */
  ghost predicate SeatsOk(seats: seq<Seat>) {
    && (forall i :: 0 <= i < |seats| ==> SeatOk(seats[i]))
    && (forall i, j :: 0 <= i < j < |seats| ==> seats[i].seat < seats[j].seat)
    && (forall i, j :: 0 <= i < j < |seats| ==> seats[i].playerId != seats[j].playerId)
  }

  /** A player's seat carries the chips the player has in the hand, behind and in the pot. */
  ghost predicate SeatHolds(seats: seq<Seat>, p: B.Player) {
    exists j :: 0 <= j < |seats| && Carries(seats[j], p)
  }

  predicate Carries(s: Seat, p: B.Player) {
    s.playerId == p.playerId && s.seat == p.seat && s.stack == B.ChipsOf(p)
  }

  ghost predicate AllHeld(seats: seq<Seat>, players: seq<B.Player>) {
    forall i :: 0 <= i < |players| ==> SeatHolds(seats, players[i])
  }

  /** Who sits where with how much, whatever else changes. */
  ghost predicate SameStacks(a: seq<Seat>, b: seq<Seat>) {
    |a| == |b| && forall i :: 0 <= i < |a| ==>
      b[i].playerId == a[i].playerId && b[i].seat == a[i].seat && b[i].stack == a[i].stack
  }

  lemma {:induction false} SameStacksKeeps(a: seq<Seat>, b: seq<Seat>, players: seq<B.Player>)
    requires SameStacks(a, b)
    ensures SeatsOk(a) ==> SeatsOk(b)
    ensures AllHeld(a, players) ==> AllHeld(b, players)
    ensures SumOf(StackOf, b) == SumOf(StackOf, a)
  {
    if AllHeld(a, players) {
      forall i | 0 <= i < |players| ensures SeatHolds(b, players[i]) {
        var j :| 0 <= j < |a| && Carries(a[j], players[i]);
        assert Carries(b[j], players[i]);
      }
    }
    if SeatsOk(a) {
      forall i | 0 <= i < |b| ensures SeatOk(b[i]) {
        assert SeatOk(a[i]);
      }
    }
    SameSum(a, b);
  }

  lemma {:induction false} SameSum(a: seq<Seat>, b: seq<Seat>)
    requires SameStacks(a, b)
    ensures SumOf(StackOf, b) == SumOf(StackOf, a)
  {
    if a != [] {
      SameSum(a[1..], b[1..]);
    }
  }

  /** An update that moves no chips. */
  ghost predicate Harmless(f: Seat -> Seat) {
    forall s :: f(s).playerId == s.playerId && f(s).seat == s.seat && f(s).stack == s.stack
  }

  lemma {:induction false} UpdateSame(seats: seq<Seat>, playerId: PlayerId, f: Seat -> Seat)
    requires Harmless(f)
    ensures UpdateSeat(seats, playerId, f).Ok? ==> SameStacks(seats, UpdateSeat(seats, playerId, f).value)
    ensures UpdateSeat(seats, playerId, f).Ok? <==> exists s :: s in seats && s.playerId == playerId
  {
    match IndexOfId(seats, playerId) {
      case None =>
      case Some(i) => assert seats[i] in seats;
    }
  }

  lemma {:induction false} BanksSame(seats: seq<Seat>, players: seq<B.Player>, banks: seq<int>)
    requires AllHeld(seats, players)
    ensures SetBanks(seats, players, banks).Ok?
    ensures SameStacks(seats, SetBanks(seats, players, banks).value)
    decreases |players|
  {
    if players != [] && banks != [] {
      var f := (s: Seat) => s.(timeBank := banks[0]);
      assert SeatHolds(seats, players[0]);
      var j :| 0 <= j < |seats| && Carries(seats[j], players[0]);
      assert seats[j] in seats;
      UpdateSame(seats, players[0].playerId, f);
      var next := UpdateSeat(seats, players[0].playerId, f).value;
      forall i | 0 <= i < |players[1..]| ensures SeatHolds(seats, players[1..][i]) {
        assert players[1..][i] == players[i + 1];
      }
      SameStacksKeeps(seats, next, players[1..]);
      BanksSame(next, players[1..], banks[1..]);
    }
  }

  lemma {:induction false} PlayingSame(seats: seq<Seat>, players: seq<B.Player>)
    ensures SameStacks(seats, MarkPlaying(seats, players))
  {
  }

  // ----- Arrivals and departures -----

  lemma {:induction false} InsertSum(sorted: seq<Seat>, x: Seat)
    ensures SumOf(StackOf, Seats.InsertBySeat(SeatNumber, x, sorted)) == SumOf(StackOf, sorted) + x.stack
  {
    var r := Seats.InsertBySeat(SeatNumber, x, sorted);
    if sorted != [] && x.seat >= sorted[0].seat {
      InsertSum(sorted[1..], x);
      assert r[1..] == Seats.InsertBySeat(SeatNumber, x, sorted[1..]);
    } else {
      assert r[1..] == sorted;
    }
  }

  lemma {:induction false} TailSeat(sorted: seq<Seat>, y: Seat)
    requires SeatsOk(sorted) && sorted != [] && y in sorted[1..]
    ensures sorted[0].seat < y.seat && sorted[0].playerId != y.playerId && SeatOk(y)
  {
    var k :| 0 <= k < |sorted[1..]| && sorted[1..][k] == y;
    assert sorted[k + 1] == y;
  }

  lemma {:induction false} InsertSeat(sorted: seq<Seat>, x: Seat)
    requires SeatsOk(sorted) && SeatOk(x)
    requires forall i :: 0 <= i < |sorted| ==> sorted[i].seat != x.seat && sorted[i].playerId != x.playerId
    ensures SeatsOk(Seats.InsertBySeat(SeatNumber, x, sorted))
    ensures SumOf(StackOf, Seats.InsertBySeat(SeatNumber, x, sorted)) == SumOf(StackOf, sorted) + x.stack
    ensures forall s :: s in Seats.InsertBySeat(SeatNumber, x, sorted) <==> s == x || s in sorted
  {
    var r := Seats.InsertBySeat(SeatNumber, x, sorted);
    if sorted == [] {
      assert r == [x];
    } else if x.seat < sorted[0].seat {
      assert r == [x] + sorted;
    } else {
      var rest := Seats.InsertBySeat(SeatNumber, x, sorted[1..]);
      InsertSeat(sorted[1..], x);
      assert r == [sorted[0]] + rest;
      forall i | 0 <= i < |rest|
        ensures sorted[0].seat < rest[i].seat && sorted[0].playerId != rest[i].playerId && SeatOk(rest[i])
      {
        assert rest[i] in rest;
        if rest[i] != x {
          TailSeat(sorted, rest[i]);
        }
      }
    }
    InsertSum(sorted, x);
  }

  /** Sorting an already ordered list of seats leaves it as it is. */
  lemma {:induction false} SortedStays(seats: seq<Seat>)
    requires SeatsOk(seats)
    ensures Seats.SortBySeat(SeatNumber, seats) == seats
  {
    if seats != [] {
      SortedStays(seats[1..]);
    }
  }

  lemma {:induction false} SortAppended(seats: seq<Seat>, x: Seat)
    requires SeatsOk(seats)
    requires forall i :: 0 <= i < |seats| ==> seats[i].seat != x.seat
    ensures Seats.SortBySeat(SeatNumber, seats + [x]) == Seats.InsertBySeat(SeatNumber, x, seats)
  {
    if seats == [] {
      assert [] + [x] == [x];
      assert [x][1..] == [];
    } else {
      assert (seats + [x])[1..] == seats[1..] + [x];
      SortAppended(seats[1..], x);
      var rest := Seats.InsertBySeat(SeatNumber, x, seats[1..]);
      if x.seat < seats[0].seat {
        assert rest == [x] + seats[1..];
        assert Seats.InsertBySeat(SeatNumber, seats[0], [x] + seats[1..])
          == [x] + Seats.InsertBySeat(SeatNumber, seats[0], seats[1..]);
        assert Seats.InsertBySeat(SeatNumber, seats[0], seats[1..]) == [seats[0]] + seats[1..];
        assert [x] + ([seats[0]] + seats[1..]) == [x] + seats;
      } else {
        InsertBefore(seats[0], rest, seats[1..], x);
      }
    }
  }

  lemma {:induction false} InsertBefore(first: Seat, rest: seq<Seat>, tail: seq<Seat>, x: Seat)
    requires rest == Seats.InsertBySeat(SeatNumber, x, tail) && first.seat < x.seat
    requires tail != [] ==> first.seat < tail[0].seat
    ensures Seats.InsertBySeat(SeatNumber, first, rest) == [first] + rest
  {
  }

  lemma {:induction false} ArrivalOk(seats: seq<Seat>, x: Seat)
    requires SeatsOk(seats) && SeatOk(x)
    requires forall i :: 0 <= i < |seats| ==> seats[i].seat != x.seat && seats[i].playerId != x.playerId
    ensures var after := Seats.SortBySeat(SeatNumber, seats + [x]);
      SeatsOk(after) && SumOf(StackOf, after) == SumOf(StackOf, seats) + x.stack
  {
    SortAppended(seats, x);
    InsertSeat(seats, x);
  }

  /** What is kept stays in order. */
  lemma {:induction false} FilterOk(keep: Seat -> bool, seats: seq<Seat>)
    requires SeatsOk(seats)
    ensures SeatsOk(Filter(keep, seats))
  {
    if seats != [] {
      FilterOk(keep, seats[1..]);
      FirstKept(keep, seats);
      assert Filter(keep, seats) == (if keep(seats[0]) then [seats[0]] else []) + Filter(keep, seats[1..]);
      assert [] + Filter(keep, seats[1..]) == Filter(keep, seats[1..]);
    }
  }

  /** Seats dropped and seats kept add up to all seats. */
  lemma {:induction false} FilterSum(keep: Seat -> bool, drop: Seat -> bool, seats: seq<Seat>)
    requires forall s: Seat :: drop(s) == !keep(s)
    ensures SumOf(StackOf, Filter(keep, seats)) + SumOf(StackOf, Filter(drop, seats)) == SumOf(StackOf, seats)
  {
    if seats != [] {
      FilterSum(keep, drop, seats[1..]);
      var first := seats[0];
      var kept, dropped := Filter(keep, seats[1..]), Filter(drop, seats[1..]);
      SumOfConcat(StackOf, if keep(first) then [first] else [], kept);
      SumOfConcat(StackOf, if drop(first) then [first] else [], dropped);
      assert [first][1..] == [];
    }
  }

  lemma {:induction false} FirstKept(keep: Seat -> bool, seats: seq<Seat>)
    requires SeatsOk(seats) && seats != [] && SeatsOk(Filter(keep, seats[1..]))
    ensures SeatsOk([seats[0]] + Filter(keep, seats[1..]))
  {
    var kept := Filter(keep, seats[1..]);
    forall i | 0 <= i < |kept| ensures seats[0].seat < kept[i].seat && seats[0].playerId != kept[i].playerId {
      assert kept[i] in kept;
      assert kept[i] in seats[1..];
      var k :| 0 <= k < |seats[1..]| && seats[1..][k] == kept[i];
      assert seats[k + 1] == kept[i];
    }
    assert SeatOk(seats[0]);
  }

  lemma {:induction false} KeptHolds(keep: Seat -> bool, seats: seq<Seat>, p: B.Player)
    requires SeatHolds(seats, p) && forall s :: s in seats && s.playerId == p.playerId ==> keep(s)
    ensures SeatHolds(Filter(keep, seats), p)
  {
    var j :| 0 <= j < |seats| && Carries(seats[j], p);
    assert seats[j] in seats;
    assert seats[j] in Filter(keep, seats);
    var k :| 0 <= k < |Filter(keep, seats)| && Filter(keep, seats)[k] == seats[j];
    assert Carries(Filter(keep, seats)[k], p);
  }

  // ----- After a hand -----

  ghost predicate DistinctPlayers(players: seq<B.Player>) {
    forall i, j :: 0 <= i < j < |players| ==> players[i].playerId != players[j].playerId
  }

  lemma {:induction false} UpdateOne(seats: seq<Seat>, p: B.Player, f: Seat -> Seat) returns (j: nat)
    requires SeatsOk(seats) && SeatHolds(seats, p)
    ensures j < |seats| && Carries(seats[j], p)
    ensures UpdateSeat(seats, p.playerId, f) == Ok(seats[j := f(seats[j])])
  {
    j :| 0 <= j < |seats| && Carries(seats[j], p);
    assert seats[j] in seats;
  }

  /** Settling one player's seat leaves the other players' seats as they were. */
  lemma {:induction false} SettleOne(seats: seq<Seat>, players: seq<B.Player>, stack: int) returns (next: seq<Seat>)
    requires SeatsOk(seats) && AllHeld(seats, players) && DistinctPlayers(players) && players != [] && stack >= 0
    ensures UpdateSeat(seats, players[0].playerId, (s: Seat) => WithSettled(s, stack)) == Ok(next)
    ensures SeatsOk(next) && AllHeld(next, players[1..])
    ensures SumOf(StackOf, next) == SumOf(StackOf, seats) - B.ChipsOf(players[0]) + stack
  {
    assert SeatHolds(seats, players[0]);
    var f := (s: Seat) => WithSettled(s, stack);
    var j := UpdateOne(seats, players[0], f);
    next := seats[j := f(seats[j])];
    SumOfUpdate(StackOf, seats, j, f(seats[j]));
    forall i | 0 <= i < |next| ensures SeatOk(next[i]) {
      assert SeatOk(seats[i]);
    }
    forall k | 0 <= k < |players[1..]| ensures SeatHolds(next, players[1..][k]) {
      assert players[1..][k] == players[k + 1];
      assert SeatHolds(seats, players[k + 1]);
      var m :| 0 <= m < |seats| && Carries(seats[m], players[k + 1]);
      assert players[0].playerId != players[k + 1].playerId;
      assert Carries(next[m], players[k + 1]);
    }
  }
}
