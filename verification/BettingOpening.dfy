/** A freshly opened hand satisfies the invariant unless the antes can strand the pot. */
module BettingOpening {
  import opened Wrappers
  import opened Seqs
  import opened Seats
  import opened Betting
  import opened BettingOrder
  import opened BettingInvariant

  predicate Accepted(c: Config) {
    CheckConfig(c).Ok? && match c.straddle case None => true case Some(s) => CheckStraddle(c, s).Ok?
  }

  function StackAt(c: Config, seat: int): int {
    match IndexWhere((e: Entrant) => e.seat == seat, c.players)
    case None => 0
    case Some(i) => c.players[i].stack
  }

  /** A small blind who cannot fold its ante: all-in for the blind, or already matching the big blind. */
  predicate HeldBySmallBlind(c: Config, stack: int) {
    c.ante < stack && (stack <= c.ante + c.smallBlind || c.smallBlind == c.bigBlind)
  }

  /**
   * The openings from which a finished hand can be left without an owner for its pot: the big blind
   * cannot pay the ante, nobody else is sure to stay in for at least the ante (by being all-in for
   * it, or by posting a small blind that is an all-in or as large as the big blind), and two players
   * can fold chips worth a full ante each.
   */
  predicate StrandsPot(c: Config) {
    && c.straddle.None?
    && StackAt(c, BigBlindSeat(c)) < c.ante
    && (forall e :: e in c.players ==> e.stack != c.ante)
    && !HeldBySmallBlind(c, StackAt(c, SmallBlindSeat(c)))
    && Count((e: Entrant) => e.stack > c.ante, c.players) >= 2
  }

  ghost predicate ValidConfig(c: Config) {
    && 2 <= |c.players| <= 9
    && (forall i, j :: 0 <= i < j < |c.players| ==> c.players[i].playerId != c.players[j].playerId)
    && (forall i, j :: 0 <= i < j < |c.players| ==> c.players[i].seat != c.players[j].seat)
    && (forall i :: 0 <= i < |c.players| ==> 0 <= c.players[i].seat <= 8 && c.players[i].stack > 0)
    && (exists i :: 0 <= i < |c.players| && c.players[i].seat == c.buttonSeat)
    && 0 < c.smallBlind <= c.bigBlind
    && 0 <= c.ante
  }

  lemma {:induction false} CheckedConfig(c: Config)
    ensures CheckConfig(c).Ok? <==> ValidConfig(c)
  {
    var ids, seats := Map(IdOf, c.players), Map(SeatOf, c.players);
    forall i | 0 <= i < |c.players| ensures ids[i] == c.players[i].playerId && seats[i] == c.players[i].seat {}
    if ValidConfig(c) {
      assert Distinct(ids) && Distinct(seats);
    }
    if CheckConfig(c).Ok? {
      forall i, j | 0 <= i < j < |c.players|
        ensures c.players[i].playerId != c.players[j].playerId && c.players[i].seat != c.players[j].seat
      {
        assert ids[i] != ids[j] && seats[i] != seats[j];
      }
      assert forall e :: e in c.players ==> e.stack > 0 && 0 <= e.seat <= 8;
    }
  }

  // ----- Forced bets -----

  ghost predicate IsNext(ps: seq<Player>, after: int, next: int) {
    && (exists i :: 0 <= i < |ps| && ps[i].seat == next)
    && (forall i :: 0 <= i < |ps| ==> Distance(after, next) <= Distance(after, ps[i].seat))
  }

  lemma {:induction false} NextOfAll(ps: seq<Player>, after: int, pred: Player -> bool)
    requires Table(ps) && 0 <= after <= 8
    requires forall i :: 0 <= i < |ps| ==> pred(ps[i])
    ensures NextSeat(ps, after, pred).Some? && IsNext(ps, after, NextSeat(ps, after, pred).value)
  {
    assert OnTable(ps);
    NextSeatIsClosest(ps, after, pred);
    assert pred(ps[0]);
  }

  /** Two blinds, and a straddler among three or more, are different seats. */
  lemma {:induction false} DifferentSeats(ps: seq<Player>, first: int, second: int)
    requires Table(ps)
    requires 0 <= first <= 8 && IsNext(ps, first, second)
    ensures first != second
    ensures |ps| >= 3 ==> forall third :: IsNext(ps, second, third) ==> third != first && third != second
  {
    var i := if ps[0].seat != first then 0 else 1;
    assert Distance(first, ps[i].seat) < 8;
    var j := if ps[0].seat != first && ps[0].seat != second then 0
             else if ps[1].seat != first && ps[1].seat != second then 1 else 2;
    if |ps| >= 3 {
      forall third | IsNext(ps, second, third) ensures third != first && third != second {
        assert Distance(second, third) <= Distance(second, ps[j].seat);
        assert Distance(first, second) <= Distance(first, ps[j].seat);
      }
    }
  }

  /** A player who posted the ante and then a forced bet. */
  function Posted(c: Config, e: Entrant, forced: int): Player {
    var ante := Min(e.stack, c.ante);
    var paid := Min(e.stack - ante, forced);
    Player(e.playerId, e.seat, e.stack - ante - paid, paid, ante + paid, false, e.stack == ante + paid)
  }

  lemma {:induction false} AntesPaid(c: Config)
    requires ValidConfig(c)
    ensures Table(AfterAntes(c))
    ensures forall i :: 0 <= i < |c.players| ==> AfterAntes(c)[i] == Posted(c, c.players[i], 0)
  {
  }

  lemma {:induction false} PostOne(ps: seq<Player>, i: nat, amount: int)
    requires Table(ps) && i < |ps|
    ensures IndexOfSeat(ps, ps[i].seat) == Some(i)
    ensures PostAt(ps, ps[i].seat, amount) == ps[i := PostForcedBet(ps[i], amount)]
    ensures Table(PostAt(ps, ps[i].seat, amount))
  {
    assert ps[i] in ps;
  }

  function Forced(c: Config, sb: nat, bb: nat, straddler: int, i: int): int {
    if i == sb then c.smallBlind
    else if i == bb then c.bigBlind
    else if i == straddler && c.straddle.Some? then c.straddle.value.amount
    else 0
  }

  ghost predicate PostedAll(c: Config, sb: nat, bb: nat, straddler: int, ps: seq<Player>) {
    && |ps| == |c.players|
    && forall i :: 0 <= i < |ps| ==> ps[i] == Posted(c, c.players[i], Forced(c, sb, bb, straddler, i))
  }

  /** Who posted what when the hand was opened; `straddler` is -1 without a straddle. */
  ghost predicate Posting(c: Config, sb: nat, bb: nat, straddler: int, h: Hand) {
    && sb < |c.players| && bb < |c.players| && sb != bb
    && -1 <= straddler < |c.players| && straddler != sb && straddler != bb
    && (c.straddle.Some? <==> straddler >= 0)
    && h.smallBlindSeat == c.players[sb].seat
    && h.bigBlindSeat == c.players[bb].seat
    && h.smallBlind == c.smallBlind && h.bigBlind == c.bigBlind && h.ante == c.ante
    && (c.straddle.None? ==> h.currentBet == c.bigBlind && h.lastFullRaise == c.bigBlind)
    && (c.straddle.Some? ==>
          && h.currentBet == c.straddle.value.amount >= 2 * c.bigBlind
          && h.lastFullRaise == c.straddle.value.amount - c.bigBlind
          && c.players[straddler].stack >= c.ante + c.straddle.value.amount)
    && h.phase == Preflop && h.status == Betting && h.board == [] && h.acted == []
    && Table(h.players) && PostedAll(c, sb, bb, straddler, h.players)
  }

  lemma {:induction false} SeatAfterIsNext(ps: seq<Player>, after: int)
    requires Table(ps) && 0 <= after <= 8
    ensures IsNext(ps, after, SeatAfter(ps, after))
  {
    NextOfAll(ps, after, AnyPlayer);
  }

  lemma {:induction false} BlindSeats(ps: seq<Player>, button: nat, first: int, second: int) returns (sb: nat, bb: nat)
    requires Table(ps) && button < |ps|
    requires first == ps[button].seat || IsNext(ps, ps[button].seat, first)
    requires second == SeatAfter(ps, first)
    ensures sb < |ps| && bb < |ps| && sb != bb
    ensures ps[sb].seat == first && ps[bb].seat == second && IsNext(ps, first, second)
  {
    sb :| 0 <= sb < |ps| && ps[sb].seat == first;
    SeatAfterIsNext(ps, first);
    bb :| 0 <= bb < |ps| && ps[bb].seat == second;
    DifferentSeats(ps, first, second);
  }

  lemma {:induction false} OpeningSeats(c: Config) returns (sb: nat, bb: nat)
    requires ValidConfig(c)
    ensures sb < |c.players| && bb < |c.players| && sb != bb
    ensures c.players[sb].seat == SmallBlindSeat(c) && c.players[bb].seat == BigBlindSeat(c)
    ensures IsNext(AfterAntes(c), SmallBlindSeat(c), BigBlindSeat(c))
  {
    var ps := AfterAntes(c);
    AntesPaid(c);
    var button :| 0 <= button < |c.players| && c.players[button].seat == c.buttonSeat;
    SeatAfterIsNext(ps, c.buttonSeat);
    sb, bb := BlindSeats(ps, button, SmallBlindSeat(c), BigBlindSeat(c));
  }

  /** The same blinds on plain lists, away from the definitions of a configuration. */
  lemma {:induction false} TwoPosts(ps: seq<Player>, sb: nat, bb: nat, small: int, big: int)
    requires Table(ps) && sb < |ps| && bb < |ps| && sb != bb
    ensures PostAt(PostAt(ps, ps[sb].seat, small), ps[bb].seat, big)
         == ps[sb := PostForcedBet(ps[sb], small)][bb := PostForcedBet(ps[bb], big)]
    ensures Table(PostAt(PostAt(ps, ps[sb].seat, small), ps[bb].seat, big))
  {
    PostOne(ps, sb, small);
    PostOne(PostAt(ps, ps[sb].seat, small), bb, big);
  }

  lemma {:induction false} PostedPointwise(c: Config, sb: nat, bb: nat, antes: seq<Player>)
    requires ValidConfig(c)
    requires sb < |c.players| && bb < |c.players| && sb != bb
    requires |antes| == |c.players|
    requires forall i :: 0 <= i < |antes| ==> antes[i] == Posted(c, c.players[i], 0)
    ensures PostedAll(c, sb, bb, -1,
              antes[sb := PostForcedBet(antes[sb], c.smallBlind)][bb := PostForcedBet(antes[bb], c.bigBlind)])
  {
  }

  lemma {:induction false} BlindsPosted(c: Config, sb: nat, bb: nat)
    requires ValidConfig(c)
    requires sb < |c.players| && bb < |c.players| && sb != bb
    requires c.players[sb].seat == SmallBlindSeat(c) && c.players[bb].seat == BigBlindSeat(c)
    requires IsNext(AfterAntes(c), SmallBlindSeat(c), BigBlindSeat(c))
    ensures Table(AfterBlinds(c)) && PostedAll(c, sb, bb, -1, AfterBlinds(c))
    ensures IsNext(AfterBlinds(c), SmallBlindSeat(c), BigBlindSeat(c))
  {
    AntesPaid(c);
    var antes := AfterAntes(c);
    TwoPosts(antes, sb, bb, c.smallBlind, c.bigBlind);
    PostedPointwise(c, sb, bb, antes);
    PostingKeepsOrder(c, antes, AfterBlinds(c), sb, bb, SmallBlindSeat(c), BigBlindSeat(c));
  }

  lemma {:induction false} StraddlePosted(c: Config, sb: nat, bb: nat, k: nat, ps: seq<Player>)
    requires ValidConfig(c) && c.straddle.Some? && c.straddle.value.amount >= 0
    requires Table(ps) && PostedAll(c, sb, bb, -1, ps)
    requires k < |ps| && k != sb && k != bb && c.players[k].seat == c.straddle.value.seat
    ensures Table(PostAt(ps, c.straddle.value.seat, c.straddle.value.amount))
    ensures PostedAll(c, sb, bb, k, PostAt(ps, c.straddle.value.seat, c.straddle.value.amount))
    ensures ps[k].stack >= c.straddle.value.amount > 0 ==> c.players[k].stack >= c.ante + c.straddle.value.amount
  {
    assert ps[k].seat == c.players[k].seat;
    PostOne(ps, k, c.straddle.value.amount);
  }

  lemma {:induction false} StraddlerIsThird(c: Config, ps: seq<Player>, sb: nat, bb: nat, third: int) returns (k: nat)
    requires ValidConfig(c) && Table(ps) && PostedAll(c, sb, bb, -1, ps) && |ps| >= 3
    requires sb < |ps| && bb < |ps| && sb != bb && IsNext(ps, ps[sb].seat, ps[bb].seat)
    requires NextSeat(ps, ps[bb].seat, Active) == Some(third)
    ensures k < |ps| && k != sb && k != bb && c.players[k].seat == third
  {
    NextOfAll(ps, ps[bb].seat, Active);
    DifferentSeats(ps, ps[sb].seat, ps[bb].seat);
    k :| 0 <= k < |ps| && ps[k].seat == third;
  }

  lemma {:induction false} SameSeatsNext(ps: seq<Player>, ps': seq<Player>, after: int, next: int)
    requires |ps| == |ps'| && forall i :: 0 <= i < |ps| ==> ps[i].seat == ps'[i].seat
    requires IsNext(ps, after, next)
    ensures IsNext(ps', after, next)
  {
    var i :| 0 <= i < |ps| && ps[i].seat == next;
    assert ps'[i].seat == next;
  }

  /** What acceptance of a straddle means: a third player after the big blind who can cover it. */
  ghost predicate StraddleFits(c: Config, ps: seq<Player>, bigBlindSeat: int) {
    c.straddle.Some? ==>
      var s := c.straddle.value;
      && |ps| >= 3
      && s.amount >= 2 * c.bigBlind
      && NextSeat(ps, bigBlindSeat, Active) == Some(s.seat)
      && (forall k :: 0 <= k < |ps| && IndexOfSeat(ps, s.seat) == Some(k) ==> ps[k].stack >= s.amount)
  }

  lemma {:induction false} AcceptedStraddle(c: Config)
    requires Accepted(c)
    ensures StraddleFits(c, AfterBlinds(c), BigBlindSeat(c))
  {
  }

  lemma {:induction false} StraddleCovered(c: Config, ps: seq<Player>, sb: nat, bb: nat) returns (k: nat)
    requires ValidConfig(c) && c.straddle.Some?
    requires Table(ps) && PostedAll(c, sb, bb, -1, ps) && |ps| >= 3
    requires sb < |ps| && bb < |ps| && sb != bb && IsNext(ps, ps[sb].seat, ps[bb].seat)
    requires NextSeat(ps, ps[bb].seat, Active) == Some(c.straddle.value.seat)
    requires c.straddle.value.amount > 0
    requires forall k :: 0 <= k < |ps| && IndexOfSeat(ps, c.straddle.value.seat) == Some(k)
               ==> ps[k].stack >= c.straddle.value.amount
    ensures k < |ps| && k != sb && k != bb && c.players[k].seat == c.straddle.value.seat
    ensures var posted := PostAt(ps, c.straddle.value.seat, c.straddle.value.amount);
      Table(posted) && PostedAll(c, sb, bb, k, posted)
    ensures c.players[k].stack >= c.ante + c.straddle.value.amount
  {
    k := StraddlerIsThird(c, ps, sb, bb, c.straddle.value.seat);
    PostOne(ps, k, c.straddle.value.amount);
    StraddlePosted(c, sb, bb, k, ps);
  }

  lemma {:induction false} PostingKeepsOrder(c: Config, antes: seq<Player>, blinds: seq<Player>, sb: nat, bb: nat,
      after: int, next: int)
    requires |antes| == |c.players| && PostedAll(c, sb, bb, -1, blinds)
    requires forall i :: 0 <= i < |antes| ==> antes[i] == Posted(c, c.players[i], 0)
    requires IsNext(antes, after, next)
    ensures IsNext(blinds, after, next)
  {
    SameSeatsNext(antes, blinds, after, next);
  }

  lemma {:induction false} StraddlerAmong(c: Config, blinds: seq<Player>, sb: nat, bb: nat) returns (straddler: int)
    requires ValidConfig(c)
    requires Table(blinds) && PostedAll(c, sb, bb, -1, blinds)
    requires sb < |blinds| && bb < |blinds| && sb != bb && IsNext(blinds, blinds[sb].seat, blinds[bb].seat)
    requires StraddleFits(c, blinds, blinds[bb].seat)
    ensures -1 <= straddler < |c.players| && straddler != sb && straddler != bb
    ensures c.straddle.Some? <==> straddler >= 0
    ensures c.straddle.Some? ==> c.players[straddler].stack >= c.ante + c.straddle.value.amount
    ensures c.straddle.Some? ==> c.players[straddler].seat == c.straddle.value.seat
    ensures var ps := AfterStraddle(c, blinds); Table(ps) && PostedAll(c, sb, bb, straddler, ps)
  {
    if c.straddle.Some? {
      straddler := StraddleCovered(c, blinds, sb, bb);
    } else {
      straddler := -1;
    }
  }

  /** The k-th player sits closest to a seat going clockwise, the seat itself counting as farthest. */
  ghost predicate Follows(c: Config, after: int, k: int) {
    && 0 <= k < |c.players|
    && forall i :: 0 <= i < |c.players| ==> Distance(after, c.players[k].seat) <= Distance(after, c.players[i].seat)
  }

  lemma {:induction false} IsNextFollows(c: Config, ps: seq<Player>, after: int, k: int)
    requires |ps| == |c.players| && forall i :: 0 <= i < |ps| ==> ps[i].seat == c.players[i].seat
    requires 0 <= k < |c.players| && IsNext(ps, after, c.players[k].seat)
    ensures Follows(c, after, k)
  {
    forall i | 0 <= i < |c.players| ensures Distance(after, c.players[k].seat) <= Distance(after, c.players[i].seat) {
      assert ps[i].seat == c.players[i].seat;
    }
  }

  /** The blinds and the straddle go around clockwise from the button; heads-up the button is the small blind. */
  ghost predicate Around(c: Config, sb: int, bb: int, straddler: int) {
    && 0 <= sb < |c.players| && 0 <= bb < |c.players|
    && (|c.players| == 2 ==> c.players[sb].seat == c.buttonSeat)
    && (|c.players| > 2 ==> Follows(c, c.buttonSeat, sb))
    && Follows(c, c.players[sb].seat, bb)
    && (c.straddle.Some? ==> Follows(c, c.players[bb].seat, straddler))
  }

  lemma {:induction false} PostsAreAround(c: Config, sb: nat, bb: nat, straddler: int)
    requires ValidConfig(c) && StraddleFits(c, AfterBlinds(c), BigBlindSeat(c))
    requires sb < |c.players| && bb < |c.players| && c.players[sb].seat == SmallBlindSeat(c)
    requires c.players[bb].seat == BigBlindSeat(c) && IsNext(AfterAntes(c), SmallBlindSeat(c), BigBlindSeat(c))
    requires Table(AfterBlinds(c)) && PostedAll(c, sb, bb, -1, AfterBlinds(c))
    requires c.straddle.Some? ==> 0 <= straddler < |c.players| && c.players[straddler].seat == c.straddle.value.seat
    ensures Around(c, sb, bb, straddler)
  {
    hide AfterAntes, AfterBlinds, SmallBlindSeat, BigBlindSeat, Table, IsNext, Follows, StraddleFits, PostedAll;
    AntesPaid(c);
    SameSeats(c, AfterAntes(c));
    IsNextFollows(c, AfterAntes(c), c.players[sb].seat, bb);
    SmallBlindFollows(c, sb);
    if c.straddle.Some? {
      StraddlerFollows(c, AfterBlinds(c), sb, bb, straddler);
    }
  }

  lemma {:induction false} SameSeats(c: Config, antes: seq<Player>)
    requires |antes| == |c.players|
    requires forall i :: 0 <= i < |c.players| ==> antes[i] == Posted(c, c.players[i], 0)
    ensures forall i :: 0 <= i < |c.players| ==> antes[i].seat == c.players[i].seat
  {
  }

  lemma {:induction false} SmallBlindFollows(c: Config, sb: nat)
    requires ValidConfig(c) && sb < |c.players| && c.players[sb].seat == SmallBlindSeat(c)
    ensures |c.players| == 2 ==> c.players[sb].seat == c.buttonSeat
    ensures |c.players| > 2 ==> Follows(c, c.buttonSeat, sb)
  {
    hide AfterAntes, Table, IsNext, Follows, SeatAfter;
    if |c.players| > 2 {
      AntesPaid(c);
      SameSeats(c, AfterAntes(c));
      ButtonOnTable(c);
      SeatAfterIsNext(AfterAntes(c), c.buttonSeat);
      IsNextFollows(c, AfterAntes(c), c.buttonSeat, sb);
    }
  }

  lemma {:induction false} ButtonOnTable(c: Config)
    requires ValidConfig(c)
    ensures 0 <= c.buttonSeat <= 8
  {
    var i :| 0 <= i < |c.players| && c.players[i].seat == c.buttonSeat;
  }

  lemma {:induction false} StraddlerFollows(c: Config, blinds: seq<Player>, sb: nat, bb: nat, straddler: int)
    requires ValidConfig(c) && Table(blinds) && bb < |c.players| && sb < |c.players| && c.straddle.Some?
    requires StraddleFits(c, blinds, c.players[bb].seat) && PostedAll(c, sb, bb, -1, blinds)
    requires 0 <= straddler < |c.players| && c.players[straddler].seat == c.straddle.value.seat
    ensures Follows(c, c.players[bb].seat, straddler)
  {
    hide Table, IsNext, Follows, NextSeat;
    forall i | 0 <= i < |blinds| ensures Active(blinds[i]) && blinds[i].seat == c.players[i].seat {
    }
    NextOfAll(blinds, c.players[bb].seat, Active);
    IsNextFollows(c, blinds, c.players[bb].seat, straddler);
  }

  /** Opening a hand posts every forced bet, at different seats, going clockwise from the button. */
  lemma {:induction false} OpeningPosts(c: Config) returns (sb: nat, bb: nat, straddler: int)
    requires ValidConfig(c) && StraddleFits(c, AfterBlinds(c), BigBlindSeat(c))
    ensures Posting(c, sb, bb, straddler, Opened(c)) && Around(c, sb, bb, straddler)
  {
    hide Posting, Around;
    sb, bb := OpeningSeats(c);
    BlindsPosted(c, sb, bb);
    straddler := StraddlerAmong(c, AfterBlinds(c), sb, bb);
    PostingFields(c, sb, bb, straddler, Opened(c));
    PostsAreAround(c, sb, bb, straddler);
  }

  lemma {:induction false} PostingFields(c: Config, sb: nat, bb: nat, straddler: int, h: Hand)
    requires ValidConfig(c) && sb < |c.players| && bb < |c.players| && sb != bb
    requires -1 <= straddler < |c.players| && straddler != sb && straddler != bb
    requires c.straddle.Some? <==> straddler >= 0
    requires c.straddle.Some? ==> c.straddle.value.amount >= 2 * c.bigBlind
                                  && c.players[straddler].stack >= c.ante + c.straddle.value.amount
    requires h.smallBlindSeat == c.players[sb].seat && h.bigBlindSeat == c.players[bb].seat
    requires h.smallBlind == c.smallBlind && h.bigBlind == c.bigBlind && h.ante == c.ante
    requires h.phase == Preflop && h.status == Betting && h.board == [] && h.acted == []
    requires h.currentBet == (match c.straddle case None => c.bigBlind case Some(s) => s.amount)
    requires h.lastFullRaise == (match c.straddle case None => c.bigBlind case Some(s) => s.amount - c.bigBlind)
    requires Table(h.players) && PostedAll(c, sb, bb, straddler, h.players)
    ensures Posting(c, sb, bb, straddler, h)
  {
  }

  // ----- The opened hand satisfies the invariant -----

  /** The fields of a posting hand alone: every clause but who owns the top contribution. */
  lemma {:induction false} PostingIsSound(c: Config, sb: nat, bb: nat, straddler: int, h: Hand)
    requires ValidConfig(c) && Posting(c, sb, bb, straddler, h)
    ensures Chips(h.players) && Bets(h, c.ante) && Raises(h) && Board(h)
    ensures Count(Active, h.players) >= 2
  {
    assert Active(h.players[0]) && Active(h.players[1]);
    CountAtLeastTwo(Active, h.players, 0, 1);
    PostedPlayers(c, sb, bb, straddler, h);
  }

  lemma {:induction false} PostedPlayers(c: Config, sb: nat, bb: nat, straddler: int, h: Hand)
    requires ValidConfig(c) && Posting(c, sb, bb, straddler, h)
    ensures Chips(h.players) && Bets(h, c.ante)
  {
  }

  /** `StrandsPot` in terms of the two blinds' positions. */
  ghost predicate Strands(c: Config, sb: nat, bb: nat)
    requires sb < |c.players| && bb < |c.players|
  {
    && c.straddle.None?
    && c.players[bb].stack < c.ante
    && (forall e :: e in c.players ==> e.stack != c.ante)
    && !HeldBySmallBlind(c, c.players[sb].stack)
    && Count((e: Entrant) => e.stack > c.ante, c.players) >= 2
  }

  lemma {:induction false} FindEntrant(c: Config, i: nat)
    requires ValidConfig(c) && i < |c.players|
    ensures StackAt(c, c.players[i].seat) == c.players[i].stack
  {
    assert c.players[i] in c.players;
  }

  lemma {:induction false} StrandsByPosition(c: Config, sb: nat, bb: nat, straddler: int)
    requires ValidConfig(c) && Posting(c, sb, bb, straddler, Opened(c))
    ensures StrandsPot(c) <==> Strands(c, sb, bb)
  {
    FindEntrant(c, sb);
    FindEntrant(c, bb);
  }

  lemma {:induction false} PostingIsOwned(c: Config, sb: nat, bb: nat, straddler: int, h: Hand)
    requires ValidConfig(c) && Posting(c, sb, bb, straddler, h)
    ensures Mid(h, Floor(c.ante, !Strands(c, sb, bb)))
  {
    PostingIsSound(c, sb, bb, straddler, h);
    if c.straddle.Some? {
      assert Holds(h, c.ante, straddler);
    } else if c.players[bb].stack >= c.ante + c.bigBlind {
      assert Holds(h, c.ante, bb);
    } else if c.smallBlind == c.bigBlind && c.players[sb].stack >= c.ante + c.smallBlind {
      assert Holds(h, c.ante, sb);
    } else {
      assert AllInLive(h.players, bb);
      if !Strands(c, sb, bb) {
        AnchoredOrFew(c, sb, bb, h);
      }
    }
  }

  lemma {:induction false} AnchoredOrFew(c: Config, sb: nat, bb: nat, h: Hand)
    requires ValidConfig(c) && Posting(c, sb, bb, -1, h)
    requires !Strands(c, sb, bb)
    requires c.players[bb].stack < c.ante + c.bigBlind
    requires c.smallBlind == c.bigBlind ==> c.players[sb].stack < c.ante + c.smallBlind
    ensures
      || (exists i :: Anchor(h.players, c.ante, i))
      || (forall i, j :: 0 <= i < j < |h.players| ==> h.players[i].allIn || h.players[j].allIn)
  {
    var ps := h.players;
    if c.players[bb].stack >= c.ante {
      assert AllInLive(ps, bb) && Anchor(ps, c.ante, bb);
    } else if i :| 0 <= i < |c.players| && c.players[i].stack == c.ante {
      assert AllInLive(ps, i) && Anchor(ps, c.ante, i);
    } else if HeldBySmallBlind(c, c.players[sb].stack) {
      assert AllInLive(ps, sb) && Anchor(ps, c.ante, sb);
    } else {
      FewCanFold(c, sb, bb, h);
    }
  }

  lemma {:induction false} FewCanFold(c: Config, sb: nat, bb: nat, h: Hand)
    requires ValidConfig(c) && Posting(c, sb, bb, -1, h)
    requires Count((e: Entrant) => e.stack > c.ante, c.players) < 2
    ensures forall i, j :: 0 <= i < j < |h.players| ==> h.players[i].allIn || h.players[j].allIn
  {
    forall i, j | 0 <= i < j < |h.players| ensures h.players[i].allIn || h.players[j].allIn {
      if !h.players[i].allIn && !h.players[j].allIn {
        CountAtLeastTwo((e: Entrant) => e.stack > c.ante, c.players, i, j);
      }
    }
  }

  /** Whoever is asked first is able to act; with nobody able to, the board is run out. */
  lemma {:induction false} FirstActorCanAct(h: Hand)
    requires Table(h.players) && h.acted == []
    ensures match FirstActor(h)
      case None => true
      case Some(seat) => exists i :: 0 <= i < |h.players| && Pending(h, h.players[i]) && h.players[i].seat == seat
  {
    NextSeatFinds(h.players, match h.straddle case None => h.bigBlindSeat case Some(s) => s.seat, Actionable);
  }

  lemma {:induction false} AskFirst(o: Hand, f: Floor, h: Hand)
    requires Mid(o, f) && o.status == Betting && o.acted == [] && Count(Active, o.players) >= 2
    requires match FirstActor(o)
      case Some(seat) => h == o.(actionSeat := Some(seat))
      case None => FinishOrAdvance(o, o.bigBlindSeat) == Ok(h)
    ensures Invariant(h, f)
  {
    FirstActorCanAct(o);
    MidIsCovered(o, f);
    match FirstActor(o)
    case None =>
      FinishVerdict(o, o.bigBlindSeat);
      VerdictKeeps(o, f, h);
    case Some(seat) =>
      var i :| 0 <= i < |o.players| && Pending(o, o.players[i]) && o.players[i].seat == seat;
      SameBets(o, f, h);
      assert ToAct(h, i);
  }

  lemma {:induction false} OpeningHolds(c: Config, h: Hand)
    requires CreateBettingState(c) == Ok(h)
    ensures Invariant(h, Floor(c.ante, !StrandsPot(c)))
  {
    CheckedConfig(c);
    AcceptedStraddle(c);
    var sb, bb, straddler := OpeningPosts(c);
    StrandsByPosition(c, sb, bb, straddler);
    PostingIsSound(c, sb, bb, straddler, Opened(c));
    PostingIsOwned(c, sb, bb, straddler, Opened(c));
    AskFirst(Opened(c), Floor(c.ante, !StrandsPot(c)), h);
  }
}
