/**
 * The in-memory store of table events with its index of action deadlines and their leases
 * (MemoryTableEventStore of server/table-coordinator.js).
 */
module Deadlines {
  import opened Wrappers
  import opened Seqs
  import opened Tables
  import opened TableInvariant
  import B = Betting
  import BI = BettingInvariant
  import BettingProgress
  import EventLog
  import Seats
  import TableRuns

  type TableId = nat

  datatype Deadline = Deadline(tableId: TableId, handId: nat, bettingVersion: nat, playerId: PlayerId, at: int,
                               leaseOwner: Option<nat>, leaseUntil: Option<int>)

  function TimeOf(d: Deadline): int { d.at }

  // ----- What an event says about the deadline -----

  predicate MutatesTurn(e: TableEvent) {
    e.HandStarted? || e.ActionApplied? || e.ActionTimedOut? || e.StreetDealt? || e.RunoutDealt? || e.HandFinished?
  }

  function DeadlineOf(tableId: TableId, betting: Timed, turn: Option<Turn>): Option<Deadline> {
    if betting.hand.status != B.Betting || turn.None? then None
    else Some(Deadline(tableId, betting.hand.handId, betting.hand.version, turn.value.playerId, turn.value.deadline,
      None, None))
  }

  function NextDeadline(tableId: TableId, before: Option<Deadline>, e: TableEvent): Option<Deadline> {
    match e
    case HandStarted(_, _, _, _, betting, turn) => DeadlineOf(tableId, betting, turn)
    case ActionApplied(betting, turn) => DeadlineOf(tableId, betting, turn)
    case ActionTimedOut(betting, turn) => DeadlineOf(tableId, betting, turn)
    case StreetDealt(_, betting, turn) => DeadlineOf(tableId, betting, turn)
    case RunoutDealt(_, _) => None
    case HandFinished(_, _) => None
    case _ => before
  }

  /** The deadline a log leaves behind. */
  function LastDeadline(tableId: TableId, log: seq<TableEvent>): Option<Deadline> {
    if log == [] then None else NextDeadline(tableId, LastDeadline(tableId, log[..|log| - 1]), log[|log| - 1])
  }

  /** A deadline is open exactly while a hand is betting, and it is that turn's. */
  ghost predicate Agrees(s: State, d: Option<Deadline>) {
    && (d.Some? <==> s.current.Some? && s.current.value.betting.hand.status == B.Betting && s.current.value.turn.Some?)
    && (d.Some? ==>
          var hand, turn := s.current.value.betting.hand, s.current.value.turn.value;
          && d.value.handId == hand.handId && d.value.bettingVersion == hand.version
          && d.value.playerId == turn.playerId && d.value.at == turn.deadline)
  }

  lemma {:induction false} StepAgrees(tableId: TableId, s: State, d: Option<Deadline>, e: TableEvent)
    requires Agrees(s, d) && Step(s, e).Ok?
    ensures Agrees(Step(s, e).value, NextDeadline(tableId, d, e))
  {
  }

  lemma {:induction false} DeadlineAgrees(tableId: TableId, log: seq<TableEvent>)
    requires Reduce(log).Ok?
    ensures Agrees(Reduce(log).value, LastDeadline(tableId, log))
  {
    if log != [] {
      var front, e := log[..|log| - 1], log[|log| - 1];
      assert log == front + [e];
      TableRuns.ReplayConcat(NO_TABLE, front, [e]);
      assert [e][1..] == [];
      DeadlineAgrees(tableId, front);
      StepAgrees(tableId, Reduce(front).value, LastDeadline(tableId, front), e);
    }
  }

  /**
   * On every log the coordinator can write, the table has a deadline if and only if its hand is in a
   * betting round, and then it is the deadline of the player to act at the present version.
   */
  lemma {:induction false} DeadlineIffBetting(dealers: Dealers, tableId: TableId, log: seq<TableEvent>)
    requires EventLog.Written(Decide(dealers), log)
    ensures Reduce(log).Ok?
    ensures LastDeadline(tableId, log).Some?
      <==> Reduce(log).value.current.Some? && Reduce(log).value.current.value.betting.hand.status == B.Betting
    ensures Agrees(Reduce(log).value, LastDeadline(tableId, log))
  {
    TableRuns.LogsReplay(dealers, log);
    DeadlineAgrees(tableId, log);
  }

  /** The same of the stored log, in every interleaving of calls on observed versions. */
  lemma {:induction false} InterleavedDeadlines(dealers: Dealers, tableId: TableId, moves: seq<EventLog.Move<Request>>)
    requires EventLog.ObservedRun(Decide(dealers), EventLog.Start(), moves)
    ensures var log := EventLog.Payloads(EventLog.DoAll(Decide(dealers), EventLog.Start(), moves).store.events);
      && Reduce(log).Ok?
      && (LastDeadline(tableId, log).Some? <==>
            (Reduce(log).value.current.Some? && Reduce(log).value.current.value.betting.hand.status == B.Betting))
      && Agrees(Reduce(log).value, LastDeadline(tableId, log))
  {
    hide Decide, Reduce, LastDeadline, Agrees;
    EventLog.InterleavingsAreSerial(Decide(dealers), moves);
    DeadlineIffBetting(dealers, tableId,
      EventLog.Payloads(EventLog.DoAll(Decide(dealers), EventLog.Start(), moves).store.events));
  }

  /** The player to act can be timed out exactly from the deadline on. */
  lemma {:induction false} TimeoutIffExpired(s: State, now: int)
    requires TableOk(s) && Playable(s).Some? && s.current.value.turn.Some?
    ensures DecideTimeout(s, s.current.value.betting.hand.version, now).Some? <==>
        s.current.value.turn.value.deadline <= now
  {
    hide B.ApplyTimeout, TurnFor, ValidRules, BoardOk;
    var hand := s.current.value;
    var h := hand.betting.hand;
    var i :| BI.ToAct(h, i) && hand.turn.value.playerId == h.players[i].playerId;
    var f :| BI.Invariant(h, f);
    BettingProgress.ActorMayTimeOut(h, f, i);
    var emptied := Emptied(hand.betting, hand.turn.value.playerId);
    var next := B.ApplyTimeout(h, hand.turn.value.playerId, h.version).value;
    assert B.Apply(h, B.TimeOut(hand.turn.value.playerId, h.version)) == Ok(next);
    StepOk(h, B.TimeOut(hand.turn.value.playerId, h.version), next);
    ClockFinds(emptied.(hand := next), s.rules.value.actionClock, now);
  }

  /** A worker that finds a table's deadline expired gets its timeout accepted, and no earlier. */
  lemma {:induction false} ExpiredDeadlineTimesOut(dealers: Dealers, tableId: TableId, log: seq<TableEvent>, now: int)
    requires EventLog.Written(Decide(dealers), log) && LastDeadline(tableId, log).Some?
    ensures Reduce(log).Ok?
    ensures DecideTimeout(Reduce(log).value, LastDeadline(tableId, log).value.bettingVersion, now).Some?
      <==> LastDeadline(tableId, log).value.at <= now
  {
    DeadlineIffBetting(dealers, tableId, log);
    TableRuns.LogsReplay(dealers, log);
    TimeoutIffExpired(Reduce(log).value, now);
  }

  // ----- The index -----

  /** The index entry of a table, as a map keyed by table would return it. */
  function Entry(index: seq<Deadline>, tableId: TableId): Option<Deadline> {
    match IndexWhere((d: Deadline) => d.tableId == tableId, index)
    case None => None
    case Some(i) => Some(index[i])
  }

  predicate UniqueTables(index: seq<Deadline>) {
    forall i, j :: 0 <= i < j < |index| ==> index[i].tableId != index[j].tableId
  }

  function Elsewhere(tableId: TableId): Deadline -> bool { (d: Deadline) => d.tableId != tableId }

  /** Setting a key keeps its place; a new key goes last. */
  function Put(index: seq<Deadline>, d: Deadline): seq<Deadline> {
    match IndexWhere((x: Deadline) => x.tableId == d.tableId, index)
    case None => index + [d]
    case Some(i) => index[i := d]
  }

  function Synced(index: seq<Deadline>, tableId: TableId, e: TableEvent): seq<Deadline> {
    if !MutatesTurn(e) then index
    else match NextDeadline(tableId, None, e)
      case None => Filter(Elsewhere(tableId), index)
      case Some(d) => Put(index, d)
  }

  function WithoutLease(d: Option<Deadline>): Option<Deadline> {
    match d case None => None case Some(x) => Some(x.(leaseOwner := None, leaseUntil := None))
  }

  lemma {:induction false} EntryIs(index: seq<Deadline>, i: nat)
    requires UniqueTables(index) && i < |index|
    ensures Entry(index, index[i].tableId) == Some(index[i])
  {
    assert index[i] in index;
  }

  lemma {:induction false} PutSets(index: seq<Deadline>, d: Deadline, other: TableId)
    requires UniqueTables(index)
    ensures UniqueTables(Put(index, d))
    ensures Entry(Put(index, d), other) == if other == d.tableId then Some(d) else Entry(index, other)
  {
    var after := Put(index, d);
    match IndexWhere((x: Deadline) => x.tableId == d.tableId, index) {
      case None =>
        forall i | 0 <= i < |index| ensures index[i].tableId != d.tableId {
          assert index[i] in index;
        }
      case Some(i) =>
    }
    SameEntry(index, after, d, other);
  }

  lemma {:induction false} SameEntry(index: seq<Deadline>, after: seq<Deadline>, d: Deadline, other: TableId)
    requires UniqueTables(index) && UniqueTables(after) && after == Put(index, d)
    ensures Entry(after, other) == if other == d.tableId then Some(d) else Entry(index, other)
  {
    if other == d.tableId {
      match IndexWhere((x: Deadline) => x.tableId == d.tableId, index) {
        case None => assert after[|index|] == d;
        case Some(i) => assert after[i] == d;
      }
      assert d in after;
      var i :| 0 <= i < |after| && after[i] == d;
      EntryIs(after, i);
    } else if Entry(index, other).Some? {
      var i := IndexWhere((x: Deadline) => x.tableId == other, index).value;
      assert after[i] == index[i];
      EntryIs(after, i);
    } else {
      forall x | x in after ensures x.tableId != other {
        assert x == d || x in index;
      }
    }
  }

  lemma {:induction false} DropRemoves(index: seq<Deadline>, tableId: TableId)
    requires UniqueTables(index)
    ensures UniqueTables(Filter(Elsewhere(tableId), index))
    ensures forall other: TableId ::
      Entry(Filter(Elsewhere(tableId), index), other) == if other == tableId then None else Entry(index, other)
  {
    var after := Filter(Elsewhere(tableId), index);
    FilteredUnique(index, tableId);
    forall other: TableId
      ensures Entry(after, other) == if other == tableId then None else Entry(index, other)
    {
      if other != tableId && Entry(index, other).Some? {
        var i := IndexWhere((x: Deadline) => x.tableId == other, index).value;
        assert index[i] in index && index[i] in after;
        var j :| 0 <= j < |after| && after[j] == index[i];
        EntryIs(after, j);
      } else {
        forall x | x in after ensures x.tableId != other {
          assert x in index;
        }
      }
    }
  }

  lemma {:induction false} FilteredUnique(index: seq<Deadline>, tableId: TableId)
    requires UniqueTables(index)
    ensures UniqueTables(Filter(Elsewhere(tableId), index))
  {
    if index != [] {
      FilteredUnique(index[1..], tableId);
      var rest := Filter(Elsewhere(tableId), index[1..]);
      forall i | 0 <= i < |rest| ensures rest[i].tableId != index[0].tableId {
        assert rest[i] in rest;
        assert rest[i] in index[1..];
        var k :| 0 <= k < |index[1..]| && index[1..][k] == rest[i];
        assert index[k + 1] == rest[i];
      }
    }
  }

  type Logs = map<TableId, seq<TableEvent>>

  function LogOf(logs: Logs, tableId: TableId): seq<TableEvent> { if tableId in logs then logs[tableId] else [] }

  /** For every table the index holds, leases aside, the deadline its log leaves behind. */
  ghost predicate Indexed(index: seq<Deadline>, logs: Logs) {
    && UniqueTables(index)
    && forall t: TableId :: WithoutLease(Entry(index, t)) == LastDeadline(t, LogOf(logs, t))
  }

  lemma {:induction false} SyncSets(index: seq<Deadline>, tableId: TableId, e: TableEvent, t: TableId)
    requires UniqueTables(index)
    ensures UniqueTables(Synced(index, tableId, e))
    ensures WithoutLease(Entry(Synced(index, tableId, e), t))
         == if t != tableId then WithoutLease(Entry(index, t))
            else NextDeadline(tableId, WithoutLease(Entry(index, t)), e)
  {
    hide Entry, Put, UniqueTables;
    DropRemoves(index, tableId);
    if MutatesTurn(e) && NextDeadline(tableId, None, e).Some? {
      PutSets(index, NextDeadline(tableId, None, e).value, t);
    }
  }

  lemma {:induction false} LastIsNext(tableId: TableId, log: seq<TableEvent>, e: TableEvent)
    ensures LastDeadline(tableId, log + [e]) == NextDeadline(tableId, LastDeadline(tableId, log), e)
  {
    hide NextDeadline;
    assert (log + [e])[..|log + [e]| - 1] == log;
  }

  lemma {:induction false} SyncIndexed(index: seq<Deadline>, logs: Logs, tableId: TableId, e: TableEvent)
    requires Indexed(index, logs)
    ensures Indexed(Synced(index, tableId, e), logs[tableId := LogOf(logs, tableId) + [e]])
  {
    hide Synced, Entry, WithoutLease, NextDeadline, LastDeadline, UniqueTables;
    var logs' := logs[tableId := LogOf(logs, tableId) + [e]];
    SyncSets(index, tableId, e, tableId);
    forall t: TableId
      ensures WithoutLease(Entry(Synced(index, tableId, e), t)) == LastDeadline(t, LogOf(logs', t))
    {
      SyncSets(index, tableId, e, t);
      LastIsNext(tableId, LogOf(logs, tableId), e);
      assert WithoutLease(Entry(index, t)) == LastDeadline(t, LogOf(logs, t));
    }
  }

  // ----- Leases -----

  predicate Free(d: Deadline, now: int) {
    d.at <= now && (d.leaseUntil.Some? ==> d.leaseUntil.value <= now)
  }

  /** Tables whose expired, unleased deadlines are claimed, earliest first, up to the limit. */
  function Claims(order: seq<Deadline>, now: int, limit: nat): seq<TableId> {
    if order == [] || limit == 0 then []
    else if Free(order[0], now) then [order[0].tableId] + Claims(order[1..], now, limit - 1)
    else Claims(order[1..], now, limit)
  }

  function Leased(index: seq<Deadline>, tables: seq<TableId>, owner: nat, until: int): (r: seq<Deadline>)
    ensures |r| == |index|
  {
    seq(|index|, i requires 0 <= i < |index| =>
      if index[i].tableId in tables then index[i].(leaseOwner := Some(owner), leaseUntil := Some(until)) else index[i])
  }

  lemma {:induction false} LeasedEntries(index: seq<Deadline>, tables: seq<TableId>, owner: nat, until: int, t: TableId)
    requires UniqueTables(index)
    ensures UniqueTables(Leased(index, tables, owner, until))
    ensures Entry(Leased(index, tables, owner, until), t)
      == match Entry(index, t)
         case None => None
         case Some(d) => Some(if t in tables then d.(leaseOwner := Some(owner), leaseUntil := Some(until)) else d)
  {
    var after := Leased(index, tables, owner, until);
    if Entry(index, t).Some? {
      var i := IndexWhere((x: Deadline) => x.tableId == t, index).value;
      EntryIs(after, i);
    } else {
      forall x | x in after ensures x.tableId != t {
        var i :| 0 <= i < |after| && after[i] == x;
        assert index[i] in index;
      }
    }
  }

  lemma {:induction false} ClaimIndexed(index: seq<Deadline>, logs: Logs, tables: seq<TableId>, owner: nat, until: int)
    requires Indexed(index, logs)
    ensures Indexed(Leased(index, tables, owner, until), logs)
  {
    forall t: TableId
      ensures UniqueTables(Leased(index, tables, owner, until))
      ensures WithoutLease(Entry(Leased(index, tables, owner, until), t)) == LastDeadline(t, LogOf(logs, t))
    {
      LeasedEntries(index, tables, owner, until, t);
    }
  }

  lemma {:induction false} SortedMembers(index: seq<Deadline>)
    ensures forall d :: d in Seats.SortBySeat(TimeOf, index) <==> d in index
  {
    var sorted := Seats.SortBySeat(TimeOf, index);
    Seats.SortKeepsMembers(TimeOf, index);
    forall d ensures d in sorted <==> d in index {
      assert d in sorted <==> d in multiset(sorted);
      assert d in index <==> d in multiset(index);
    }
  }

  lemma {:induction false} LeasedAreSkipped(order: seq<Deadline>, now: int, limit: nat, t: TableId)
    requires forall d :: d in order && d.tableId == t ==> !Free(d, now)
    ensures t !in Claims(order, now, limit)
  {
    if order != [] && limit > 0 {
      assert order[0] in order;
      LeasedAreSkipped(order[1..], now, if Free(order[0], now) then limit - 1 else limit, t);
    }
  }

  // ----- Runs of the index -----

  /** A new event of some table, or a worker's claim. */
  datatype Move =
    | Append(tableId: TableId, event: TableEvent)
    | Claim(owner: nat, now: int, leaseMs: nat, limit: nat)

  function ClaimedBy(index: seq<Deadline>, m: Move): seq<TableId> {
    match m
    case Append(_, _) => []
    case Claim(_, now, _, limit) => Claims(Seats.SortBySeat(TimeOf, index), now, limit)
  }

  function Updated(index: seq<Deadline>, m: Move): seq<Deadline> {
    match m
    case Append(tableId, e) => Synced(index, tableId, e)
    case Claim(owner, now, leaseMs, _) => Leased(index, ClaimedBy(index, m), owner, now + leaseMs)
  }

  function After(index: seq<Deadline>, moves: seq<Move>): seq<Deadline> {
    if moves == [] then index else Updated(After(index, moves[..|moves| - 1]), moves[|moves| - 1])
  }

  /** The move leaves the table's turn alone and comes before the time. */
  predicate Spares(m: Move, t: TableId, until: int) {
    match m
    case Append(tableId, e) => tableId == t ==> !MutatesTurn(e)
    case Claim(_, now, _, _) => now < until
  }

  lemma {:induction false} LeasedIsSkipped(index: seq<Deadline>, now: int, limit: nat, d: Deadline)
    requires UniqueTables(index) && Entry(index, d.tableId) == Some(d) && !Free(d, now)
    ensures d.tableId !in Claims(Seats.SortBySeat(TimeOf, index), now, limit)
  {
    hide Entry;
    SortedMembers(index);
    forall x | x in Seats.SortBySeat(TimeOf, index) && x.tableId == d.tableId ensures !Free(x, now) {
      var i :| 0 <= i < |index| && index[i] == x;
      EntryIs(index, i);
    }
    LeasedAreSkipped(Seats.SortBySeat(TimeOf, index), now, limit, d.tableId);
  }

  lemma {:induction false} StaysLeased(index: seq<Deadline>, m: Move, d: Deadline, until: int)
    requires UniqueTables(index) && Entry(index, d.tableId) == Some(d) && d.leaseUntil == Some(until)
    requires Spares(m, d.tableId, until)
    ensures d.tableId !in ClaimedBy(index, m)
    ensures UniqueTables(Updated(index, m)) && Entry(Updated(index, m), d.tableId) == Some(d)
  {
    hide UniqueTables, Entry, Put, Leased, Claims;
    match m {
      case Append(tableId, e) =>
        DropRemoves(index, tableId);
        if MutatesTurn(e) && NextDeadline(tableId, None, e).Some? {
          PutSets(index, NextDeadline(tableId, None, e).value, d.tableId);
        }
      case Claim(owner, now, leaseMs, limit) =>
        LeasedIsSkipped(index, now, limit, d);
        LeasedEntries(index, ClaimedBy(index, m), owner, now + leaseMs, d.tableId);
    }
  }

  lemma {:induction false} LeaseLasts(index: seq<Deadline>, moves: seq<Move>, d: Deadline, until: int)
    requires UniqueTables(index) && Entry(index, d.tableId) == Some(d) && d.leaseUntil == Some(until)
    requires forall m :: m in moves ==> Spares(m, d.tableId, until)
    ensures UniqueTables(After(index, moves)) && Entry(After(index, moves), d.tableId) == Some(d)
    decreases |moves|
  {
    hide UniqueTables, Entry, Updated;
    if moves != [] {
      LeaseLasts(index, moves[..|moves| - 1], d, until);
      StaysLeased(After(index, moves[..|moves| - 1]), moves[|moves| - 1], d, until);
    }
  }

  lemma {:induction false} ClaimedIsIndexed(order: seq<Deadline>, now: int, limit: nat, t: TableId)
    requires t in Claims(order, now, limit)
    ensures exists d :: d in order && d.tableId == t
  {
    if order[0].tableId == t {
      assert order[0] in order;
    } else {
      ClaimedIsIndexed(order[1..], now, if Free(order[0], now) then limit - 1 else limit, t);
      var d :| d in order[1..] && d.tableId == t;
      assert d in order;
    }
  }

  lemma {:induction false} ClaimLeases(index: seq<Deadline>, claim: Move, t: TableId) returns (d: Deadline)
    requires UniqueTables(index) && claim.Claim? && t in ClaimedBy(index, claim)
    ensures Entry(index, t).Some?
    ensures d == Entry(index, t).value.(leaseOwner := Some(claim.owner), leaseUntil := Some(claim.now + claim.leaseMs))
    ensures d.tableId == t && UniqueTables(Updated(index, claim)) && Entry(Updated(index, claim), t) == Some(d)
  {
    hide Leased, Claims;
    ClaimedIsIndexed(Seats.SortBySeat(TimeOf, index), claim.now, claim.limit, t);
    SortedMembers(index);
    var x :| x in Seats.SortBySeat(TimeOf, index) && x.tableId == t;
    var i :| 0 <= i < |index| && index[i] == x;
    EntryIs(index, i);
    LeasedEntries(index, ClaimedBy(index, claim), claim.owner, claim.now + claim.leaseMs, t);
    d := Entry(index, t).value.(leaseOwner := Some(claim.owner), leaseUntil := Some(claim.now + claim.leaseMs));
  }

  /**
   * A claimed turn is its claimer's until the lease runs out or an event of the table ends the turn:
   * whatever other events are appended and whoever else claims before that, in any number and order,
   * nobody is given the turn again, and its entry keeps owner and expiry.
   */
  lemma {:induction false} LeasesAreExclusive(index: seq<Deadline>, claim: Move, moves: seq<Move>, t: TableId)
    requires UniqueTables(index) && claim.Claim? && t in ClaimedBy(index, claim)
    requires forall m :: m in moves ==> Spares(m, t, claim.now + claim.leaseMs)
    ensures forall k :: 0 <= k < |moves| ==> t !in ClaimedBy(After(Updated(index, claim), moves[..k]), moves[k])
    ensures Entry(index, t).Some?
    ensures Entry(After(Updated(index, claim), moves), t)
      == Some(Entry(index, t).value.(leaseOwner := Some(claim.owner), leaseUntil := Some(claim.now + claim.leaseMs)))
  {
    hide UniqueTables, Entry, Updated, ClaimedBy;
    var until := claim.now + claim.leaseMs;
    var d := ClaimLeases(index, claim, t);
    var leased := Updated(index, claim);
    forall k | 0 <= k < |moves| ensures t !in ClaimedBy(After(leased, moves[..k]), moves[k]) {
      assert moves[k] in moves && forall m :: m in moves[..k] ==> m in moves;
      LeaseLasts(leased, moves[..k], d, until);
      StaysLeased(After(leased, moves[..k]), moves[k], d, until);
    }
    LeaseLasts(leased, moves, d, until);
  }

  // ----- The store -----

  type Events = map<TableId, seq<EventLog.Event<TableEvent>>>

  function EventsOf(events: Events, tableId: TableId): seq<EventLog.Event<TableEvent>> {
    if tableId in events then events[tableId] else []
  }

  function LogsOf(events: Events): Logs { map t | t in events :: EventLog.Payloads(events[t]) }

  lemma {:induction false} LogsGrow(events: Events, tableId: TableId, event: EventLog.Event<TableEvent>)
    ensures LogsOf(events[tableId := EventsOf(events, tableId) + [event]])
      == LogsOf(events)[tableId := LogOf(LogsOf(events), tableId) + [event.payload]]
  {
    var log := EventsOf(events, tableId);
    assert EventLog.Payloads(log + [event]) == EventLog.Payloads(log) + [event.payload];
  }

  class TableEventStore {
    var events: Events
    var keys: map<TableId, map<EventLog.Key, EventLog.Entry<Request, TableEvent>>>
    var deadlines: seq<Deadline>

    /** What the store knows of one table. */
    function StoreOf(tableId: TableId): EventLog.Store<Request, TableEvent>
      reads this
    {
      EventLog.Store(EventsOf(events, tableId), if tableId in keys then keys[tableId] else map[])
    }

    ghost predicate Valid()
      reads this
    {
      Indexed(deadlines, LogsOf(events))
    }

    constructor ()
      ensures Valid() && deadlines == [] && forall t: TableId :: StoreOf(t) == EventLog.Store([], map[])
    {
      events, keys, deadlines := map[], map[], [];
    }

    /** The atomic append; a new event also moves the table's deadline and frees it of any lease. */
    method Append(tableId: TableId, expected: int, key: EventLog.Key, digest: Request,
        event: EventLog.Event<TableEvent>)
      returns (r: Result<EventLog.Appended<TableEvent>, EventLog.StoreError>)
      requires Valid()
      modifies this
      ensures Valid()
      ensures (StoreOf(tableId), r) == EventLog.Append(old(StoreOf(tableId)), expected, key, digest, event)
      ensures forall t: TableId :: t != tableId ==> StoreOf(t) == old(StoreOf(t))
      ensures deadlines == if r.Ok?
          && !r.value.duplicate then Updated(old(deadlines), Move.Append(tableId, event.payload))
                           else old(deadlines)
    {
      hide Indexed, EventLog.Payloads, Synced;
      var known := if tableId in keys then keys[tableId] else map[];
      if key in known {
        var prior := known[key];
        if prior.digest != digest {
          return Err(EventLog.KeyReused);
        }
        return Ok(EventLog.Appended(prior.event, true));
      }
      var log := EventsOf(events, tableId);
      if |log| != expected {
        return Err(EventLog.VersionConflict);
      }
      SyncIndexed(deadlines, LogsOf(events), tableId, event.payload);
      LogsGrow(events, tableId, event);
      events := events[tableId := log + [event]];
      keys := keys[tableId := known[key := EventLog.Entry(digest, event)]];
      SyncDeadline(tableId, event.payload);
      return Ok(EventLog.Appended(event, false));
    }

    method SyncDeadline(tableId: TableId, e: TableEvent)
      modifies this`deadlines
      ensures deadlines == Synced(old(deadlines), tableId, e)
    {
      if !MutatesTurn(e) {
        return;
      }
      var next := NextDeadline(tableId, None, e);
      if next.None? {
        deadlines := Filter(Elsewhere(tableId), deadlines);
        return;
      }
      deadlines := Put(deadlines, next.value);
    }

    /** Leases expired deadlines to an owner, earliest first, skipping those still leased. */
    method ClaimExpiredDeadlines(owner: nat, now: int, leaseMs: nat, limit: nat) returns (claimed: seq<TableId>)
      requires Valid()
      modifies this`deadlines
      ensures Valid()
      ensures claimed == ClaimedBy(old(deadlines), Claim(owner, now, leaseMs, limit))
      ensures deadlines == Updated(old(deadlines), Claim(owner, now, leaseMs, limit))
    {
      hide Indexed, LogsOf, Leased, Seats.SortBySeat;
      var order := Seats.SortBySeat(TimeOf, deadlines);
      ghost var before := deadlines;
      claimed := [];
      var k := 0;
      while k < |order| && |claimed| < limit
        invariant k <= |order| && |claimed| <= limit
        invariant Claims(order, now, limit) == claimed + Claims(order[k..], now, limit - |claimed|)
      {
        var deadline := order[k];
        assert order[k..][0] == deadline && order[k..][1..] == order[k + 1..];
        if Free(deadline, now) {
          claimed := claimed + [deadline.tableId];
        }
        k := k + 1;
      }
      assert claimed + [] == claimed;
      ClaimIndexed(deadlines, LogsOf(events), claimed, owner, now + leaseMs);
      deadlines := Leased(deadlines, claimed, owner, now + leaseMs);
    }
  }
}
