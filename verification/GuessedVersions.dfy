/**
 * What the version check misses: the coordinator compares a caller's expected version with the store
 * only, never with the state it loaded (server/table-coordinator.js:560-574).
 */
module GuessedVersions {
  import opened Wrappers
  import opened EventLog
  import Tables
  import TableRuns

  // ----- A broken log stays broken -----

  lemma {:induction false} EventsGrow<R, P>(decide: Decision<R, P>, sys: System<R, P>, m: Move<R>)
    ensures sys.store.events <= Do(decide, sys, m).store.events
  {
  }

  lemma {:induction false} BrokenStays<R, P>(decide: Decision<R, P>, sys: System<R, P>, moves: seq<Move<R>>)
    requires !Chained(sys.store.events, 0, Genesis, None)
    ensures !Chained(DoAll(decide, sys, moves).store.events, 0, Genesis, None)
    decreases |moves|
  {
    if moves != [] {
      var next := Do(decide, sys, moves[0]);
      var n := |sys.store.events|;
      EventsGrow(decide, sys, moves[0]);
      assert next.store.events == sys.store.events + next.store.events[n..];
      ChainSplits(sys.store.events, next.store.events[n..], 0, Genesis, None);
      BrokenStays(decide, next, moves[1..]);
    }
  }

  /** A call about to load the log is refused. */
  ghost predicate Refuses<R, P>(decide: Decision<R, P>, sys: System<R, P>, id: nat) {
    id in sys.calls && sys.calls[id].stage.Looked? && !sys.calls[id].blind ==>
      Do(decide, sys, Load(id)).calls[id].stage == Rejected
  }

  /** Whatever is called from now on, no call that loads the log is ever accepted. */
  ghost predicate Unloadable<R(!new), P(!new)>(decide: Decision<R, P>, sys: System<R, P>) {
    forall later: seq<Move<R>>, id: nat :: Refuses(decide, DoAll(decide, sys, later), id)
  }

  lemma {:induction false} BrokenIsUnloadable<R(!new), P(!new)>(decide: Decision<R, P>, sys: System<R, P>)
    requires !Chained(sys.store.events, 0, Genesis, None)
    ensures Unloadable(decide, sys)
  {
    forall later: seq<Move<R>>, id: nat ensures Refuses(decide, DoAll(decide, sys, later), id) {
      BrokenStays(decide, sys, later);
    }
  }

  // ----- The race -----

  /** Two calls side by side, the second expecting the version the first is about to write. */
  function Race<R>(a: nat, b: nat, keyA: Key, keyB: Key, requestA: R, requestB: R, expected: int): seq<Move<R>> {
    [Submit(a, keyA, requestA, expected, false), Submit(b, keyB, requestB, expected + 1, false)]
    + ([Find(a), Find(b)] + ([Load(a), Load(b)] + ([ReadHead(a), ReadHead(b)] + [Commit(a), Commit(b)])))
  }

  lemma {:induction false} DoPair<R, P>(decide: Decision<R, P>, sys: System<R, P>, m: Move<R>, n: Move<R>,
                                        rest: seq<Move<R>>)
    ensures DoAll(decide, sys, [m, n] + rest) == DoAll(decide, Do(decide, Do(decide, sys, m), n), rest)
  {
    var moves := [m, n] + rest;
    assert moves[1..] == [n] + rest && moves[1..][1..] == rest;
  }

  /** Both calls are at a stage, with the store and the clock given. */
  ghost predicate Both<R, P>(sys: System<R, P>, store: Store<R, P>, clock: int, a: nat, b: nat, callA: Call<R, P>,
                             callB: Call<R, P>) {
    && sys.store == store && sys.clock == clock && a != b
    && a in sys.calls && b in sys.calls && sys.calls[a] == callA && sys.calls[b] == callB
  }

  lemma {:induction false} RaceLinks<R(!new), P(!new)>(decide: Decision<R, P>, sys: System<R, P>, a: nat, b: nat,
      keyA: Key, keyB: Key, requestA: R, requestB: R, payloadA: P, payloadB: P) returns (linked: System<R, P>)
    requires Known(decide, sys) && Chained(sys.store.events, 0, Genesis, None)
    requires a != b && a !in sys.calls && b !in sys.calls && keyA !in sys.store.keys && keyB !in sys.store.keys
    requires decide(Payloads(sys.store.events), requestA, sys.clock) == Some(payloadA)
    requires decide(Payloads(sys.store.events), requestB, sys.clock) == Some(payloadB)
    ensures var n, head := |sys.store.events|, Head(sys.store.events, Genesis);
      Both(linked, sys.store, sys.clock, a, b,
           Call(keyA, requestA, n, false, Linked(MakeEvent(n + 1, sys.clock, head, payloadA), n, n)),
           Call(keyB, requestB, n + 1, false, Linked(MakeEvent(n + 2, sys.clock, head, payloadB), n, n)))
    ensures Known(decide, linked)
    ensures DoAll(decide, sys, Race(a, b, keyA, keyB, requestA, requestB, |sys.store.events|))
      == DoAll(decide, linked, [Commit(a), Commit(b)])
  {
    hide DoAll, Known, Payloads;
    var n := |sys.store.events|;
    var submitA: Move<R>, submitB: Move<R> := Submit(a, keyA, requestA, n, false),
      Submit(b, keyB, requestB, n + 1, false);
    var s1 := DoTwo(decide, sys, submitA, submitB);
    assert Both(s1, sys.store, sys.clock, a, b, Call(keyA, requestA, n, false, Submitted),
                Call(keyB, requestB, n + 1, false, Submitted));
    var s2 := DoTwo(decide, s1, Find(a), Find(b));
    assert Both(s2, sys.store, sys.clock, a, b, Call(keyA, requestA, n, false, Looked),
                Call(keyB, requestB, n + 1, false, Looked));
    var s3 := DoTwo(decide, s2, Load(a), Load(b));
    assert Both(s3, sys.store, sys.clock, a, b, Call(keyA, requestA, n, false, Validated(payloadA, n)),
                Call(keyB, requestB, n + 1, false, Validated(payloadB, n)));
    linked := DoTwo(decide, s3, ReadHead(a), ReadHead(b));
    var commits: seq<Move<R>> := [Commit(a), Commit(b)];
    DoPair(decide, sys, submitA, submitB,
      [Find(a), Find(b)] + ([Load(a), Load(b)] + ([ReadHead(a), ReadHead(b)] + commits)));
    DoPair(decide, s1, Find(a), Find(b), [Load(a), Load(b)] + ([ReadHead(a), ReadHead(b)] + commits));
    DoPair(decide, s2, Load(a), Load(b), [ReadHead(a), ReadHead(b)] + commits);
    DoPair(decide, s3, ReadHead(a), ReadHead(b), commits);
  }

  lemma {:induction false} DoTwo<R(!new), P(!new)>(decide: Decision<R, P>, sys: System<R, P>, m: Move<R>, n: Move<R>)
    returns (after: System<R, P>)
    requires Known(decide, sys)
    ensures after == Do(decide, Do(decide, sys, m), n) && Known(decide, after)
  {
    after := Do(decide, Do(decide, sys, m), n);
    DoKnown(decide, sys, m);
    DoKnown(decide, Do(decide, sys, m), n);
  }

  /** Of two linked calls on the same head both commit, and the second one's link is wrong. */
  lemma {:induction false} BothCommit<R(!new), P(!new)>(decide: Decision<R, P>, sys: System<R, P>, a: nat, b: nat,
      callA: Call<R, P>, callB: Call<R, P>)
    requires Known(decide, sys) && Chained(sys.store.events, 0, Genesis, None)
    requires Both(sys, sys.store, sys.clock, a, b, callA, callB)
    requires callA.stage.Linked? && callB.stage.Linked? && callA.key != callB.key
    requires callA.key !in sys.store.keys && callB.key !in sys.store.keys
    requires callA.expected == callA.stage.linked == callB.stage.linked == |sys.store.events|
    requires callB.expected == |sys.store.events| + 1
    ensures DoAll(decide, sys, [Commit(a), Commit(b)]).store.events
      == sys.store.events + [callA.stage.event, callB.stage.event]
    ensures !Chained(DoAll(decide, sys, [Commit(a), Commit(b)]).store.events, 0, Genesis, None)
  {
    hide Known, Chained, Payloads;
    var next := Do(decide, sys, Commit(a));
    DoKnown(decide, sys, Commit(a));
    CommitKeepsChainIff(decide, sys, a);
    assert next.store.events == sys.store.events + [callA.stage.event];
    CommitKeepsChainIff(decide, next, b);
    var commits: seq<Move<R>> := [Commit(a), Commit(b)];
    DoPair(decide, sys, Commit(a), Commit(b), []);
    assert commits + [] == commits && DoAll(decide, Do(decide, next, Commit(b)), []) == Do(decide, next, Commit(b));
    assert sys.store.events + [callA.stage.event] + [callB.stage.event]
      == sys.store.events + [callA.stage.event, callB.stage.event];
  }

  /**
   * Wherever two requests are acceptable, a caller who guesses one version ahead can ruin the log: both
   * events are stored, both linked to the same predecessor, the log no longer verifies, and no call
   * that loads it is ever accepted again.
   */
  lemma {:induction false} GuessedVersionsBreakTheLog<R(!new), P(!new)>(decide: Decision<R, P>, sys: System<R, P>,
      a: nat, b: nat, keyA: Key, keyB: Key, requestA: R, requestB: R, payloadA: P, payloadB: P)
    requires Known(decide, sys) && Chained(sys.store.events, 0, Genesis, None)
    requires a != b && a !in sys.calls && b !in sys.calls
    requires keyA != keyB && keyA !in sys.store.keys && keyB !in sys.store.keys
    requires decide(Payloads(sys.store.events), requestA, sys.clock) == Some(payloadA)
    requires decide(Payloads(sys.store.events), requestB, sys.clock) == Some(payloadB)
    ensures var after := DoAll(decide, sys, Race(a, b, keyA, keyB, requestA, requestB, |sys.store.events|));
      var n, head := |sys.store.events|, Head(sys.store.events, Genesis);
      && after.store.events == sys.store.events
           + [MakeEvent(n + 1, sys.clock, head, payloadA), MakeEvent(n + 2, sys.clock, head, payloadB)]
      && !Chained(after.store.events, 0, Genesis, None)
      && Unloadable(decide, after)
  {
    hide DoAll, Known, Chained, Unloadable, Race, Payloads;
    var n, head := |sys.store.events|, Head(sys.store.events, Genesis);
    var linked := RaceLinks(decide, sys, a, b, keyA, keyB, requestA, requestB, payloadA, payloadB);
    BothCommit(decide, linked, a, b,
      Call(keyA, requestA, n, false, Linked(MakeEvent(n + 1, sys.clock, head, payloadA), n, n)),
      Call(keyB, requestB, n + 1, false, Linked(MakeEvent(n + 2, sys.clock, head, payloadB), n, n)));
    BrokenIsUnloadable(decide, DoAll(decide, sys, Race(a, b, keyA, keyB, requestA, requestB, n)));
  }

  // ----- On a table -----

  lemma {:induction false} DoAllConcat<R, P>(decide: Decision<R, P>, sys: System<R, P>, a: seq<Move<R>>,
      b: seq<Move<R>>)
    ensures DoAll(decide, sys, a + b) == DoAll(decide, DoAll(decide, sys, a), b)
    decreases |a|
  {
    if a == [] {
      assert a + b == b;
    } else {
      assert (a + b)[1..] == a[1..] + b;
      DoAllConcat(decide, Do(decide, sys, a[0]), a[1..], b);
    }
  }

  /** The call that creates the table decides without loading. */
  function Creation(rules: Tables.TableRules): seq<Move<Tables.Request>> {
    [Submit(0, 0, Tables.CreateTable(rules), 0, true), Find(0)] + ([Load(0), ReadHead(0)] + [Commit(0)])
  }

  lemma {:induction false} TableCreated(dealers: Tables.Dealers, rules: Tables.TableRules)
    requires Tables.ValidRules(rules)
    ensures var decide := Tables.Decide(dealers);
      var sys := DoAll(decide, Start(), Creation(rules));
      && Known(decide, sys) && Chained(sys.store.events, 0, Genesis, None)
      && sys.calls.Keys == {0} && sys.store.keys.Keys == {0} && sys.clock == 0
      && sys.store.events == [MakeEvent(1, 0, Genesis, Tables.TableCreated(rules))]
  {
    hide DoAll, Known, Tables.Decide;
    var decide := Tables.Decide(dealers);
    var start: System<Tables.Request, Tables.TableEvent> := Start();
    StartsSound(decide);
    assert Known(decide, start) by {
      assert Sound(decide, start);
    }
    var submit: Move<Tables.Request> := Submit(0, 0, Tables.CreateTable(rules), 0, true);
    var s1 := DoTwo(decide, start, submit, Find(0));
    assert s1.calls[0] == Call(0, Tables.CreateTable(rules), 0, true, Looked) && s1.store == start.store
      && s1.clock == 0;
    CreateIsDecided(dealers, rules);
    var s2 := DoTwo(decide, s1, Load(0), ReadHead(0));
    var event := MakeEvent(1, 0, Genesis, Tables.TableCreated(rules));
    assert s2.calls[0].stage == Linked(event, 0, 0) && s2.store == start.store;
    DoKnown(decide, s2, Commit(0));
    var sys := Do(decide, s2, Commit(0));
    var commit: seq<Move<Tables.Request>> := [Commit(0)];
    DoPair(decide, start, submit, Find(0), [Load(0), ReadHead(0)] + commit);
    DoPair(decide, s1, Load(0), ReadHead(0), commit);
    DoOne(decide, s2, Commit(0));
    assert sys.store.events == [event];
    ChainExtends([], event);
    assert [] + [event] == [event];
  }

  lemma {:induction false} DoOne<R, P>(decide: Decision<R, P>, sys: System<R, P>, m: Move<R>)
    ensures DoAll(decide, sys, [m]) == Do(decide, sys, m)
  {
    assert [m][1..] == [];
  }

  lemma {:induction false} CreateIsDecided(dealers: Tables.Dealers, rules: Tables.TableRules)
    requires Tables.ValidRules(rules)
    ensures Tables.Decide(dealers)([], Tables.CreateTable(rules), 0) == Some(Tables.TableCreated(rules))
  {
    assert Tables.Reduce([]) == Ok(Tables.NO_TABLE);
    assert Tables.DecideOn(dealers, Tables.NO_TABLE, Tables.CreateTable(rules), 0) == Some(Tables.TableCreated(rules));
  }

  predicate MaySit(rules: Tables.TableRules, seat: int, buyIn: int) {
    0 <= seat < rules.seats && rules.minimumBuyIn <= buyIn <= rules.maximumBuyIn
  }

  lemma {:induction false} SeatIsDecided(dealers: Tables.Dealers, rules: Tables.TableRules, p: nat, seat: int,
      buyIn: int)
    requires Tables.ValidRules(rules) && MaySit(rules, seat, buyIn)
    ensures Tables.Decide(dealers)([Tables.TableCreated(rules)], Tables.SeatPlayer(p, seat, buyIn), 0)
      == Some(Tables.PlayerSeated(Tables.Seat(p, seat, buyIn, Tables.Seated, rules.timeBank, false, false)))
  {
    TableRuns.ReduceExtends([], Tables.TableCreated(rules));
    assert [] + [Tables.TableCreated(rules)] == [Tables.TableCreated(rules)];
  }

  /**
   * So at every new table two arrivals, one of them a version ahead of what it can have seen, leave a
   * stored log that no longer verifies and that no later request can load.
   */
  lemma {:induction false} TableLogsCanBreak(dealers: Tables.Dealers, rules: Tables.TableRules, p: nat, q: nat,
                                             seatP: int, seatQ: int, buyP: int, buyQ: int)
    requires Tables.ValidRules(rules) && MaySit(rules, seatP, buyP) && MaySit(rules, seatQ, buyQ)
    ensures var race := Race(1, 2, 1, 2, Tables.SeatPlayer(p, seatP, buyP), Tables.SeatPlayer(q, seatQ, buyQ), 1);
      var after := DoAll(Tables.Decide(dealers), Start(), Creation(rules) + race);
      && |after.store.events| == 3
      && !Chained(after.store.events, 0, Genesis, None)
      && Unloadable(Tables.Decide(dealers), after)
  {
    hide DoAll, Known, Chained, Unloadable, Race, Creation, Tables.Decide;
    var decide := Tables.Decide(dealers);
    TableCreated(dealers, rules);
    var sys := DoAll(decide, Start(), Creation(rules));
    assert Payloads(sys.store.events) == [Tables.TableCreated(rules)];
    SeatIsDecided(dealers, rules, p, seatP, buyP);
    SeatIsDecided(dealers, rules, q, seatQ, buyQ);
    var seatingP, seatingQ := Tables.SeatPlayer(p, seatP, buyP), Tables.SeatPlayer(q, seatQ, buyQ);
    assert 1 !in sys.calls.Keys && 2 !in sys.calls.Keys && 1 !in sys.store.keys.Keys && 2 !in sys.store.keys.Keys;
    GuessedVersionsBreakTheLog(decide, sys, 1, 2, 1, 2, seatingP, seatingQ,
      Tables.PlayerSeated(Tables.Seat(p, seatP, buyP, Tables.Seated, rules.timeBank, false, false)),
      Tables.PlayerSeated(Tables.Seat(q, seatQ, buyQ, Tables.Seated, rules.timeBank, false, false)));
    DoAllConcat(decide, Start(), Creation(rules), Race(1, 2, 1, 2, seatingP, seatingQ, 1));
  }
}
