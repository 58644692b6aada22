/**
 * The append-only, hash-chained event log under table-coordinator.js and hand-coordinator.js, and the
 * coordinator calls that race to extend it. SHA-256 of an event's canonical JSON is idealised as an
 * injective constructor; the request digest is the request itself.
 */
module EventLog {
  import opened Wrappers

  type Key = nat

  datatype Hash<P> = Genesis | Of(sequence: int, at: int, previous: Hash<P>, payload: P)

  datatype Event<P> = Event(sequence: int, at: int, previous: Hash<P>, payload: P, hash: Hash<P>)

  function HashOf<P>(e: Event<P>): Hash<P> { Of(e.sequence, e.at, e.previous, e.payload) }

  function MakeEvent<P>(sequence: int, at: int, previous: Hash<P>, payload: P): (e: Event<P>)
    ensures e.hash == HashOf(e)
  {
    Event(sequence, at, previous, payload, Of(sequence, at, previous, payload))
  }

  function Payloads<P>(events: seq<Event<P>>): (r: seq<P>)
    ensures |r| == |events| && forall i :: 0 <= i < |r| ==> r[i] == events[i].payload
  {
    seq(|events|, i requires 0 <= i < |events| => events[i].payload)
  }

  /** The hash and the time of the last event; None stands for the time before any event. */
  function Head<P>(events: seq<Event<P>>, previous: Hash<P>): Hash<P> {
    if events == [] then previous else events[|events| - 1].hash
  }

  function LastTime<P>(events: seq<Event<P>>, prior: Option<int>): Option<int> {
    if events == [] then prior else Some(events[|events| - 1].at)
  }

  predicate NotBefore(at: int, prior: Option<int>) { prior.Some? ==> prior.value <= at }

  // ----- Chain verification -----

  /** An event continues a log of `start` events whose head and last time are given. */
  predicate Continues<P(==)>(e: Event<P>, start: nat, previous: Hash<P>, prior: Option<int>) {
    && e.sequence == start + 1
    && e.previous == previous
    && e.hash == HashOf(e)
    && NotBefore(e.at, prior)
  }

  predicate Chained<P(==)>(events: seq<Event<P>>, start: nat, previous: Hash<P>, prior: Option<int>) {
    events != [] ==>
      && Continues(events[0], start, previous, prior)
      && Chained(events[1..], start + 1, events[0].hash, Some(events[0].at))
  }

  method VerifyChain<P(==)>(events: seq<Event<P>>, start: nat, previous: Hash<P>, prior: Option<int>)
    returns (ok: bool, head: Hash<P>)
    ensures ok == Chained(events, start, previous, prior)
    ensures ok ==> head == Head(events, previous)
  {
    head := previous;
    var lastTime := prior;
    for index := 0 to |events|
      invariant Chained(events, start, previous, prior) == Chained(events[index..], start + index, head, lastTime)
      invariant head == Head(events[..index], previous)
    {
      var event := events[index];
      assert events[index..][1..] == events[index + 1..] && events[index..][0] == event;
      if event.sequence != start + index + 1 || event.previous != head || event.hash != HashOf(event)
         || !NotBefore(event.at, lastTime)
      {
        return false, head;
      }
      head := event.hash;
      lastTime := Some(event.at);
      assert events[..index + 1][index] == event;
    }
    assert events[..|events|] == events;
    return true, head;
  }

  /** A log verifies exactly when a prefix verifies and the rest verifies from the prefix's head. */
  lemma {:induction false} ChainSplits<P>(a: seq<Event<P>>, b: seq<Event<P>>, start: nat, previous: Hash<P>,
      prior: Option<int>)
    ensures Chained(a + b, start, previous, prior)
      <==> Chained(a, start, previous, prior)
           && Chained(b, start + |a|, Head(a, previous), LastTime(a, prior))
  {
    if a == [] {
      assert a + b == b;
    } else {
      assert (a + b)[1..] == a[1..] + b;
      ChainSplits(a[1..], b, start + 1, a[0].hash, Some(a[0].at));
      assert Head(a[1..], a[0].hash) == Head(a, previous);
      assert LastTime(a[1..], Some(a[0].at)) == LastTime(a, prior);
    }
  }

  lemma {:induction false} ChainExtends<P>(events: seq<Event<P>>, e: Event<P>)
    ensures Chained(events + [e], 0, Genesis, None)
      <==> Chained(events, 0, Genesis, None)
           && Continues(e, |events|, Head(events, Genesis), LastTime(events, None))
  {
    ChainSplits(events, [e], 0, Genesis, None);
    assert [e][1..] == [];
  }

  /** Two verified logs with the same head hash are the same log. */
  lemma {:induction false} HeadDeterminesLog<P>(a: seq<Event<P>>, b: seq<Event<P>>)
    requires Chained(a, 0, Genesis, None) && Chained(b, 0, Genesis, None)
    requires Head(a, Genesis) == Head(b, Genesis)
    ensures a == b
  {
    if a != [] {
      LastLinks(a);
      if b == [] {
        assert false;
      } else {
        LastLinks(b);
        HeadDeterminesLog(a[..|a| - 1], b[..|b| - 1]);
        assert a[|a| - 1] == b[|b| - 1];
        assert a == a[..|a| - 1] + [a[|a| - 1]] && b == b[..|b| - 1] + [b[|b| - 1]];
      }
    } else if b != [] {
      LastLinks(b);
      assert false;
    }
  }

  lemma {:induction false} LastLinks<P>(a: seq<Event<P>>)
    requires a != [] && Chained(a, 0, Genesis, None)
    ensures Chained(a[..|a| - 1], 0, Genesis, None)
    ensures a[|a| - 1].previous == Head(a[..|a| - 1], Genesis) && a[|a| - 1].hash == HashOf(a[|a| - 1])
    ensures a[|a| - 1].sequence == |a|
  {
    var front, last := a[..|a| - 1], a[|a| - 1];
    assert a == front + [last];
    ChainExtends(front, last);
  }

  // ----- The store -----

  datatype Entry<R, P> = Entry(digest: R, event: Event<P>)

  datatype Store<R, P> = Store(events: seq<Event<P>>, keys: map<Key, Entry<R, P>>)

  datatype StoreError = KeyReused | VersionConflict

  datatype Appended<P> = Appended(event: Event<P>, duplicate: bool)

  /** The atomic append: a known key answers with its event, a stale version is refused. */
  function Append<R(==), P>(s: Store<R, P>, expected: int, key: Key, digest: R, event: Event<P>)
    : (r: (Store<R, P>, Result<Appended<P>, StoreError>))
    ensures r.1.Err? || r.1.value.duplicate ==> r.0 == s
  {
    if key in s.keys then
      if s.keys[key].digest != digest then (s, Err(KeyReused)) else (s, Ok(Appended(s.keys[key].event, true)))
    else if |s.events| != expected then (s, Err(VersionConflict))
    else (Store(s.events + [event], s.keys[key := Entry(digest, event)]), Ok(Appended(event, false)))
  }

  /** Every key holds one event of the log, and different keys hold different events. */
  ghost predicate KeysMatch<R, P>(s: Store<R, P>) {
    && (forall k :: k in s.keys ==>
          1 <= s.keys[k].event.sequence <= |s.events| && s.events[s.keys[k].event.sequence - 1] == s.keys[k].event)
    && (forall k, k' :: k in s.keys && k' in s.keys && s.keys[k].event == s.keys[k'].event ==> k == k')
    && |s.keys| == |s.events|
  }

  // ----- Racing calls -----

  /**
   * Where a call stands: submitted, past the idempotency lookup, past loading and validating, past
   * reading the head, or answered. `loaded` and `linked` count the events seen at those moments.
   */
  datatype Stage<P> =
    | Submitted
    | Looked
    | Validated(payload: P, loaded: nat)
    | Linked(event: Event<P>, loaded: nat, linked: nat)
    | Answered(event: Event<P>, duplicate: bool)
    | Rejected

  /** A coordinator call; a blind call (creating the aggregate) validates without loading anything. */
  datatype Call<R, P> = Call(key: Key, request: R, expected: int, blind: bool, stage: Stage<P>)

  datatype System<R, P> = System(store: Store<R, P>, calls: map<nat, Call<R, P>>, clock: int)

  datatype Move<R> =
    | Tick(ms: nat)
    | Submit(id: nat, key: Key, request: R, expected: int, blind: bool)
    | Find(id: nat)
    | Load(id: nat)
    | ReadHead(id: nat)
    | Commit(id: nat)

  /** What the coordinator decides on a log, for a request, at a time; None rejects it. */
  type Decision<!R, !P> = (seq<P>, R, int) -> Option<P>

  function FindKey<R(==), P>(s: Store<R, P>, call: Call<R, P>): Stage<P> {
    if call.key !in s.keys then Looked
    else if s.keys[call.key].digest != call.request then Rejected
    else Answered(s.keys[call.key].event, true)
  }

  function LoadAndDecide<R, P(==)>(decide: Decision<R, P>, s: Store<R, P>, call: Call<R, P>, now: int): Stage<P> {
    var seen := if call.blind then [] else s.events;
    if !Chained(seen, 0, Genesis, None) then Rejected
    else match decide(Payloads(seen), call.request, now)
      case None => Rejected
      case Some(payload) => Validated(payload, |seen|)
  }

  function LinkEvent<R, P>(s: Store<R, P>, call: Call<R, P>, now: int): Stage<P>
    requires call.stage.Validated?
  {
    Linked(MakeEvent(call.expected + 1, now, Head(s.events, Genesis), call.stage.payload), call.stage.loaded,
      |s.events|)
  }

  /** One atomic step of the system; a move that is not enabled does nothing. */
  function Do<R(==), P(==)>(decide: Decision<R, P>, sys: System<R, P>, m: Move<R>): System<R, P> {
    match m
    case Tick(ms) => sys.(clock := sys.clock + ms)
    case Submit(id, key, request, expected, blind) =>
      if id in sys.calls then sys else sys.(calls := sys.calls[id := Call(key, request, expected, blind, Submitted)])
    case Find(id) =>
      if id in sys.calls && sys.calls[id].stage.Submitted? then
        sys.(calls := sys.calls[id := sys.calls[id].(stage := FindKey(sys.store, sys.calls[id]))])
      else sys
    case Load(id) =>
      if id in sys.calls && sys.calls[id].stage.Looked? then
        sys.(calls := sys.calls[id := sys.calls[id].(stage := LoadAndDecide(decide, sys.store, sys.calls[id],
          sys.clock))])
      else sys
    case ReadHead(id) =>
      if id in sys.calls && sys.calls[id].stage.Validated? then
        sys.(calls := sys.calls[id := sys.calls[id].(stage := LinkEvent(sys.store, sys.calls[id], sys.clock))])
      else sys
    case Commit(id) =>
      if id in sys.calls && sys.calls[id].stage.Linked? then
        var call := sys.calls[id];
        var (store, answer) := Append(sys.store, call.expected, call.key, call.request, call.stage.event);
        sys.(store := store, calls := sys.calls[id := call.(stage :=
          match answer case Err(_) => Rejected case Ok(a) => Answered(a.event, a.duplicate))])
      else sys
  }

  function DoAll<R(==), P(==)>(decide: Decision<R, P>, sys: System<R, P>, moves: seq<Move<R>>): System<R, P>
    decreases |moves|
  {
    if moves == [] then sys else DoAll(decide, Do(decide, sys, moves[0]), moves[1..])
  }

  function Start<R, P>(): System<R, P> { System(Store([], map[]), map[], 0) }

  // ----- What holds in every interleaving -----

  /** A call's knowledge is about a prefix of the log as it is now. */
  ghost predicate Knows<R(!new), P(!new)>(decide: Decision<R, P>, s: Store<R, P>, clock: int, call: Call<R, P>) {
    match call.stage
    case Validated(payload, loaded) =>
      && loaded <= |s.events|
      && (call.blind ==> loaded == 0)
      && DecidedFor(decide, Payloads(s.events[..loaded]), call.request, payload, clock)
    case Linked(event, loaded, linked) =>
      && loaded <= |s.events| && loaded <= linked <= |s.events|
      && (call.blind ==> loaded == 0)
      && DecidedFor(decide, Payloads(s.events[..loaded]), call.request, event.payload, event.at)
      && event == MakeEvent(call.expected + 1, event.at, Head(s.events[..linked], Genesis), event.payload)
      && NotBefore(event.at, LastTime(s.events[..linked], None))
      && event.at <= clock
    case _ => true
  }

  ghost predicate Decided<R(!new), P(!new)>(decide: Decision<R, P>, prefix: seq<P>, payload: P) {
    exists r: R, now: int :: decide(prefix, r, now) == Some(payload)
  }

  /** What is decided on that log for that very request, at a time no later than `latest`. */
  ghost predicate DecidedFor<R(!new), P(!new)>(decide: Decision<R, P>, prefix: seq<P>, r: R, payload: P, latest: int) {
    exists now: int :: now <= latest && decide(prefix, r, now) == Some(payload)
  }

  lemma {:induction false} DecidedForSomeone<R(!new), P(!new)>(decide: Decision<R, P>, prefix: seq<P>, r: R, payload: P,
                                                              latest: int)
    requires DecidedFor(decide, prefix, r, payload, latest)
    ensures Decided(decide, prefix, payload)
  {
    var now :| now <= latest && decide(prefix, r, now) == Some(payload);
  }

  lemma {:induction false} DecidedLater<R(!new), P(!new)>(decide: Decision<R, P>, prefix: seq<P>, r: R, payload: P,
                                                         latest: int, later: int)
    requires DecidedFor(decide, prefix, r, payload, latest) && latest <= later
    ensures DecidedFor(decide, prefix, r, payload, later)
  {
    var now :| now <= latest && decide(prefix, r, now) == Some(payload);
  }

  ghost predicate Known<R(!new), P(!new)>(decide: Decision<R, P>, sys: System<R, P>) {
    && (forall id :: id in sys.calls ==> Knows(decide, sys.store, sys.clock, sys.calls[id]))
    && NotAfter(sys.store.events, sys.clock)
    && Numbered(sys.store)
  }

  ghost predicate NotAfter<P>(events: seq<Event<P>>, clock: int) {
    LastTime(events, None).Some? ==> LastTime(events, None).value <= clock
  }

  /** Sequence numbers are positions, and keys name the events they produced. */
  ghost predicate Numbered<R, P>(s: Store<R, P>) {
    && (forall i :: 0 <= i < |s.events| ==> s.events[i].sequence == i + 1)
    && KeysMatch(s)
  }

  /** A longer log still supports what a call knew. */
  lemma {:induction false} KnowsMore<R(!new), P(!new)>(decide: Decision<R, P>, s: Store<R, P>, clock: int,
      call: Call<R, P>, s': Store<R, P>, clock': int)
    requires Knows(decide, s, clock, call) && clock <= clock' && s.events <= s'.events
    ensures Knows(decide, s', clock', call)
  {
    match call.stage {
      case Validated(payload, loaded) =>
        assert s.events[..loaded] == s'.events[..loaded];
        DecidedLater(decide, Payloads(s.events[..loaded]), call.request, payload, clock, clock');
      case Linked(event, loaded, linked) =>
        assert s.events[..loaded] == s'.events[..loaded] && s.events[..linked] == s'.events[..linked];
      case _ =>
    }
  }

  lemma {:induction false} LoadKnows<R(!new), P(!new)>(decide: Decision<R, P>, s: Store<R, P>, call: Call<R, P>,
      now: int)
    ensures Knows(decide, s, now, call.(stage := LoadAndDecide(decide, s, call, now)))
  {
    assert s.events[..|s.events|] == s.events && s.events[..0] == [];
  }

  lemma {:induction false} LinkKnows<R(!new), P(!new)>(decide: Decision<R, P>, s: Store<R, P>, call: Call<R, P>,
      now: int)
    requires Knows(decide, s, now, call) && call.stage.Validated? && NotAfter(s.events, now)
    ensures Knows(decide, s, now, call.(stage := LinkEvent(s, call, now)))
  {
    assert s.events[..|s.events|] == s.events;
  }

  lemma {:induction false} AppendKeeps<R, P>(s: Store<R, P>, expected: int, key: Key, digest: R, event: Event<P>)
    requires Numbered(s) && event.sequence == expected + 1
    ensures Numbered(Append(s, expected, key, digest, event).0)
    ensures s.events <= Append(s, expected, key, digest, event).0.events
  {
    if key !in s.keys && |s.events| == expected {
      NewKeyMatches(s, key, digest, event);
    }
  }

  lemma {:induction false} NewKeyMatches<R, P>(s: Store<R, P>, key: Key, digest: R, event: Event<P>)
    requires KeysMatch(s) && key !in s.keys && event.sequence == |s.events| + 1
    ensures KeysMatch(Store(s.events + [event], s.keys[key := Entry(digest, event)]))
  {
    var s' := Store(s.events + [event], s.keys[key := Entry(digest, event)]);
    KeyCount(s.keys, key, Entry(digest, event));
    forall k | k in s'.keys
      ensures 1 <= s'.keys[k].event.sequence <= |s'.events|
          && s'.events[s'.keys[k].event.sequence - 1] == s'.keys[k].event
      ensures k != key ==> s'.keys[k].event.sequence <= |s.events|
    {
      if k != key {
        assert k in s.keys;
      }
    }
    forall k, k' | k in s'.keys && k' in s'.keys && s'.keys[k].event == s'.keys[k'].event ensures k == k' {
      if k != key && k' != key {
        assert s.keys[k].event == s.keys[k'].event;
      }
    }
  }

  lemma {:induction false} KeyCount<T>(keys: map<Key, T>, key: Key, value: T)
    requires key !in keys
    ensures |keys[key := value]| == |keys| + 1
  {
    assert keys[key := value].Keys == keys.Keys + {key};
    assert |keys[key := value]| == |keys[key := value].Keys| && |keys| == |keys.Keys|;
  }

  /** A step that changes one call and extends the store leaves the others' knowledge standing. */
  lemma {:induction false} OthersKnow<R(!new), P(!new)>(decide: Decision<R, P>, sys: System<R, P>, id: nat,
      call: Call<R, P>, store: Store<R, P>)
    requires Known(decide, sys) && sys.store.events <= store.events && Numbered(store)
    requires NotAfter(store.events, sys.clock) && Knows(decide, store, sys.clock, call)
    ensures Known(decide, sys.(store := store, calls := sys.calls[id := call]))
  {
    forall other | other in sys.calls ensures Knows(decide, store, sys.clock, sys.calls[other]) {
      KnowsMore(decide, sys.store, sys.clock, sys.calls[other], store, sys.clock);
    }
  }

  lemma {:induction false} TickKnown<R(!new), P(!new)>(decide: Decision<R, P>, sys: System<R, P>, ms: nat)
    requires Known(decide, sys)
    ensures Known(decide, sys.(clock := sys.clock + ms))
  {
    forall other | other in sys.calls ensures Knows(decide, sys.store, sys.clock + ms, sys.calls[other]) {
      KnowsMore(decide, sys.store, sys.clock, sys.calls[other], sys.store, sys.clock + ms);
    }
  }

  lemma {:induction false} CommitKnown<R(!new), P(!new)>(decide: Decision<R, P>, sys: System<R, P>, id: nat)
    requires Known(decide, sys) && id in sys.calls && sys.calls[id].stage.Linked?
    ensures Known(decide, Do(decide, sys, Commit(id)))
    ensures sys.store.events <= Do(decide, sys, Commit(id)).store.events
  {
    var call := sys.calls[id];
    assert Knows(decide, sys.store, sys.clock, call);
    AppendKeeps(sys.store, call.expected, call.key, call.request, call.stage.event);
    AppendNotAfter(sys.store, call.expected, call.key, call.request, call.stage.event, sys.clock);
    var (store, answer) := Append(sys.store, call.expected, call.key, call.request, call.stage.event);
    var call' := call.(stage := match answer case Err(_) => Rejected case Ok(a) => Answered(a.event, a.duplicate));
    OthersKnow(decide, sys, id, call', store);
    assert Do(decide, sys, Commit(id)) == sys.(store := store, calls := sys.calls[id := call']);
  }

  lemma {:induction false} AppendNotAfter<R, P>(s: Store<R, P>, expected: int, key: Key, digest: R, event: Event<P>,
      clock: int)
    requires NotAfter(s.events, clock) && event.at <= clock
    ensures NotAfter(Append(s, expected, key, digest, event).0.events, clock)
  {
  }

  lemma {:induction false} DoKnown<R(!new), P(!new)>(decide: Decision<R, P>, sys: System<R, P>, m: Move<R>)
    requires Known(decide, sys)
    ensures Known(decide, Do(decide, sys, m))
    ensures sys.store.events <= Do(decide, sys, m).store.events
  {
    if m.Tick? {
      TickKnown(decide, sys, m.ms);
    } else if Do(decide, sys, m) == sys {
    } else if m.Commit? {
      CommitKnown(decide, sys, m.id);
    } else {
      var call := Do(decide, sys, m).calls[m.id];
      if m.Load? {
        LoadKnows(decide, sys.store, sys.calls[m.id], sys.clock);
      } else if m.ReadHead? {
        LinkKnows(decide, sys.store, sys.calls[m.id], sys.clock);
      }
      OthersKnow(decide, sys, m.id, call, sys.store);
    }
  }

  // ----- Serializability -----

  /** Every event was decided on exactly the events before it. */
  ghost predicate Written<R(!new), P(!new)>(decide: Decision<R, P>, log: seq<P>) {
    forall k :: 0 <= k < |log| ==> Decided(decide, log[..k], log[k])
  }

  /** The caller asks for a version the coordinator had already loaded. */
  ghost predicate Observed<R, P>(call: Call<R, P>) {
    match call.stage
    case Validated(payload, loaded) => call.expected <= loaded
    case Linked(event, loaded, linked) => call.expected <= loaded
    case _ => true
  }

  ghost predicate AllObserved<R, P>(sys: System<R, P>) {
    forall id :: id in sys.calls ==> Observed(sys.calls[id])
  }

  ghost predicate Commits<R(!new), P(!new)>(sys: System<R, P>, id: nat) {
    && id in sys.calls && sys.calls[id].stage.Linked?
    && sys.calls[id].key !in sys.store.keys && sys.calls[id].expected == |sys.store.events|
  }

  /**
   * Exactly when a committed event is sound: it was validated against the log it extends if and only
   * if the version its caller expected had been loaded. Then it also continues the hash chain.
   */
  lemma {:induction false} CommitIsSerialIff<R(!new), P(!new)>(decide: Decision<R, P>, sys: System<R, P>, id: nat)
    requires Known(decide, sys) && Commits(sys, id)
    ensures Do(decide, sys, Commit(id)).store.events == sys.store.events + [sys.calls[id].stage.event]
    ensures sys.calls[id].stage.loaded == |sys.store.events| <==> Observed(sys.calls[id])
    ensures Observed(sys.calls[id]) ==>
      && DecidedFor(decide, Payloads(sys.store.events), sys.calls[id].request, sys.calls[id].stage.event.payload,
                    sys.calls[id].stage.event.at)
      && Continues(sys.calls[id].stage.event, |sys.store.events|,
                   Head(sys.store.events, Genesis), LastTime(sys.store.events, None))
  {
    var call, events := sys.calls[id], sys.store.events;
    assert Knows(decide, sys.store, sys.clock, call);
    if Observed(call) {
      assert events[..call.stage.loaded] == events && events[..call.stage.linked] == events;
    }
  }

  /** The chain itself survives a commit exactly when the head was read at the expected version. */
  lemma {:induction false} CommitKeepsChainIff<R(!new), P(!new)>(decide: Decision<R, P>, sys: System<R, P>, id: nat)
    requires Known(decide, sys) && Commits(sys, id) && Chained(sys.store.events, 0, Genesis, None)
    ensures Chained(Do(decide, sys, Commit(id)).store.events, 0, Genesis, None)
      <==> sys.calls[id].expected <= sys.calls[id].stage.linked
  {
    hide KeysMatch, DecidedFor, Payloads;
    var call, events := sys.calls[id], sys.store.events;
    var linked := call.stage.linked;
    assert Knows(decide, sys.store, sys.clock, call);
    ChainExtends(events, call.stage.event);
    if linked == |events| {
      assert events[..linked] == events;
    } else {
      assert events == events[..linked] + events[linked..];
      ChainSplits(events[..linked], events[linked..], 0, Genesis, None);
      LastLinks(events);
      if linked > 0 {
        LastLinks(events[..linked]);
      }
    }
  }

  lemma {:induction false} WrittenExtends<R(!new), P(!new)>(decide: Decision<R, P>, log: seq<P>, p: P)
    requires Written(decide, log) && Decided(decide, log, p)
    ensures Written(decide, log + [p])
  {
    var longer := log + [p];
    forall k | 0 <= k < |longer| ensures Decided(decide, longer[..k], longer[k]) {
      assert longer[..k] == if k < |log| then log[..k] else log;
    }
  }

  ghost predicate Sound<R(!new), P(!new)>(decide: Decision<R, P>, sys: System<R, P>) {
    && Known(decide, sys)
    && Chained(sys.store.events, 0, Genesis, None)
    && Written(decide, Payloads(sys.store.events))
    && Answers(decide, sys.store)
  }

  /**
   * An entry's event is in the log, and is what was decided for the entry's own request on the log
   * before it, at a time no later than its own.
   */
  ghost predicate AnsweredBy<R(!new), P(!new)>(decide: Decision<R, P>, events: seq<Event<P>>, entry: Entry<R, P>) {
    var k := entry.event.sequence;
    && 1 <= k <= |events| && events[k - 1] == entry.event
    && DecidedFor(decide, Payloads(events[..k - 1]), entry.digest, entry.event.payload, entry.event.at)
  }

  ghost predicate Answers<R(!new), P(!new)>(decide: Decision<R, P>, s: Store<R, P>) {
    forall k :: k in s.keys ==> AnsweredBy(decide, s.events, s.keys[k])
  }

  lemma {:induction false} StillAnswered<R(!new), P(!new)>(decide: Decision<R, P>, events: seq<Event<P>>,
                                                          longer: seq<Event<P>>, entry: Entry<R, P>)
    requires AnsweredBy(decide, events, entry) && events <= longer
    ensures AnsweredBy(decide, longer, entry)
  {
    assert events[..entry.event.sequence - 1] == longer[..entry.event.sequence - 1];
  }

  lemma {:induction false} AnswersMore<R(!new), P(!new)>(decide: Decision<R, P>, s: Store<R, P>, key: Key, request: R,
                                                        event: Event<P>)
    requires Answers(decide, s) && event.sequence == |s.events| + 1
    requires DecidedFor(decide, Payloads(s.events), request, event.payload, event.at)
    ensures Answers(decide, Store(s.events + [event], s.keys[key := Entry(request, event)]))
  {
    var longer, keys := s.events + [event], s.keys[key := Entry(request, event)];
    forall k | k in keys ensures AnsweredBy(decide, longer, keys[k]) {
      if k == key {
        assert longer[..|s.events|] == s.events;
      } else {
        StillAnswered(decide, s.events, longer, s.keys[k]);
      }
    }
  }

  lemma {:induction false} DoSound<R(!new), P(!new)>(decide: Decision<R, P>, sys: System<R, P>, m: Move<R>)
    requires Sound(decide, sys) && AllObserved(sys)
    ensures Sound(decide, Do(decide, sys, m))
  {
    hide Written, Answers, Chained, Known, KeysMatch;
    DoKnown(decide, sys, m);
    if m.Commit? && Commits(sys, m.id) {
      CommitSound(decide, sys, m.id);
    } else {
      assert Do(decide, sys, m).store == sys.store;
    }
  }

  lemma {:induction false} SequencesFollow<R(!new), P(!new)>(decide: Decision<R, P>, sys: System<R, P>, id: nat)
    requires Known(decide, sys) && Commits(sys, id)
    ensures sys.calls[id].stage.event.sequence == |sys.store.events| + 1
    ensures Do(decide, sys, Commit(id)).store
      == Store(sys.store.events + [sys.calls[id].stage.event],
               sys.store.keys[sys.calls[id].key := Entry(sys.calls[id].request, sys.calls[id].stage.event)])
  {
    assert Knows(decide, sys.store, sys.clock, sys.calls[id]);
  }

  lemma {:induction false} CommitSound<R(!new), P(!new)>(decide: Decision<R, P>, sys: System<R, P>, id: nat)
    requires Sound(decide, sys) && Commits(sys, id) && Observed(sys.calls[id])
    ensures Chained(Do(decide, sys, Commit(id)).store.events, 0, Genesis, None)
    ensures Written(decide, Payloads(Do(decide, sys, Commit(id)).store.events))
    ensures Answers(decide, Do(decide, sys, Commit(id)).store)
  {
    hide Written, Answers, Chained, Known, Decided, DecidedFor, Continues;
    var event, events := sys.calls[id].stage.event, sys.store.events;
    SequencesFollow(decide, sys, id);
    CommitIsSerialIff(decide, sys, id);
    DecidedForSomeone(decide, Payloads(events), sys.calls[id].request, event.payload, event.at);
    AnswersMore(decide, sys.store, sys.calls[id].key, sys.calls[id].request, event);
    ChainExtends(events, event);
    WrittenExtends(decide, Payloads(events), event.payload);
    assert Payloads(events + [event]) == Payloads(events) + [event.payload];
  }

  /** Along the run, no call expects a version beyond the one it loaded. */
  ghost predicate ObservedRun<R(!new), P(!new)>(decide: Decision<R, P>, sys: System<R, P>, moves: seq<Move<R>>)
    decreases |moves|
  {
    AllObserved(sys) && (moves != [] ==> ObservedRun(decide, Do(decide, sys, moves[0]), moves[1..]))
  }

  lemma {:induction false} RunsAreSound<R(!new), P(!new)>(decide: Decision<R, P>, sys: System<R, P>,
      moves: seq<Move<R>>)
    requires Sound(decide, sys) && ObservedRun(decide, sys, moves)
    ensures Sound(decide, DoAll(decide, sys, moves))
    ensures sys.store.events <= DoAll(decide, sys, moves).store.events
    decreases |moves|
  {
    if moves != [] {
      DoSound(decide, sys, moves[0]);
      DoKnown(decide, sys, moves[0]);
      RunsAreSound(decide, Do(decide, sys, moves[0]), moves[1..]);
    }
  }

  /**
   * Optimistic concurrency is serializable: in every interleaving of calls whose expected version had
   * been loaded, the log verifies, every event was decided on exactly the log it extends, for the
   * request recorded under its key and no later than the time it carries, and each idempotency key
   * stands for one event of its own.
   */
  lemma {:induction false} InterleavingsAreSerial<R(!new), P(!new)>(decide: Decision<R, P>, moves: seq<Move<R>>)
    requires ObservedRun(decide, Start(), moves)
    ensures var store := DoAll(decide, Start(), moves).store;
      && Chained(store.events, 0, Genesis, None)
      && Written(decide, Payloads(store.events))
      && KeysMatch(store) && Answers(decide, store)
  {
    StartsSound(decide);
    RunsAreSound(decide, Start(), moves);
  }

  lemma {:induction false} StartsSound<R(!new), P(!new)>(decide: Decision<R, P>)
    ensures Sound(decide, Start())
  {
    var sys: System<R, P> := Start();
    assert sys.store.events == [] && sys.calls == map[];
  }

  /** A call repeated under its key never adds an event: it gets the first answer or is refused. */
  lemma {:induction false} KeysAreOnce<R(!new), P(!new)>(decide: Decision<R, P>, sys: System<R, P>, id: nat)
    requires Known(decide, sys) && id in sys.calls && sys.calls[id].key in sys.store.keys
    ensures forall m :: m in {Find(id), Load(id), ReadHead(id), Commit(id)} ==> Do(decide, sys, m).store == sys.store
    ensures var stage := Do(decide, sys, Find(id)).calls[id].stage;
      sys.calls[id].stage.Submitted? ==>
        (stage == Rejected
         || (stage.Answered? && stage.duplicate && stage.event == sys.store.keys[sys.calls[id].key].event
             && sys.store.keys[sys.calls[id].key].digest == sys.calls[id].request))
  {
  }
}
