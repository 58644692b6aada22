/**
 * Stored table states: amounts as decimal text, and replay that starts from a snapshot
 * (server/table-coordinator.js and loadAggregate of server/postgres-table-store.js).
 */
module Snapshots {
  import opened Wrappers
  import opened Seqs
  import opened Tables
  import Base58
  import B = Betting
  import D = DeckMerkle
  import EventLog
  import F = Fairness
  import TableRuns

  // ----- Decimal text -----

  function DigitChar(d: int): char
    requires 0 <= d < 10
  {
    '0' + d as char
  }

  function DigitOf(c: char): (d: int)
    ensures 0 <= d < 10
  {
    if '0' <= c <= '9' then (c - '0') as int else 0
  }

  function DigitsText(digits: seq<int>): (text: string)
    requires Base58.DigitsOf(digits, 10)
    ensures |text| == |digits|
  {
    seq(|digits|, i requires 0 <= i < |digits| => DigitChar(digits[i]))
  }

  function TextDigits(text: string): (digits: seq<int>)
    ensures |digits| == |text| && Base58.DigitsOf(digits, 10)
  {
    seq(|text|, i requires 0 <= i < |text| => DigitOf(text[i]))
  }

  /** The canonical decimal text of an amount, and the amount a text denotes. */
  function ToText(n: int): string {
    if n < 0 then "-" + DigitsText(Base58.Digits(-n, 10))
    else if n == 0 then "0"
    else DigitsText(Base58.Digits(n, 10))
  }

  function FromText(text: string): int {
    if text != "" && text[0] == '-' then
      var magnitude: int := Base58.Value(TextDigits(text[1..]), 10);
      -magnitude
    else Base58.Value(TextDigits(text), 10)
  }

  lemma {:induction false} TextRoundTrip(n: int)
    ensures FromText(ToText(n)) == n
  {
    if n == 0 {
      assert TextDigits("0") == [0];
      assert [0][..0] == [];
      assert Base58.Value([0], 10) == 0;
    } else {
      var digits := Base58.Digits(if n < 0 then -n else n, 10);
      assert TextDigits(DigitsText(digits)) == digits;
      Base58.ValueOfDigits(if n < 0 then -n else n, 10);
      if n < 0 {
        assert ToText(n)[1..] == DigitsText(digits);
      } else {
        assert ToText(n)[0] == DigitChar(digits[0]);
      }
    }
  }

  // ----- Stored betting states -----

  datatype StoredPlayer = StoredPlayer(playerId: nat, seat: int, stack: string, street: string, contributed: string,
                                       folded: bool, allIn: bool)

  datatype StoredStraddle = StoredStraddle(seat: int, amount: string)

  /** A betting state whose amounts are text; `rest` holds the fields that are stored as they are. */
  datatype StoredHand = StoredHand(
    rest: B.Hand,
    smallBlind: string,
    bigBlind: string,
    ante: string,
    currentBet: string,
    lastFullRaise: string,
    straddle: Option<StoredStraddle>,
    players: seq<StoredPlayer>)

  function EncodePlayer(p: B.Player): StoredPlayer {
    StoredPlayer(p.playerId, p.seat, ToText(p.stack), ToText(p.street), ToText(p.contributed), p.folded, p.allIn)
  }

  function DecodePlayer(p: StoredPlayer): B.Player {
    B.Player(p.playerId, p.seat, FromText(p.stack), FromText(p.street), FromText(p.contributed), p.folded, p.allIn)
  }

  /** A hand without its amounts, so that nothing but the text carries them. */
  function WithoutAmounts(h: B.Hand): B.Hand {
    h.(smallBlind := 0, bigBlind := 0, ante := 0, currentBet := 0, lastFullRaise := 0, straddle := None, players := [])
  }

  function EncodeBetting(h: B.Hand): StoredHand {
    StoredHand(WithoutAmounts(h), ToText(h.smallBlind), ToText(h.bigBlind), ToText(h.ante), ToText(h.currentBet),
               ToText(h.lastFullRaise),
               match h.straddle case None => None case Some(s) => Some(StoredStraddle(s.seat, ToText(s.amount))),
               Map(EncodePlayer, h.players))
  }

  function DecodeBetting(s: StoredHand): B.Hand {
    s.rest.(
      smallBlind := FromText(s.smallBlind), bigBlind := FromText(s.bigBlind), ante := FromText(s.ante),
      currentBet := FromText(s.currentBet), lastFullRaise := FromText(s.lastFullRaise),
      straddle := match s.straddle case None => None case Some(x) => Some(B.Straddle(x.seat, FromText(x.amount))),
      players := Map(DecodePlayer, s.players))
  }

  lemma {:induction false} PlayersRoundTrip(ps: seq<B.Player>)
    ensures Map(DecodePlayer, Map(EncodePlayer, ps)) == ps
  {
    forall i | 0 <= i < |ps| ensures Map(DecodePlayer, Map(EncodePlayer, ps))[i] == ps[i] {
      TextRoundTrip(ps[i].stack);
      TextRoundTrip(ps[i].street);
      TextRoundTrip(ps[i].contributed);
    }
  }

  lemma {:induction false} BettingRoundTrip(h: B.Hand)
    ensures DecodeBetting(EncodeBetting(h)) == h
  {
    TextRoundTrip(h.smallBlind);
    TextRoundTrip(h.bigBlind);
    TextRoundTrip(h.ante);
    TextRoundTrip(h.currentBet);
    TextRoundTrip(h.lastFullRaise);
    if h.straddle.Some? {
      TextRoundTrip(h.straddle.value.amount);
    }
    PlayersRoundTrip(h.players);
  }

  // ----- Stored table states -----

  datatype StoredSeat = StoredSeat(playerId: nat, seat: int, stack: string, status: SeatStatus, timeBank: int,
                                   sitOutNextHand: bool, leaving: bool)

  datatype StoredCurrent = StoredCurrent(number: nat, fairness: F.Rules, deckRoot: D.Digest, shown: seq<D.Reveal>,
                                         betting: StoredHand, banks: seq<int>, turn: Option<Turn>)

  datatype StoredState = StoredState(status: TableStatus, rules: Option<TableRules>, seats: seq<StoredSeat>,
    handNumber: nat,
                                     buttonSeat: Option<int>, current: Option<StoredCurrent>, totalRake: string)

  function EncodeSeat(s: Seat): StoredSeat {
    StoredSeat(s.playerId, s.seat, ToText(s.stack), s.status, s.timeBank, s.sitOutNextHand, s.leaving)
  }

  function DecodeSeat(s: StoredSeat): Seat {
    Seat(s.playerId, s.seat, FromText(s.stack), s.status, s.timeBank, s.sitOutNextHand, s.leaving)
  }

  function Serialize(s: State): StoredState {
    StoredState(s.status, s.rules, Map(EncodeSeat, s.seats), s.handNumber, s.buttonSeat,
      match s.current
      case None => None
      case Some(c) => Some(StoredCurrent(c.number, c.fairness, c.deckRoot, c.shown, EncodeBetting(c.betting.hand),
        c.betting.banks, c.turn)),
      ToText(s.totalRake))
  }

  function Deserialize(s: StoredState): State {
    State(s.status, s.rules, Map(DecodeSeat, s.seats), s.handNumber, s.buttonSeat,
      match s.current
      case None => None
      case Some(c) => Some(CurrentHand(c.number, c.fairness, c.deckRoot, c.shown,
        Timed(DecodeBetting(c.betting), c.banks), c.turn)),
      FromText(s.totalRake))
  }

  lemma {:induction false} StateRoundTrip(s: State)
    ensures Deserialize(Serialize(s)) == s
  {
    forall i | 0 <= i < |s.seats| ensures Map(DecodeSeat, Map(EncodeSeat, s.seats))[i] == s.seats[i] {
      TextRoundTrip(s.seats[i].stack);
    }
    assert Map(DecodeSeat, Map(EncodeSeat, s.seats)) == s.seats;
    TextRoundTrip(s.totalRake);
    if s.current.Some? {
      BettingRoundTrip(s.current.value.betting.hand);
    }
  }

  // ----- Replay from a snapshot -----

  /** SHA-256 of a stored state with the version in it, idealised as an injective constructor. */
  datatype StateHash = OfState(version: nat, state: StoredState) | Forged(bytes: nat)

  /** A stored snapshot: how many events it stands for, the last one's hash and time, and the state. */
  datatype Snapshot = Snapshot(sequence: nat, head: EventLog.Hash<TableEvent>, at: int, version: nat,
                               state: StoredState, stateHash: StateHash)

  ghost predicate Taken(snapshot: Snapshot, events: seq<EventLog.Event<TableEvent>>) {
    && 0 < snapshot.sequence <= |events|
    && var prefix := events[..snapshot.sequence];
       && snapshot.head == events[snapshot.sequence - 1].hash && snapshot.at == events[snapshot.sequence - 1].at
       && snapshot.version == snapshot.sequence
       && Reduce(EventLog.Payloads(prefix)).Ok?
       && snapshot.state == Serialize(Reduce(EventLog.Payloads(prefix)).value)
       && snapshot.stateHash == OfState(snapshot.version, snapshot.state)
  }

  datatype LoadError = StateHashInvalid | AnchorInvalid | VersionInvalid | ChainInvalid

  /**
   * The coordinator's load: check the snapshot against its hash, the stored event it names (whose hash is
   * `anchor`) and its version, verify the events after it from there, then replay them on its state.
   */
  function LoadAggregate(snapshot: Snapshot, anchor: EventLog.Hash<TableEvent>,
      rest: seq<EventLog.Event<TableEvent>>): Result<Result<State, ReplayError>, LoadError> {
    if snapshot.stateHash != OfState(snapshot.version, snapshot.state) then Err(StateHashInvalid)
    else if snapshot.head != anchor then Err(AnchorInvalid)
    else if snapshot.version != snapshot.sequence then Err(VersionInvalid)
    else if !EventLog.Chained(rest, snapshot.sequence, snapshot.head, Some(snapshot.at)) then Err(ChainInvalid)
    else Ok(Replay(Deserialize(snapshot.state), EventLog.Payloads(rest)))
  }

  /**
   * Snapshot equals replay: for every verified log and every cut, the snapshot passes its checks, the
   * events after it verify, and loading yields the state that replaying the whole log yields.
   */
  lemma {:induction false} SnapshotEqualsReplay(snapshot: Snapshot, events: seq<EventLog.Event<TableEvent>>)
    requires EventLog.Chained(events, 0, EventLog.Genesis, None) && Taken(snapshot, events)
    ensures LoadAggregate(snapshot, events[snapshot.sequence - 1].hash, events[snapshot.sequence..])
      == Ok(Reduce(EventLog.Payloads(events)))
  {
    hide ToText, Serialize, Deserialize, Replay, EventLog.Payloads, EventLog.Chained;
    var prefix, rest := events[..snapshot.sequence], events[snapshot.sequence..];
    assert events == prefix + rest;
    EventLog.ChainSplits(prefix, rest, 0, EventLog.Genesis, None);
    StateRoundTrip(Reduce(EventLog.Payloads(prefix)).value);
    TableRuns.ReplayConcat(NO_TABLE, EventLog.Payloads(prefix), EventLog.Payloads(rest));
    PayloadsConcat(prefix, rest);
  }

  lemma {:induction false} PayloadsConcat(a: seq<EventLog.Event<TableEvent>>, b: seq<EventLog.Event<TableEvent>>)
    ensures EventLog.Payloads(a + b) == EventLog.Payloads(a) + EventLog.Payloads(b)
  {
  }

  /**
   * The checks do their work: a stored row with the hash and time of a snapshot loads if and only if it
   * is that snapshot unchanged and the events after it continue the logged prefix.
   */
  lemma {:induction false} SnapshotRejectsForks(snapshot: Snapshot, events: seq<EventLog.Event<TableEvent>>,
      row: Snapshot, rest: seq<EventLog.Event<TableEvent>>)
    requires EventLog.Chained(events, 0, EventLog.Genesis, None) && Taken(snapshot, events)
    requires row.stateHash == snapshot.stateHash && row.at == snapshot.at && 0 < row.sequence <= |events|
    ensures LoadAggregate(row, events[row.sequence - 1].hash, rest).Ok?
      <==> row == snapshot && EventLog.Chained(events[..snapshot.sequence] + rest, 0, EventLog.Genesis, None)
  {
    hide Serialize, Deserialize, Replay, Reduce;
    var prefix := events[..snapshot.sequence];
    assert events == prefix + events[snapshot.sequence..];
    EventLog.ChainSplits(prefix, events[snapshot.sequence..], 0, EventLog.Genesis, None);
    EventLog.ChainSplits(prefix, rest, 0, EventLog.Genesis, None);
  }
}
