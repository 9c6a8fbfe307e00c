/** The Binance USD-M depth bridge for one symbol: websocket deltas are buffered until a
    REST snapshot arrives, then replayed onto it; a book is published only once a delta
    has bridged the snapshot. Decimals are reals; a level whose text does not parse is a
    `None` price or quantity. */
module DepthBridge {
  import opened Common
  import opened OrderedSet

  const MAX_BUFFER := 2048
  const PUBLISHED_LEVELS := 50

  type Levels = map<real, real>
  type LevelUpdate = (real, real)

  datatype RawLevel = RawLevel(price: Option<real>, quantity: Option<real>)

  datatype Snapshot = Snapshot(lastUpdateId: u64, bids: seq<RawLevel>, asks: seq<RawLevel>)

  datatype Delta = Delta(symbol: string, eventTimeMs: u64, firstId: u64, finalId: u64, pu: u64,
                         bids: seq<RawLevel>, asks: seq<RawLevel>)

  datatype DepthError = InvalidEvent | InvalidLevel | SequenceGap | BufferFull | InvalidBook

  datatype BookLevel = BookLevel(price: real, quantity: real)

  datatype L2Book = L2Book(asset: string, tsEventNs: nat, tsRecvNs: nat,
                           bids: seq<BookLevel>, asks: seq<BookLevel>, sequence: u64)

  type Published = Result<Option<L2Book>, DepthError>

  /** The fields of the bridge as one value. */
  datatype State = State(bids: Levels, asks: Levels, last: Option<u64>, bridged: bool,
                         buffered: seq<(Delta, u64)>)

  const EMPTY := State(map[], map[], None, false, [])

  // ---------------------------------------------------------------- parsing

  function ParseUpdates(levels: seq<RawLevel>): Result<seq<LevelUpdate>, DepthError> {
    if levels == [] then Ok([])
    else
      match levels[0]
      case RawLevel(Some(price), Some(quantity)) =>
        if price <= 0.0 || quantity < 0.0 then Err(InvalidLevel)
        else (match ParseUpdates(levels[1..])
              case Ok(rest) => Ok([(price, quantity)] + rest)
              case Err(e) => Err(e))
      case _ => Err(InvalidLevel)
  }

  /** One absolute level update: a zero quantity removes the price. */
  function SetLevel(levels: Levels, update: LevelUpdate): Levels {
    if update.1 == 0.0 then levels - {update.0} else levels[update.0 := update.1]
  }

  function SetLevels(levels: Levels, updates: seq<LevelUpdate>): Levels {
    if updates == [] then levels
    else SetLevel(SetLevels(levels, updates[..|updates| - 1]), updates[|updates| - 1])
  }

  /** A snapshot side: zero quantities are skipped, later duplicates of a price win. */
  function InsertNonZero(updates: seq<LevelUpdate>): Levels {
    if updates == [] then map[]
    else
      var u := updates[|updates| - 1];
      var before := InsertNonZero(updates[..|updates| - 1]);
      if u.1 == 0.0 then before else before[u.0 := u.1]
  }

  function ParseLevels(levels: seq<RawLevel>): Result<Levels, DepthError> {
    match ParseUpdates(levels)
    case Ok(updates) => Ok(InsertNonZero(updates))
    case Err(e) => Err(e)
  }

  predicate ValidLevel(level: RawLevel) {
    level.price.Some? && level.quantity.Some? && level.price.value > 0.0 && level.quantity.value >= 0.0
  }

  /** Parsing succeeds exactly when every level is valid, and then keeps each of them in place. */
  lemma {:induction false} ParsedUpdatesAreValid(levels: seq<RawLevel>)
    ensures ParseUpdates(levels).Ok? <==> forall i :: 0 <= i < |levels| ==> ValidLevel(levels[i])
    ensures ParseUpdates(levels).Ok? ==>
              var updates := ParseUpdates(levels).value;
              && |updates| == |levels|
              && forall i :: 0 <= i < |levels| ==>
                   updates[i] == (levels[i].price.value, levels[i].quantity.value) && updates[i].0 > 0.0 && updates[i].1 >= 0.0
    ensures ParseUpdates(levels).Err? ==> ParseUpdates(levels).error == InvalidLevel
  {
    if levels != [] {
      ParsedUpdatesAreValid(levels[1..]);
      assert forall i :: 0 < i < |levels| ==> levels[i] == levels[1..][i - 1];
      if ParseUpdates(levels).Ok? {
        assert ValidLevel(levels[0]);
      }
    }
  }

  // ---------------------------------------------------------------- ordered books

  predicate PriceLeq(a: real, b: real) {
    a <= b
  }

  /** The prices of the source's ordered map in iteration order. */
  function Ascending(prices: set<real>): seq<real> {
    Sorted(prices, PriceLeq)
  }

  /** A book that may be published: two-sided, every bid below every ask. */
  ghost predicate Uncrossed(bids: Levels, asks: Levels) {
    && bids != map[] && asks != map[]
    && forall b, a :: b in bids && a in asks ==> b < a
  }

  function Reversed(keys: seq<real>): seq<real> {
    if keys == [] then [] else [keys[|keys| - 1]] + Reversed(keys[..|keys| - 1])
  }

  function Row(levels: Levels, price: real): BookLevel {
    BookLevel(price, if price in levels then levels[price] else 0.0)
  }

  function Rows(levels: Levels, keys: seq<real>): seq<BookLevel> {
    if keys == [] then [] else [Row(levels, keys[0])] + Rows(levels, keys[1..])
  }

  function TopBids(levels: Levels): seq<BookLevel> {
    var keys := Reversed(Ascending(levels.Keys));
    Rows(levels, keys[..Min(PUBLISHED_LEVELS, |keys|)])
  }

  function TopAsks(levels: Levels): seq<BookLevel> {
    var keys := Ascending(levels.Keys);
    Rows(levels, keys[..Min(PUBLISHED_LEVELS, |keys|)])
  }

  // ---------------------------------------------------------------- the bridge as a function

  predicate WellFormed(symbol: string, delta: Delta, receivedNs: u64) {
    && delta.symbol == symbol
    && delta.firstId != 0
    && delta.firstId <= delta.finalId
    && delta.eventTimeMs != 0
    && delta.eventTimeMs * 1_000_000 <= U64_MAX
    && receivedNs != 0
  }

  predicate Skipped(s: State, delta: Delta)
    requires s.last.Some?
  {
    (s.bridged && delta.finalId <= s.last.value) || (!s.bridged && delta.finalId < s.last.value)
  }

  predicate InSequence(s: State, delta: Delta)
    requires s.last.Some?
  {
    if s.bridged then delta.pu == s.last.value
    else delta.firstId <= s.last.value <= delta.finalId
  }

  function BookOf(symbol: string, bids: Levels, asks: Levels, delta: Delta, receivedNs: u64): L2Book {
    L2Book(symbol, delta.eventTimeMs * 1_000_000, receivedNs, TopBids(bids), TopAsks(asks), delta.finalId)
  }

  ghost function Apply(symbol: string, s: State, delta: Delta, receivedNs: u64): (State, Published) {
    if s.last.None? then (s, Err(SequenceGap))
    else if Skipped(s, delta) then (s, Ok(None))
    else if !InSequence(s, delta) then (EMPTY, Err(SequenceGap))
    else
      var b, a := ParseUpdates(delta.bids), ParseUpdates(delta.asks);
      if b.Err? then (EMPTY, Err(b.error))
      else if a.Err? then (EMPTY, Err(a.error))
      else
        var bids, asks := SetLevels(s.bids, b.value), SetLevels(s.asks, a.value);
        if !Uncrossed(bids, asks) then (EMPTY, Err(InvalidBook))
        else (State(bids, asks, Some(delta.finalId), true, s.buffered),
              Ok(Some(BookOf(symbol, bids, asks, delta, receivedNs))))
  }

  ghost function Push(symbol: string, s: State, delta: Delta, receivedNs: u64): (State, Published) {
    if !WellFormed(symbol, delta, receivedNs) then (EMPTY, Err(InvalidEvent))
    else if s.last.Some? then Apply(symbol, s, delta, receivedNs)
    else if |s.buffered| >= MAX_BUFFER then (EMPTY, Err(BufferFull))
    else (s.(buffered := s.buffered + [(delta, receivedNs)]), Ok(None))
  }

  /** Replay the queued deltas in arrival order onto a bridge whose own buffer is empty,
      remembering the newest book. */
  ghost function Drain(symbol: string, s: State, queue: seq<(Delta, u64)>, latest: Option<L2Book>): (State, Published)
    decreases |queue|
  {
    if queue == [] then (s, Ok(latest))
    else
      match Apply(symbol, s, queue[0].0, queue[0].1)
      case (s', Err(e)) => (s', Err(e))
      case (s', Ok(book)) => Drain(symbol, s', queue[1..], if book.Some? then book else latest)
  }

  ghost function Install(symbol: string, s: State, snapshot: Snapshot): (State, Published) {
    if snapshot.lastUpdateId == 0 then (EMPTY, Err(InvalidEvent))
    else
      var bids, asks := ParseLevels(snapshot.bids), ParseLevels(snapshot.asks);
      if bids.Err? then (EMPTY, Err(bids.error))
      else if asks.Err? then (EMPTY, Err(asks.error))
      else if !Uncrossed(bids.value, asks.value) then (EMPTY, Err(InvalidBook))
      else Drain(symbol, State(bids.value, asks.value, Some(snapshot.lastUpdateId), false, []), s.buffered, None)
  }

  // ---------------------------------------------------------------- the bridge as an object

  class BinanceDepthBridge {
    const symbol: string
    var bids: Levels
    var asks: Levels
    var lastUpdateId: Option<u64>
    var bridged: bool
    var buffered: seq<(Delta, u64)>

    function Value(): State
      reads this
    {
      State(bids, asks, lastUpdateId, bridged, buffered)
    }

    constructor (symbol: string)
      ensures this.symbol == symbol && Value() == EMPTY
    {
      this.symbol := symbol;
      bids, asks, lastUpdateId, bridged, buffered := map[], map[], None, false, [];
    }

    method Invalidate()
      modifies this
      ensures Value() == EMPTY
    {
      bids, asks := map[], map[];
      lastUpdateId := None;
      bridged := false;
      buffered := [];
    }

    /** Greatest bid strictly below least ask, both sides non-empty. */
    method ValidBook() returns (valid: bool)
      ensures valid == Uncrossed(bids, asks)
    {
      var b, a := Ascending(bids.Keys), Ascending(asks.Keys);
      SortedFacts(bids.Keys, PriceLeq);
      SortedFacts(asks.Keys, PriceLeq);
      valid := |b| > 0 && |a| > 0 && b[|b| - 1] < a[0];
      if valid {
        assert b[0] in bids && a[0] in asks;
        forall x, y | x in bids && y in asks ensures x < y {
          var i := RankOf(bids.Keys, PriceLeq, x);
          var j := RankOf(asks.Keys, PriceLeq, y);
        }
      } else if bids != map[] && asks != map[] {
        assert bids.Keys != {} && asks.Keys != {};
        assert b[|b| - 1] in bids && a[0] in asks;
      }
    }

    method PushDelta(delta: Delta, receivedNs: u64) returns (r: Published)
      modifies this
      ensures (Value(), r) == Push(symbol, old(Value()), delta, receivedNs)
    {
      if delta.symbol != symbol
         || delta.firstId == 0
         || delta.firstId > delta.finalId
         || delta.eventTimeMs == 0
         || delta.eventTimeMs * 1_000_000 > U64_MAX
         || receivedNs == 0 {
        Invalidate();
        return Err(InvalidEvent);
      }
      if lastUpdateId.None? {
        if |buffered| >= MAX_BUFFER {
          Invalidate();
          return Err(BufferFull);
        }
        buffered := buffered + [(delta, receivedNs)];
        return Ok(None);
      }
      r := ApplyDelta(delta, receivedNs);
    }

    method InstallSnapshot(snapshot: Snapshot) returns (r: Published)
      modifies this
      ensures (Value(), r) == Install(symbol, old(Value()), snapshot)
    {
      if snapshot.lastUpdateId == 0 {
        Invalidate();
        return Err(InvalidEvent);
      }
      var parsedBids := ParseLevels(snapshot.bids);
      if parsedBids.Err? {
        Invalidate();
        return Err(parsedBids.error);
      }
      var parsedAsks := ParseLevels(snapshot.asks);
      if parsedAsks.Err? {
        Invalidate();
        return Err(parsedAsks.error);
      }
      bids, asks := parsedBids.value, parsedAsks.value;
      lastUpdateId := Some(snapshot.lastUpdateId);
      bridged := false;
      var valid := ValidBook();
      if !valid {
        Invalidate();
        return Err(InvalidBook);
      }
      ghost var start, queue := Value().(buffered := []), buffered;
      var latest: Option<L2Book> := None;
      while buffered != []
        invariant lastUpdateId.Some?
        invariant Drain(symbol, Value().(buffered := []), buffered, latest) == Drain(symbol, start, queue, None)
        decreases |buffered|
      {
        var (delta, receivedNs) := buffered[0];
        buffered := buffered[1..];
        ApplyKeepsBuffer(symbol, Value(), delta, receivedNs);
        var step := ApplyDelta(delta, receivedNs);
        match step
        case Ok(Some(book)) => latest := Some(book);
        case Ok(None) =>
        case Err(error) => return Err(error);
      }
      return Ok(latest);
    }

    method SetBids(updates: seq<LevelUpdate>)
      modifies this`bids
      ensures bids == SetLevels(old(bids), updates)
    {
      for i := 0 to |updates|
        invariant bids == SetLevels(old(bids), updates[..i])
      {
        var (price, quantity) := updates[i];
        assert updates[..i + 1][..i] == updates[..i];
        if quantity == 0.0 {
          bids := bids - {price};
        } else {
          bids := bids[price := quantity];
        }
      }
      assert updates[..|updates|] == updates;
    }

    method SetAsks(updates: seq<LevelUpdate>)
      modifies this`asks
      ensures asks == SetLevels(old(asks), updates)
    {
      for i := 0 to |updates|
        invariant asks == SetLevels(old(asks), updates[..i])
      {
        var (price, quantity) := updates[i];
        assert updates[..i + 1][..i] == updates[..i];
        if quantity == 0.0 {
          asks := asks - {price};
        } else {
          asks := asks[price := quantity];
        }
      }
      assert updates[..|updates|] == updates;
    }

    method ApplyDelta(delta: Delta, receivedNs: u64) returns (r: Published)
      modifies this
      ensures (Value(), r) == Apply(symbol, old(Value()), delta, receivedNs)
    {
      if lastUpdateId.None? {
        return Err(SequenceGap);
      }
      var last := lastUpdateId.value;
      if (bridged && delta.finalId <= last) || (!bridged && delta.finalId < last) {
        return Ok(None);
      }
      var sequenceValid := if bridged then delta.pu == last
                           else delta.firstId <= last && delta.finalId >= last;
      if !sequenceValid {
        Invalidate();
        return Err(SequenceGap);
      }
      var bidUpdates := ParseUpdates(delta.bids);
      if bidUpdates.Err? {
        Invalidate();
        return Err(bidUpdates.error);
      }
      var askUpdates := ParseUpdates(delta.asks);
      if askUpdates.Err? {
        Invalidate();
        return Err(askUpdates.error);
      }
      var b, a := bidUpdates.value, askUpdates.value;
      SetBids(b);
      SetAsks(a);
      var valid := ValidBook();
      if !valid {
        Invalidate();
        return Err(InvalidBook);
      }
      bridged := true;
      lastUpdateId := Some(delta.finalId);
      return Ok(Some(BookOf(symbol, bids, asks, delta, receivedNs)));
    }
  }

  // ---------------------------------------------------------------- one-step facts

  /** Apply looks at the buffer only to carry it along: it is kept on success and
      dropped with everything else on a failure. */
  lemma ApplyKeepsBuffer(symbol: string, s: State, delta: Delta, receivedNs: u64)
    requires s.last.Some?
    ensures var (s', r) := Apply(symbol, s, delta, receivedNs);
            && (r.Ok? ==> s'.buffered == s.buffered && s'.last.Some?)
            && (r.Err? ==> s' == EMPTY)
    ensures forall q: seq<(Delta, u64)> {:trigger s.(buffered := q)} ::
              var (s', r) := Apply(symbol, s, delta, receivedNs);
              Apply(symbol, s.(buffered := q), delta, receivedNs) ==
              (if r.Ok? then s'.(buffered := q) else EMPTY, r)
  {
  }
}
