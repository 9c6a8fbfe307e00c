/** What the depth bridge promises over whole runs: the published book is the venue's own
    book, sequences increase, errors reset everything, and it does not matter when the
    snapshot arrives. The venue is an independent definition: a log of absolute level
    changes, update `k` being `log[k - 1]`. */
module DepthVenue {
  import opened Common
  import opened OrderedSet
  import opened DepthBridge

  datatype BookSide = Bids | Asks

  /** New absolute quantities by price; zero deletes the price. */
  datatype VenueUpdate = VenueUpdate(bids: Levels, asks: Levels)

  function Changes(u: VenueUpdate, side: BookSide): Levels {
    if side.Bids? then u.bids else u.asks
  }

  function RawSide(delta: Delta, side: BookSide): seq<RawLevel> {
    if side.Bids? then delta.bids else delta.asks
  }

  function TopOf(levels: Levels, side: BookSide): seq<BookLevel> {
    if side.Bids? then TopBids(levels) else TopAsks(levels)
  }

  predicate Better(side: BookSide, p: real, q: real) {
    if side.Bids? then p > q else p < q
  }

  predicate Touches(log: seq<VenueUpdate>, side: BookSide, k: int, p: real) {
    1 <= k <= |log| && p in Changes(log[k - 1], side)
  }

  /** The quantity resting at price `p` after update `k`: the newest write wins. */
  ghost function ValueAt(log: seq<VenueUpdate>, side: BookSide, k: nat, p: real): real
    requires k <= |log|
  {
    if k == 0 then 0.0
    else if Touches(log, side, k, p) then Changes(log[k - 1], side)[p]
    else ValueAt(log, side, k - 1, p)
  }

  ghost predicate IsBookAt(levels: Levels, log: seq<VenueUpdate>, side: BookSide, k: nat)
    requires k <= |log|
  {
    forall p: real ::
      && (p in levels <==> ValueAt(log, side, k, p) != 0.0)
      && (p in levels ==> levels[p] == ValueAt(log, side, k, p))
  }

  predicate Lists(updates: seq<LevelUpdate>, p: real) {
    updates != [] && (updates[|updates| - 1].0 == p || Lists(updates[..|updates| - 1], p))
  }

  /** A diff's side carries the values at `u` of every price touched in `(pu, u]`. */
  ghost predicate Carries(log: seq<VenueUpdate>, side: BookSide, pu: nat, u: nat, raw: seq<RawLevel>)
    requires u <= |log|
  {
    ParseUpdates(raw).Ok? ==>
      var updates := ParseUpdates(raw).value;
      && (forall i :: 0 <= i < |updates| ==> updates[i].1 == ValueAt(log, side, u, updates[i].0))
      && (forall k, p :: pu < k <= u && Touches(log, side, k, p) ==> Lists(updates, p))
  }

  ghost predicate FaithfulDelta(log: seq<VenueUpdate>, delta: Delta) {
    && delta.pu < delta.firstId <= delta.finalId <= |log|
    && forall side: BookSide :: Carries(log, side, delta.pu, delta.finalId, RawSide(delta, side))
  }

  /** The level lists this price with this quantity. */
  predicate Says(level: RawLevel, price: real, quantity: real) {
    level == RawLevel(Some(price), Some(quantity))
  }

  /** A snapshot's side that parses lists the venue's levels after update `k`: what it lists with
      a quantity is there, and nothing is missing. */
  ghost predicate Tells(log: seq<VenueUpdate>, side: BookSide, k: nat, raw: seq<RawLevel>)
    requires k <= |log|
  {
    (forall i :: 0 <= i < |raw| ==> ValidLevel(raw[i])) ==>
      && (forall i, p, q :: 0 <= i < |raw| && Says(raw[i], p, q) && q != 0.0 ==> ValueAt(log, side, k, p) == q)
      && (forall p: real :: ValueAt(log, side, k, p) != 0.0 ==>
            exists i :: 0 <= i < |raw| && Says(raw[i], p, ValueAt(log, side, k, p)))
  }

  ghost predicate FaithfulSnapshot(log: seq<VenueUpdate>, snapshot: Snapshot) {
    && snapshot.lastUpdateId <= |log|
    && Tells(log, Bids, snapshot.lastUpdateId, snapshot.bids)
    && Tells(log, Asks, snapshot.lastUpdateId, snapshot.asks)
  }

  /** Of the rows of a snapshot's side that have a quantity the last one of a price counts. */
  lemma {:induction false} SnapshotSideMeaning(updates: seq<LevelUpdate>, p: real) returns (i: int)
    ensures -1 <= i < |updates|
    ensures var r := InsertNonZero(updates);
            if i < 0 then p !in r
            else updates[i].0 == p && updates[i].1 != 0.0 && p in r && r[p] == updates[i].1
    ensures forall j :: i < j < |updates| ==> !(updates[j].0 == p && updates[j].1 != 0.0)
  {
    i := -1;
    if updates != [] {
      var n := |updates| - 1;
      i := SnapshotSideMeaning(updates[..n], p);
      assert forall j :: 0 <= j < n ==> updates[..n][j] == updates[j];
      if updates[n].0 == p && updates[n].1 != 0.0 {
        i := n;
      }
    }
  }

  lemma TellsBook(log: seq<VenueUpdate>, side: BookSide, k: nat, raw: seq<RawLevel>)
    requires k <= |log| && Tells(log, side, k, raw) && ParseLevels(raw).Ok?
    ensures IsBookAt(ParseLevels(raw).value, log, side, k)
  {
    ParsedUpdatesAreValid(raw);
    var updates := ParseUpdates(raw).value;
    forall p: real
      ensures var r := ParseLevels(raw).value;
              (p in r <==> ValueAt(log, side, k, p) != 0.0) && (p in r ==> r[p] == ValueAt(log, side, k, p))
    {
      var i := SnapshotSideMeaning(updates, p);
      if i >= 0 {
        assert Says(raw[i], p, updates[i].1);
      } else {
        assert forall j, q :: 0 <= j < |raw| && Says(raw[j], p, q) ==> updates[j] == (p, q) && q == 0.0;
      }
    }
  }

  /** A snapshot that parses yields the venue's two sides. */
  lemma SnapshotIsBook(log: seq<VenueUpdate>, snapshot: Snapshot)
    requires FaithfulSnapshot(log, snapshot)
    ensures ParseLevels(snapshot.bids).Ok? ==>
              IsBookAt(ParseLevels(snapshot.bids).value, log, Bids, snapshot.lastUpdateId)
    ensures ParseLevels(snapshot.asks).Ok? ==>
              IsBookAt(ParseLevels(snapshot.asks).value, log, Asks, snapshot.lastUpdateId)
  {
    if ParseLevels(snapshot.bids).Ok? { TellsBook(log, Bids, snapshot.lastUpdateId, snapshot.bids); }
    if ParseLevels(snapshot.asks).Ok? { TellsBook(log, Asks, snapshot.lastUpdateId, snapshot.asks); }
  }

  /** The rows are the venue's best levels after update `k`, best first, at most fifty. */
  ghost predicate BestOf(rows: seq<BookLevel>, log: seq<VenueUpdate>, side: BookSide, k: nat)
    requires k <= |log|
  {
    && |rows| <= PUBLISHED_LEVELS
    && (forall i, j :: 0 <= i < j < |rows| ==> Better(side, rows[i].price, rows[j].price))
    && (forall i :: 0 <= i < |rows| ==>
          rows[i].quantity == ValueAt(log, side, k, rows[i].price) && rows[i].quantity != 0.0)
    && (forall p: real :: ValueAt(log, side, k, p) != 0.0 ==>
          || (exists i :: 0 <= i < |rows| && rows[i].price == p)
          || (|rows| == PUBLISHED_LEVELS && forall i :: 0 <= i < |rows| ==> Better(side, rows[i].price, p)))
  }

  ghost predicate IsVenueBook(book: L2Book, log: seq<VenueUpdate>) {
    && book.sequence <= |log|
    && BestOf(book.bids, log, Bids, book.sequence)
    && BestOf(book.asks, log, Asks, book.sequence)
  }

  /** The bridge holds the venue book at its last update id; buffered deltas are faithful. */
  ghost predicate Synced(log: seq<VenueUpdate>, s: State) {
    && (s.last.Some? ==>
          && s.last.value <= |log|
          && IsBookAt(s.bids, log, Bids, s.last.value)
          && IsBookAt(s.asks, log, Asks, s.last.value))
    && forall i :: 0 <= i < |s.buffered| ==> FaithfulDelta(log, s.buffered[i].0)
  }

  // ---------------------------------------------------------------- one side of one delta

  lemma {:induction false} SetLevelsMeaning(levels: Levels, updates: seq<LevelUpdate>, p: real, v: real)
    requires forall i :: 0 <= i < |updates| && updates[i].0 == p ==> updates[i].1 == v
    ensures var r := SetLevels(levels, updates);
            if Lists(updates, p) then (p in r <==> v != 0.0) && (p in r ==> r[p] == v)
            else (p in r <==> p in levels) && (p in r ==> r[p] == levels[p])
  {
    if updates != [] {
      SetLevelsMeaning(levels, updates[..|updates| - 1], p, v);
    }
  }

  lemma {:induction false} UntouchedKeepsValue(log: seq<VenueUpdate>, side: BookSide, j: nat, k: nat, p: real)
    requires j <= k <= |log|
    requires forall i :: j < i <= k ==> !Touches(log, side, i, p)
    ensures ValueAt(log, side, k, p) == ValueAt(log, side, j, p)
  {
    if j < k {
      UntouchedKeepsValue(log, side, j, k - 1, p);
    }
  }

  /** A diff moves a side from any state in `[pu, u]` to the state at `u`: overlap is harmless. */
  lemma DeltaAdvancesSide(levels: Levels, log: seq<VenueUpdate>, side: BookSide, pu: nat, k: nat, u: nat, raw: seq<RawLevel>)
    requires pu <= k <= u <= |log|
    requires IsBookAt(levels, log, side, k) && Carries(log, side, pu, u, raw)
    requires ParseUpdates(raw).Ok?
    ensures IsBookAt(SetLevels(levels, ParseUpdates(raw).value), log, side, u)
  {
    var updates := ParseUpdates(raw).value;
    var r := SetLevels(levels, updates);
    forall p: real
      ensures (p in r <==> ValueAt(log, side, u, p) != 0.0) && (p in r ==> r[p] == ValueAt(log, side, u, p))
    {
      SetLevelsMeaning(levels, updates, p, ValueAt(log, side, u, p));
      if !Lists(updates, p) {
        UntouchedKeepsValue(log, side, k, u, p);
      }
    }
  }

  // ---------------------------------------------------------------- publication

  lemma {:induction false} ReversedAt(keys: seq<real>, i: nat)
    requires i < |keys|
    ensures |Reversed(keys)| == |keys| && Reversed(keys)[i] == keys[|keys| - 1 - i]
  {
    var rest := keys[..|keys| - 1];
    if |keys| > 1 {
      ReversedAt(rest, if i == 0 then 0 else i - 1);
    } else {
      assert Reversed(rest) == [];
    }
  }

  lemma {:induction false} RowsAt(levels: Levels, keys: seq<real>)
    ensures |Rows(levels, keys)| == |keys|
    ensures forall i :: 0 <= i < |keys| ==> Rows(levels, keys)[i] == Row(levels, keys[i])
  {
    if keys != [] {
      RowsAt(levels, keys[1..]);
    }
  }

  /** The whole side ordered best first. */
  function Ordered(levels: Levels, side: BookSide): seq<real> {
    if side.Bids? then Reversed(Ascending(levels.Keys)) else Ascending(levels.Keys)
  }

  lemma OrderedFacts(levels: Levels, side: BookSide)
    ensures var keys := Ordered(levels, side);
            && |keys| == |levels.Keys|
            && (forall i :: 0 <= i < |keys| ==> keys[i] in levels)
            && (forall i, j :: 0 <= i < j < |keys| ==> Better(side, keys[i], keys[j]))
  {
    SortedFacts(levels.Keys, PriceLeq);
    var up := Ascending(levels.Keys);
    if side.Bids? {
      if |up| > 0 { ReversedAt(up, 0); }
      forall i | 0 <= i < |up| ensures Reversed(up)[i] == up[|up| - 1 - i] {
        ReversedAt(up, i);
      }
    }
  }

  lemma PlaceOf(levels: Levels, side: BookSide, p: real) returns (i: nat)
    requires p in levels
    ensures i < |Ordered(levels, side)| && Ordered(levels, side)[i] == p
  {
    var j := RankOf(levels.Keys, PriceLeq, p);
    i := j;
    if side.Bids? {
      var up := Ascending(levels.Keys);
      ReversedAt(up, |up| - 1 - j);
      i := |up| - 1 - j;
    }
  }

  lemma TopRows(levels: Levels, side: BookSide)
    ensures var keys, rows := Ordered(levels, side), TopOf(levels, side);
            && |rows| == Min(PUBLISHED_LEVELS, |keys|)
            && forall i :: 0 <= i < |rows| ==> rows[i] == Row(levels, keys[i])
  {
    var keys := Ordered(levels, side);
    RowsAt(levels, keys[..Min(PUBLISHED_LEVELS, |keys|)]);
  }

  lemma TopIsBest(levels: Levels, log: seq<VenueUpdate>, side: BookSide, k: nat)
    requires k <= |log| && IsBookAt(levels, log, side, k)
    ensures BestOf(TopOf(levels, side), log, side, k)
  {
    var keys := Ordered(levels, side);
    var rows := TopOf(levels, side);
    OrderedFacts(levels, side);
    TopRows(levels, side);
    forall p: real | ValueAt(log, side, k, p) != 0.0
      ensures || (exists i :: 0 <= i < |rows| && rows[i].price == p)
              || (|rows| == PUBLISHED_LEVELS && forall i :: 0 <= i < |rows| ==> Better(side, rows[i].price, p))
    {
      var place := PlaceOf(levels, side, p);
      if place < |rows| {
        assert rows[place].price == p;
      }
    }
  }

  // ---------------------------------------------------------------- every step keeps the venue book

  /** Whatever `apply` accepts is the venue book after the delta's last update. */
  lemma ApplyTracksVenue(log: seq<VenueUpdate>, symbol: string, s: State, delta: Delta, receivedNs: u64)
    requires Synced(log, s) && FaithfulDelta(log, delta)
    ensures var (s', r) := Apply(symbol, s, delta, receivedNs);
            && Synced(log, s')
            && (r.Ok? && r.value.Some? ==>
                  && s'.last == Some(delta.finalId) && r.value.value.sequence == delta.finalId
                  && IsVenueBook(r.value.value, log))
  {
    var (s', r) := Apply(symbol, s, delta, receivedNs);
    if r.Ok? && r.value.Some? {
      var k := s.last.value;
      assert Carries(log, Bids, delta.pu, delta.finalId, RawSide(delta, Bids));
      assert Carries(log, Asks, delta.pu, delta.finalId, RawSide(delta, Asks));
      DeltaAdvancesSide(s.bids, log, Bids, delta.pu, k, delta.finalId, delta.bids);
      DeltaAdvancesSide(s.asks, log, Asks, delta.pu, k, delta.finalId, delta.asks);
      assert TopOf(s'.bids, Bids) == TopBids(s'.bids) && TopOf(s'.asks, Asks) == TopAsks(s'.asks);
      TopIsBest(s'.bids, log, Bids, delta.finalId);
      TopIsBest(s'.asks, log, Asks, delta.finalId);
    }
  }

  /** Conversely, the next contiguous delta of a faithful stream is accepted whenever it
      parses and the venue's own book after it is two-sided and uncrossed. */
  lemma ApplyAcceptsNextDelta(log: seq<VenueUpdate>, symbol: string, s: State, delta: Delta, receivedNs: u64,
                              bids: Levels, asks: Levels)
    requires Synced(log, s) && s.last.Some? && FaithfulDelta(log, delta)
    requires if s.bridged then delta.pu == s.last.value
             else delta.firstId <= s.last.value <= delta.finalId
    requires ParseUpdates(delta.bids).Ok? && ParseUpdates(delta.asks).Ok?
    requires IsBookAt(bids, log, Bids, delta.finalId) && IsBookAt(asks, log, Asks, delta.finalId)
    requires Uncrossed(bids, asks)
    ensures Apply(symbol, s, delta, receivedNs) ==
            (State(bids, asks, Some(delta.finalId), true, s.buffered),
             Ok(Some(BookOf(symbol, bids, asks, delta, receivedNs))))
  {
    assert Carries(log, Bids, delta.pu, delta.finalId, RawSide(delta, Bids));
    assert Carries(log, Asks, delta.pu, delta.finalId, RawSide(delta, Asks));
    DeltaAdvancesSide(s.bids, log, Bids, delta.pu, s.last.value, delta.finalId, delta.bids);
    DeltaAdvancesSide(s.asks, log, Asks, delta.pu, s.last.value, delta.finalId, delta.asks);
    BookIsUnique(bids, SetLevels(s.bids, ParseUpdates(delta.bids).value), log, Bids, delta.finalId);
    BookIsUnique(asks, SetLevels(s.asks, ParseUpdates(delta.asks).value), log, Asks, delta.finalId);
  }

  lemma BookIsUnique(a: Levels, b: Levels, log: seq<VenueUpdate>, side: BookSide, k: nat)
    requires k <= |log| && IsBookAt(a, log, side, k) && IsBookAt(b, log, side, k)
    ensures a == b
  {
    forall p: real ensures (p in a <==> p in b) && (p in a ==> a[p] == b[p]) {
      assert p in a <==> ValueAt(log, side, k, p) != 0.0;
    }
    assert a.Keys == b.Keys;
  }

  lemma {:induction false} DrainTracksVenue(log: seq<VenueUpdate>, symbol: string, s: State,
                                            queue: seq<(Delta, u64)>, latest: Option<L2Book>)
    requires Synced(log, s)
    requires forall i :: 0 <= i < |queue| ==> FaithfulDelta(log, queue[i].0)
    requires latest.Some? ==> IsVenueBook(latest.value, log)
    ensures var (s', r) := Drain(symbol, s, queue, latest);
            Synced(log, s') && (r.Ok? && r.value.Some? ==> IsVenueBook(r.value.value, log))
    decreases |queue|
  {
    if queue != [] {
      ApplyTracksVenue(log, symbol, s, queue[0].0, queue[0].1);
      var (s', r) := Apply(symbol, s, queue[0].0, queue[0].1);
      if r.Ok? {
        DrainTracksVenue(log, symbol, s', queue[1..], if r.value.Some? then r.value else latest);
      }
    }
  }

  // ---------------------------------------------------------------- runs

  datatype Input = PushIn(delta: Delta, receivedNs: u64) | InstallIn(snapshot: Snapshot) | InvalidateIn

  ghost function Step(symbol: string, s: State, input: Input): (State, Published) {
    match input
    case PushIn(delta, receivedNs) => Push(symbol, s, delta, receivedNs)
    case InstallIn(snapshot) => Install(symbol, s, snapshot)
    case InvalidateIn => (EMPTY, Ok(None))
  }

  ghost function StateAfter(symbol: string, inputs: seq<Input>): State {
    if inputs == [] then EMPTY
    else Step(symbol, StateAfter(symbol, inputs[..|inputs| - 1]), inputs[|inputs| - 1]).0
  }

  /** The answer to the last input of a run that starts on a fresh bridge. */
  ghost function Answer(symbol: string, inputs: seq<Input>): Published
    requires inputs != []
  {
    Step(symbol, StateAfter(symbol, inputs[..|inputs| - 1]), inputs[|inputs| - 1]).1
  }

  ghost predicate Publishes(symbol: string, inputs: seq<Input>) {
    inputs != [] && Answer(symbol, inputs).Ok? && Answer(symbol, inputs).value.Some?
  }

  ghost predicate FaithfulInput(log: seq<VenueUpdate>, input: Input) {
    && (input.PushIn? ==> FaithfulDelta(log, input.delta))
    && (input.InstallIn? ==> FaithfulSnapshot(log, input.snapshot))
  }

  /** Main result: over every run of faithful inputs, in any order and with any resets, the
      bridge holds the venue book at its last update id and everything it publishes is the
      venue book (best fifty levels a side) at the published sequence. */
  lemma {:induction false} RunTracksVenue(log: seq<VenueUpdate>, symbol: string, inputs: seq<Input>)
    requires forall i :: 0 <= i < |inputs| ==> FaithfulInput(log, inputs[i])
    ensures Synced(log, StateAfter(symbol, inputs))
    ensures Publishes(symbol, inputs) ==> IsVenueBook(Answer(symbol, inputs).value.value, log)
  {
    if inputs != [] {
      var before := inputs[..|inputs| - 1];
      var s, input := StateAfter(symbol, before), inputs[|inputs| - 1];
      RunTracksVenue(log, symbol, before);
      assert FaithfulInput(log, input);
      match input
      case PushIn(delta, receivedNs) => ApplyTracksVenue(log, symbol, s, delta, receivedNs);
      case InstallIn(snapshot) =>
        var bids, asks := ParseLevels(snapshot.bids), ParseLevels(snapshot.asks);
        SnapshotIsBook(log, snapshot);
        if bids.Ok? && asks.Ok? {
          DrainTracksVenue(log, symbol, State(bids.value, asks.value, Some(snapshot.lastUpdateId), false, []),
                           s.buffered, None);
        }
      case InvalidateIn =>
    }
  }

  // ---------------------------------------------------------------- reachable states

  ghost predicate PositiveLevels(levels: Levels) {
    forall p :: p in levels ==> p > 0.0 && levels[p] > 0.0
  }

  ghost predicate Reachable(symbol: string, s: State) {
    && (s.last.Some? ==>
          && s.buffered == []
          && Uncrossed(s.bids, s.asks) && PositiveLevels(s.bids) && PositiveLevels(s.asks))
    && (s.last.None? ==> s.bids == map[] && s.asks == map[] && !s.bridged)
    && |s.buffered| <= MAX_BUFFER
    && forall i :: 0 <= i < |s.buffered| ==> WellFormed(symbol, s.buffered[i].0, s.buffered[i].1)
  }

  lemma {:induction false} SetLevelsPositive(levels: Levels, updates: seq<LevelUpdate>)
    requires PositiveLevels(levels)
    requires forall i :: 0 <= i < |updates| ==> updates[i].0 > 0.0 && updates[i].1 >= 0.0
    ensures PositiveLevels(SetLevels(levels, updates))
  {
    if updates != [] {
      SetLevelsPositive(levels, updates[..|updates| - 1]);
    }
  }

  lemma {:induction false} InsertNonZeroPositive(updates: seq<LevelUpdate>)
    requires forall i :: 0 <= i < |updates| ==> updates[i].0 > 0.0 && updates[i].1 >= 0.0
    ensures PositiveLevels(InsertNonZero(updates))
  {
    if updates != [] {
      InsertNonZeroPositive(updates[..|updates| - 1]);
    }
  }

  lemma ApplyKeepsReachable(symbol: string, s: State, delta: Delta, receivedNs: u64)
    requires Reachable(symbol, s) && s.last.Some?
    ensures var (s', r) := Apply(symbol, s, delta, receivedNs);
            Reachable(symbol, s') && (r.Err? ==> s' == EMPTY) && (r.Ok? ==> s'.last.Some?)
  {
    ParsedUpdatesAreValid(delta.bids);
    ParsedUpdatesAreValid(delta.asks);
    var b, a := ParseUpdates(delta.bids), ParseUpdates(delta.asks);
    if b.Ok? && a.Ok? {
      SetLevelsPositive(s.bids, b.value);
      SetLevelsPositive(s.asks, a.value);
    }
  }

  lemma {:induction false} DrainKeepsReachable(symbol: string, s: State, queue: seq<(Delta, u64)>, latest: Option<L2Book>)
    requires Reachable(symbol, s) && s.last.Some?
    ensures var (s', r) := Drain(symbol, s, queue, latest);
            Reachable(symbol, s') && (r.Err? ==> s' == EMPTY) && (r.Ok? ==> s'.last.Some?)
    decreases |queue|
  {
    if queue != [] {
      ApplyKeepsReachable(symbol, s, queue[0].0, queue[0].1);
      var (s', r) := Apply(symbol, s, queue[0].0, queue[0].1);
      if r.Ok? {
        DrainKeepsReachable(symbol, s', queue[1..], if r.value.Some? then r.value else latest);
      }
    }
  }

  /** Over every run: an installed snapshot means an empty buffer and an uncrossed,
      two-sided book of positive levels, and an error leaves a fresh bridge. */
  lemma {:induction false} RunStaysReachable(symbol: string, inputs: seq<Input>)
    ensures Reachable(symbol, StateAfter(symbol, inputs))
    ensures inputs != [] && Answer(symbol, inputs).Err? ==> StateAfter(symbol, inputs) == EMPTY
  {
    if inputs != [] {
      var before := inputs[..|inputs| - 1];
      var s, input := StateAfter(symbol, before), inputs[|inputs| - 1];
      RunStaysReachable(symbol, before);
      match input
      case PushIn(delta, receivedNs) =>
        if s.last.Some? { ApplyKeepsReachable(symbol, s, delta, receivedNs); }
      case InstallIn(snapshot) =>
        ParsedUpdatesAreValid(snapshot.bids);
        ParsedUpdatesAreValid(snapshot.asks);
        var bids, asks := ParseUpdates(snapshot.bids), ParseUpdates(snapshot.asks);
        if bids.Ok? && asks.Ok? {
          InsertNonZeroPositive(bids.value);
          InsertNonZeroPositive(asks.value);
          var s0 := State(InsertNonZero(bids.value), InsertNonZero(asks.value), Some(snapshot.lastUpdateId), false, []);
          if Uncrossed(s0.bids, s0.asks) {
            DrainKeepsReachable(symbol, s0, s.buffered, None);
          }
        }
      case InvalidateIn =>
    }
  }

  // ---------------------------------------------------------------- published sequences increase

  /** The sequence published by the last input of a run, if it published a book. */
  ghost function Sequence(symbol: string, inputs: seq<Input>): Option<u64> {
    if Publishes(symbol, inputs) then Some(Answer(symbol, inputs).value.value.sequence) else None
  }

  ghost predicate PastSequence(s: State, sequence: u64) {
    s.last.Some? ==> s.bridged && s.last.value >= sequence
  }

  lemma {:induction false} DrainEndsAtItsBook(symbol: string, s: State, queue: seq<(Delta, u64)>, latest: Option<L2Book>)
    requires s.last.Some?
    requires latest.Some? ==> PastSequence(s, latest.value.sequence)
    ensures var (s', r) := Drain(symbol, s, queue, latest);
            r.Ok? && r.value.Some? ==> PastSequence(s', r.value.value.sequence)
    decreases |queue|
  {
    if queue != [] {
      ApplyKeepsBuffer(symbol, s, queue[0].0, queue[0].1);
      var (s', r) := Apply(symbol, s, queue[0].0, queue[0].1);
      if r.Ok? {
        DrainEndsAtItsBook(symbol, s', queue[1..], if r.value.Some? then r.value else latest);
      }
    }
  }

  /** Until another snapshot is installed, a step stays at or beyond a published sequence
      (or drops the snapshot), and a book it publishes is newer. */
  lemma StepStaysPast(symbol: string, s: State, input: Input, sequence: u64)
    requires PastSequence(s, sequence) && !input.InstallIn?
    ensures var (s', r) := Step(symbol, s, input);
            && PastSequence(s', sequence)
            && (r.Ok? && r.value.Some? ==> sequence < r.value.value.sequence)
  {
  }

  lemma StepEndsAtItsBook(symbol: string, s: State, input: Input)
    ensures var (s', r) := Step(symbol, s, input);
            r.Ok? && r.value.Some? ==> PastSequence(s', r.value.value.sequence)
  {
    if input.InstallIn? {
      var bids, asks := ParseLevels(input.snapshot.bids), ParseLevels(input.snapshot.asks);
      if bids.Ok? && asks.Ok? {
        DrainEndsAtItsBook(symbol, State(bids.value, asks.value, Some(input.snapshot.lastUpdateId), false, []),
                           s.buffered, None);
      }
    }
  }

  lemma {:induction false} StaysPastSequence(symbol: string, inputs: seq<Input>, i: nat)
    requires i < |inputs| && Sequence(symbol, inputs[..i + 1]).Some?
    requires forall k :: i < k < |inputs| ==> !inputs[k].InstallIn?
    ensures PastSequence(StateAfter(symbol, inputs), Sequence(symbol, inputs[..i + 1]).value)
    decreases |inputs|
  {
    var before, input := inputs[..|inputs| - 1], inputs[|inputs| - 1];
    if i == |inputs| - 1 {
      assert inputs[..i + 1] == inputs;
      StepEndsAtItsBook(symbol, StateAfter(symbol, before), input);
    } else {
      assert before[..i + 1] == inputs[..i + 1];
      StaysPastSequence(symbol, before, i);
      StepStaysPast(symbol, StateAfter(symbol, before), input, Sequence(symbol, inputs[..i + 1]).value);
    }
  }

  /** Published sequences strictly increase from one snapshot to the next. */
  lemma SequencesIncrease(symbol: string, inputs: seq<Input>, i: nat, j: nat)
    requires i < j < |inputs|
    requires Sequence(symbol, inputs[..i + 1]).Some? && Sequence(symbol, inputs[..j + 1]).Some?
    requires forall k :: i < k <= j ==> !inputs[k].InstallIn?
    ensures Sequence(symbol, inputs[..i + 1]).value < Sequence(symbol, inputs[..j + 1]).value
  {
    assert inputs[..j][..i + 1] == inputs[..i + 1];
    StaysPastSequence(symbol, inputs[..j], i);
    NextIsNewer(symbol, inputs, j, Sequence(symbol, inputs[..i + 1]).value);
  }

  lemma NextIsNewer(symbol: string, inputs: seq<Input>, j: nat, sequence: u64)
    requires j < |inputs| && !inputs[j].InstallIn?
    requires PastSequence(StateAfter(symbol, inputs[..j]), sequence) && Sequence(symbol, inputs[..j + 1]).Some?
    ensures sequence < Sequence(symbol, inputs[..j + 1]).value
  {
    assert inputs[..j + 1][..j] == inputs[..j];
    StepStaysPast(symbol, StateAfter(symbol, inputs[..j]), inputs[j], sequence);
  }

  // ---------------------------------------------------------------- snapshot timing

  datatype Outcome = Failed(error: DepthError) | Done(state: State, latest: Option<L2Book>)

  type Stepper = (State, Input) -> (State, Published)

  /** A run that stops at its first error, remembering the last published book. */
  ghost function PlayBy(step: Stepper, s: State, inputs: seq<Input>, latest: Option<L2Book>): Outcome
    decreases |inputs|
  {
    if inputs == [] then Done(s, latest)
    else
      match step(s, inputs[0])
      case (_, Err(error)) => Failed(error)
      case (s', Ok(book)) => PlayBy(step, s', inputs[1..], if book.Some? then book else latest)
  }

  ghost function Steps(symbol: string): Stepper {
    (s, input) => Step(symbol, s, input)
  }

  ghost function Play(symbol: string, s: State, inputs: seq<Input>, latest: Option<L2Book>): Outcome {
    PlayBy(Steps(symbol), s, inputs, latest)
  }

  function Pushes(deltas: seq<(Delta, u64)>): seq<Input> {
    if deltas == [] then [] else [PushIn(deltas[0].0, deltas[0].1)] + Pushes(deltas[1..])
  }

  /** The deltas in order with one snapshot arriving after the first `i` of them. */
  function WithSnapshotAt(deltas: seq<(Delta, u64)>, snapshot: Snapshot, i: nat): seq<Input>
    requires i <= |deltas|
  {
    Pushes(deltas[..i]) + [InstallIn(snapshot)] + Pushes(deltas[i..])
  }

  ghost predicate AllWellFormed(symbol: string, deltas: seq<(Delta, u64)>) {
    forall i :: 0 <= i < |deltas| ==> WellFormed(symbol, deltas[i].0, deltas[i].1)
  }

  /** Play on from an answered step. */
  ghost function Resume(symbol: string, step: (State, Published), rest: seq<Input>): Outcome {
    if step.1.Err? then Failed(step.1.error) else Play(symbol, step.0, rest, step.1.value)
  }

  /** The snapshot alone, then every delta pushed onto it. */
  ghost function SnapshotFirst(symbol: string, deltas: seq<(Delta, u64)>, snapshot: Snapshot): Outcome {
    Resume(symbol, Install(symbol, EMPTY, snapshot), Pushes(deltas))
  }

  lemma PlayCons(symbol: string, s: State, input: Input, rest: seq<Input>, latest: Option<L2Book>)
    ensures Play(symbol, s, [input] + rest, latest) ==
            var (s', r) := Step(symbol, s, input);
            if r.Err? then Failed(r.error) else Play(symbol, s', rest, if r.value.Some? then r.value else latest)
  {
    assert ([input] + rest)[1..] == rest;
  }

  lemma PushBuffers(symbol: string, s: State, queued: (Delta, u64))
    requires s.last.None? && |s.buffered| < MAX_BUFFER && WellFormed(symbol, queued.0, queued.1)
    ensures Step(symbol, s, PushIn(queued.0, queued.1)) == (s.(buffered := s.buffered + [queued]), Ok(None))
  {
    assert queued == (queued.0, queued.1);
  }

  /** The step appends every well-formed delta while there is no snapshot and room. */
  ghost predicate Buffers(step: Stepper, symbol: string) {
    forall s: State, queued: (Delta, u64) {:trigger step(s, PushIn(queued.0, queued.1))} ::
      s.last.None? && |s.buffered| < MAX_BUFFER && WellFormed(symbol, queued.0, queued.1) ==>
        step(s, PushIn(queued.0, queued.1)) == (s.(buffered := s.buffered + [queued]), Ok(None))
  }

  lemma {:induction false} BufferingBy(step: Stepper, symbol: string, s: State, deltas: seq<(Delta, u64)>, rest: seq<Input>)
    requires Buffers(step, symbol)
    requires s.last.None? && |s.buffered| + |deltas| <= MAX_BUFFER && AllWellFormed(symbol, deltas)
    ensures PlayBy(step, s, Pushes(deltas) + rest, None) == PlayBy(step, s.(buffered := s.buffered + deltas), rest, None)
    decreases |deltas|
  {
    if deltas == [] {
      assert Pushes(deltas) + rest == rest;
      assert s.buffered + deltas == s.buffered;
    } else {
      var next := s.(buffered := s.buffered + [deltas[0]]);
      PushesSplit(deltas, rest);
      assert step(s, PushIn(deltas[0].0, deltas[0].1)) == (next, Ok(None));
      BufferingBy(step, symbol, next, deltas[1..], rest);
      TakeFirst(s.buffered, deltas);
    }
  }

  lemma PushesSplit(deltas: seq<(Delta, u64)>, rest: seq<Input>)
    requires deltas != []
    ensures var inputs := Pushes(deltas) + rest;
            |inputs| > 0 && inputs[0] == PushIn(deltas[0].0, deltas[0].1) && inputs[1..] == Pushes(deltas[1..]) + rest
  {
    ConsSplit(PushIn(deltas[0].0, deltas[0].1), Pushes(deltas[1..]), rest);
  }

  lemma ConsSplit<T>(x: T, tail: seq<T>, rest: seq<T>)
    ensures ([x] + tail + rest)[0] == x && ([x] + tail + rest)[1..] == tail + rest
  {
  }

  lemma TakeFirst<T>(a: seq<T>, b: seq<T>)
    requires b != []
    ensures a + [b[0]] + b[1..] == a + b
  {
  }

  lemma BufferingPushes(symbol: string, s: State, deltas: seq<(Delta, u64)>, rest: seq<Input>)
    requires s.last.None? && |s.buffered| + |deltas| <= MAX_BUFFER && AllWellFormed(symbol, deltas)
    ensures Play(symbol, s, Pushes(deltas) + rest, None) ==
            Play(symbol, s.(buffered := s.buffered + deltas), rest, None)
  {
    forall t: State, queued: (Delta, u64)
      | t.last.None? && |t.buffered| < MAX_BUFFER && WellFormed(symbol, queued.0, queued.1)
      ensures Steps(symbol)(t, PushIn(queued.0, queued.1)) == (t.(buffered := t.buffered + [queued]), Ok(None))
    {
      PushBuffers(symbol, t, queued);
    }
    BufferingBy(Steps(symbol), symbol, s, deltas, rest);
  }

  /** Draining a queue and then playing on is playing the queue's deltas as pushes. */
  lemma {:induction false} DrainIsPushing(symbol: string, s: State, queue: seq<(Delta, u64)>,
                                          rest: seq<Input>, latest: Option<L2Book>)
    requires s.last.Some? && AllWellFormed(symbol, queue)
    ensures Play(symbol, s, Pushes(queue) + rest, latest) == Resume(symbol, Drain(symbol, s, queue, latest), rest)
    decreases |queue|
  {
    if queue == [] {
      assert Pushes(queue) + rest == rest;
    } else {
      var first := PushIn(queue[0].0, queue[0].1);
      assert Pushes(queue) + rest == [first] + (Pushes(queue[1..]) + rest);
      PlayCons(symbol, s, first, Pushes(queue[1..]) + rest, latest);
      ApplyKeepsBuffer(symbol, s, queue[0].0, queue[0].1);
      var (s', r) := Apply(symbol, s, queue[0].0, queue[0].1);
      if r.Ok? {
        DrainIsPushing(symbol, s', queue[1..], rest, if r.value.Some? then r.value else latest);
      }
    }
  }

  /** Main result: the arrival time of the snapshot is invisible. A run of well-formed deltas
      with the snapshot after the first `i`, at most 2048, of them has the same outcome as the
      run with the snapshot first: the same error, or the same final state and last book. */
  lemma SnapshotTimingIsInvisible(symbol: string, deltas: seq<(Delta, u64)>, snapshot: Snapshot, i: nat)
    requires i <= |deltas| && i <= MAX_BUFFER && AllWellFormed(symbol, deltas)
    ensures Play(symbol, EMPTY, WithSnapshotAt(deltas, snapshot, i), None) ==
            SnapshotFirst(symbol, deltas, snapshot)
  {
    var early, late := deltas[..i], deltas[i..];
    var rest := [InstallIn(snapshot)] + Pushes(late);
    assert WithSnapshotAt(deltas, snapshot, i) == Pushes(early) + rest;
    BufferingPushes(symbol, EMPTY, early, rest);
    assert EMPTY.buffered + early == early;
    PlayCons(symbol, EMPTY.(buffered := early), InstallIn(snapshot), Pushes(late), None);
    var bids, asks := ParseLevels(snapshot.bids), ParseLevels(snapshot.asks);
    if snapshot.lastUpdateId != 0 && bids.Ok? && asks.Ok? && Uncrossed(bids.value, asks.value) {
      var s0 := State(bids.value, asks.value, Some(snapshot.lastUpdateId), false, []);
      assert Install(symbol, EMPTY, snapshot) == (s0, Ok(None));
      DrainIsPushing(symbol, s0, early, Pushes(late), None);
      PushesAppend(early, late);
      assert early + late == deltas;
    }
  }

  lemma {:induction false} PushesAppend(a: seq<(Delta, u64)>, b: seq<(Delta, u64)>)
    ensures Pushes(a) + Pushes(b) == Pushes(a + b)
    decreases |a|
  {
    if a == [] {
      assert a + b == b;
    } else {
      PushesAppend(a[1..], b);
      assert (a + b)[1..] == a[1..] + b;
    }
  }

  /** With more deltas before it the snapshot comes too late. */
  lemma LateSnapshotFails(symbol: string, deltas: seq<(Delta, u64)>, snapshot: Snapshot, i: nat)
    requires MAX_BUFFER < i <= |deltas| && AllWellFormed(symbol, deltas)
    ensures Play(symbol, EMPTY, WithSnapshotAt(deltas, snapshot, i), None) == Failed(BufferFull)
  {
    var full, over := deltas[..MAX_BUFFER], deltas[MAX_BUFFER..i];
    var rest := [InstallIn(snapshot)] + Pushes(deltas[i..]);
    PushesAppend(full, over);
    assert full + over == deltas[..i];
    assert WithSnapshotAt(deltas, snapshot, i) == Pushes(full) + (Pushes(over) + rest);
    BufferingPushes(symbol, EMPTY, full, Pushes(over) + rest);
    assert EMPTY.buffered + full == full;
    PushesSplit(over, rest);
    assert Pushes(over) + rest == [PushIn(over[0].0, over[0].1)] + (Pushes(over[1..]) + rest);
    PlayCons(symbol, EMPTY.(buffered := full), PushIn(over[0].0, over[0].1), Pushes(over[1..]) + rest, None);
  }
}
