/** Streaming candle aggregation by aligned time bucket. Prices and quantities are reals;
    times are 64-bit nanoseconds and `end` wraps as release arithmetic does. */
module Candles {
  import opened Common

  datatype Trade = Trade(asset: string, time: u64, received: u64, price: real, quantity: real)

  datatype Candle = Candle(
    asset: string, interval: u64, start: u64, end: u64, received: u64,
    open: real, high: real, low: real, close: real, volume: real, trades: nat)

  datatype CandleError = InvalidInterval | OutOfOrder(bucketStart: u64, eventTime: u64)

  type Interval = n: u64 | n > 0 witness 1

  function Bucket(interval: Interval, time: u64): u64 {
    BucketBound(time, interval);
    time / interval * interval
  }

  lemma BucketBound(time: nat, interval: nat)
    requires interval > 0
    ensures 0 <= time / interval * interval <= time < time / interval * interval + interval
  {
    var q, r := time / interval, time % interval;
    assert time == interval * q + r;
    assert interval * q == q * interval;
  }

  /** The bucket a trade belongs to. The facts about streams below hold for any such key. */
  type Key = Trade -> u64

  function Aligned(interval: Interval): Key {
    (t: Trade) => Bucket(interval, t.time)
  }

  function WrappingEnd(start: u64, interval: Interval): u64 {
    (start + interval) % (U64_MAX + 1)
  }

  function Opened(interval: Interval, t: Trade, start: u64): Candle {
    Candle(t.asset, interval, start, WrappingEnd(start, interval), t.received,
           t.price, t.price, t.price, t.price, t.quantity, 1)
  }

  function Extended(c: Candle, t: Trade): Candle {
    c.(high := MaxReal(c.high, t.price), low := MinReal(c.low, t.price), close := t.price,
       volume := c.volume + t.quantity, trades := c.trades + 1, received := t.received)
  }

  /** One trade of the given bucket: the new current candle and the answer. */
  function Pushed(interval: Interval, current: Option<Candle>, t: Trade, bucket: u64)
    : (Option<Candle>, Result<Option<Candle>, CandleError>)
  {
    if current.Some? && bucket < current.value.start then (current, Err(OutOfOrder(current.value.start, t.time)))
    else if current.Some? && bucket == current.value.start then (Some(Extended(current.value, t)), Ok(None))
    else (Some(Opened(interval, t, bucket)), Ok(current))
  }

  class CandleAggregator {
    const interval: Interval
    var current: Option<Candle>

    constructor (interval: Interval)
      ensures this.interval == interval && current.None?
    {
      this.interval := interval;
      current := None;
    }

    method PushTrade(t: Trade) returns (r: Result<Option<Candle>, CandleError>)
      modifies `current
      ensures (current, r) == Pushed(interval, old(current), t, Aligned(interval)(t))
    {
      var bucket := Bucket(interval, t.time);
      if current.Some? {
        var c := current.value;
        if bucket < c.start {
          return Err(OutOfOrder(c.start, t.time));
        }
        if bucket == c.start {
          current := Some(Extended(c, t));
          return Ok(None);
        }
      }
      var completed := current;
      current := Some(Opened(interval, t, bucket));
      return Ok(completed);
    }
  }

  method Create(interval: u64) returns (r: Result<CandleAggregator, CandleError>)
    ensures r.Err? <==> interval == 0
    ensures r.Ok? ==> fresh(r.value) && r.value.interval == interval && r.value.current.None?
  {
    if interval == 0 {
      return Err(InvalidInterval);
    }
    var aggregator := new CandleAggregator(interval);
    return Ok(aggregator);
  }

  // ---------------------------------------------------------------- a whole stream

  datatype Stream = Stream(completed: seq<Candle>, current: Option<Candle>)

  function AfterTrade(key: Key, interval: Interval, s: Stream, t: Trade): Stream {
    var pushed := Pushed(interval, s.current, t, key(t));
    Stream(if pushed.1.Ok? && pushed.1.value.Some? then s.completed + [pushed.1.value.value] else s.completed, pushed.0)
  }

  /** The completed candles returned so far and the current one. */
  function Streamed(key: Key, interval: Interval, trades: seq<Trade>): Stream {
    if trades == [] then Stream([], None)
    else AfterTrade(key, interval, Streamed(key, interval, trades[..|trades| - 1]), trades[|trades| - 1])
  }

  function AllCandles(s: Stream): seq<Candle> {
    if s.current.None? then s.completed else s.completed + [s.current.value]
  }

  /** A trade is accepted unless its bucket precedes that of the last accepted trade. */
  function AcceptedOf(key: Key, trades: seq<Trade>): seq<Trade> {
    if trades == [] then []
    else
      var front, last := AcceptedOf(key, trades[..|trades| - 1]), trades[|trades| - 1];
      if front != [] && key(last) < key(front[|front| - 1]) then front
      else front + [last]
  }

  // ---------------------------------------------------------------- the batch definition

  function OfBucket(key: Key, trades: seq<Trade>, start: u64): seq<Trade> {
    if trades == [] then []
    else
      var front, last := OfBucket(key, trades[..|trades| - 1], start), trades[|trades| - 1];
      if key(last) == start then front + [last] else front
  }

  function Highest(trades: seq<Trade>): real
    requires trades != []
  {
    if |trades| == 1 then trades[0].price else MaxReal(Highest(trades[..|trades| - 1]), trades[|trades| - 1].price)
  }

  function Lowest(trades: seq<Trade>): real
    requires trades != []
  {
    if |trades| == 1 then trades[0].price else MinReal(Lowest(trades[..|trades| - 1]), trades[|trades| - 1].price)
  }

  function Quantity(trades: seq<Trade>): real {
    if trades == [] then 0.0 else Quantity(trades[..|trades| - 1]) + trades[|trades| - 1].quantity
  }

  /** The highest and the lowest are prices of trades, and no price lies beyond them. */
  lemma {:induction false} ExtremesAreMet(trades: seq<Trade>)
    requires trades != []
    ensures forall i :: 0 <= i < |trades| ==> Lowest(trades) <= trades[i].price <= Highest(trades)
    ensures exists i :: 0 <= i < |trades| && trades[i].price == Highest(trades)
    ensures exists i :: 0 <= i < |trades| && trades[i].price == Lowest(trades)
  {
    var n := |trades| - 1;
    if n == 0 {
      assert trades[0].price == Highest(trades) == Lowest(trades);
    } else {
      var front := trades[..n];
      ExtremesAreMet(front);
      var i :| 0 <= i < n && front[i].price == Highest(front);
      var j :| 0 <= j < n && front[j].price == Lowest(front);
      assert trades[i].price == Highest(front) && trades[j].price == Lowest(front);
      assert forall k :: 0 <= k < n ==> front[k] == trades[k];
      assert trades[if Highest(trades) == Highest(front) then i else n].price == Highest(trades);
      assert trades[if Lowest(trades) == Lowest(front) then j else n].price == Lowest(trades);
    }
  }

  /** The candle of one bucket, computed from all its trades at once. */
  function Batch(interval: Interval, trades: seq<Trade>, start: u64): Candle
    requires trades != []
  {
    var last := trades[|trades| - 1];
    Candle(trades[0].asset, interval, start, WrappingEnd(start, interval), last.received,
           trades[0].price, Highest(trades), Lowest(trades), last.price, Quantity(trades), |trades|)
  }

  /** The buckets of the trades, in order of first appearance. */
  function Buckets(key: Key, trades: seq<Trade>): seq<u64> {
    if trades == [] then []
    else
      var front, b := Buckets(key, trades[..|trades| - 1]), key(trades[|trades| - 1]);
      if front != [] && front[|front| - 1] == b then front else front + [b]
  }

  ghost predicate BucketsIncrease(key: Key, trades: seq<Trade>) {
    var buckets := Buckets(key, trades);
    && (forall i, j :: 0 <= i < j < |buckets| ==> buckets[i] < buckets[j])
    && (trades != [] ==> buckets != [] && buckets[|buckets| - 1] == key(trades[|trades| - 1]))
    && (forall i :: 0 <= i < |trades| ==> buckets != [] && key(trades[i]) <= buckets[|buckets| - 1])
  }

  lemma BucketsStep(key: Key, accepted: seq<Trade>, t: Trade)
    requires BucketsIncrease(key, accepted)
    requires accepted != [] ==> key(accepted[|accepted| - 1]) <= key(t)
    ensures BucketsIncrease(key, accepted + [t])
  {
    assert (accepted + [t])[..|accepted|] == accepted;
  }

  lemma OfBucketAppend(key: Key, trades: seq<Trade>, t: Trade, start: u64)
    ensures OfBucket(key, trades + [t], start)
         == if key(t) == start then OfBucket(key, trades, start) + [t]
            else OfBucket(key, trades, start)
  {
    assert (trades + [t])[..|trades|] == trades;
  }

  lemma {:induction false} NoneOfBucket(key: Key, trades: seq<Trade>, start: u64)
    requires forall i :: 0 <= i < |trades| ==> key(trades[i]) != start
    ensures OfBucket(key, trades, start) == []
  {
    if trades != [] {
      NoneOfBucket(key, trades[..|trades| - 1], start);
    }
  }

  lemma BatchExtends(interval: Interval, group: seq<Trade>, t: Trade, start: u64)
    requires group != []
    ensures Batch(interval, group + [t], start) == Extended(Batch(interval, group, start), t)
  {
    assert (group + [t])[..|group|] == group;
  }

  lemma BatchOpens(key: Key, interval: Interval, t: Trade)
    ensures Batch(interval, [t], key(t)) == Opened(interval, t, key(t))
  {
    assert [t][..0] == [];
    assert Quantity([t][..0]) == 0.0;
  }

  /** Candle `i` is the batch candle of the `i`-th bucket's accepted trades. */
  ghost predicate IsBatch(key: Key, interval: Interval, accepted: seq<Trade>, candles: seq<Candle>) {
    var buckets := Buckets(key, accepted);
    && |candles| == |buckets|
    && forall i :: 0 <= i < |buckets| ==>
         && OfBucket(key, accepted, buckets[i]) != []
         && candles[i] == Batch(interval, OfBucket(key, accepted, buckets[i]), buckets[i])
  }

  lemma BatchExtendsAll(key: Key, interval: Interval, accepted: seq<Trade>, candles: seq<Candle>, t: Trade)
    requires BucketsIncrease(key, accepted) && IsBatch(key, interval, accepted, candles) && accepted != []
    requires key(accepted[|accepted| - 1]) == key(t)
    ensures IsBatch(key, interval, accepted + [t], candles[..|candles| - 1] + [Extended(candles[|candles| - 1], t)])
  {
    var buckets, b := Buckets(key, accepted), key(t);
    var next, after := accepted + [t], candles[..|candles| - 1] + [Extended(candles[|candles| - 1], t)];
    assert next[..|accepted|] == accepted;
    assert Buckets(key, next) == buckets;
    forall i | 0 <= i < |buckets|
      ensures OfBucket(key, next, buckets[i]) != []
      ensures after[i] == Batch(interval, OfBucket(key, next, buckets[i]), buckets[i])
    {
      OfBucketAppend(key, accepted, t, buckets[i]);
      if buckets[i] == b {
        BatchExtends(interval, OfBucket(key, accepted, b), t, b);
      }
    }
  }

  lemma BatchOpensNext(key: Key, interval: Interval, accepted: seq<Trade>, candles: seq<Candle>, t: Trade)
    requires BucketsIncrease(key, accepted) && IsBatch(key, interval, accepted, candles)
    requires accepted != [] ==> key(accepted[|accepted| - 1]) < key(t)
    ensures IsBatch(key, interval, accepted + [t], candles + [Opened(interval, t, key(t))])
  {
    var buckets, b := Buckets(key, accepted), key(t);
    var next, after := accepted + [t], candles + [Opened(interval, t, key(t))];
    assert next[..|accepted|] == accepted;
    assert Buckets(key, next) == buckets + [b];
    forall i | 0 <= i < |buckets|
      ensures OfBucket(key, next, buckets[i]) == OfBucket(key, accepted, buckets[i])
    {
      OfBucketAppend(key, accepted, t, buckets[i]);
    }
    NewBucketHoldsOne(key, interval, accepted, t);
  }

  lemma NewBucketHoldsOne(key: Key, interval: Interval, accepted: seq<Trade>, t: Trade)
    requires forall i :: 0 <= i < |accepted| ==> key(accepted[i]) != key(t)
    ensures OfBucket(key, accepted + [t], key(t)) == [t]
    ensures Batch(interval, [t], key(t)) == Opened(interval, t, key(t))
  {
    OfBucketAppend(key, accepted, t, key(t));
    NoneOfBucket(key, accepted, key(t));
    BatchOpens(key, interval, t);
  }

  lemma BatchStep(key: Key, interval: Interval, accepted: seq<Trade>, s: Stream, t: Trade)
    requires BucketsIncrease(key, accepted) && IsBatch(key, interval, accepted, AllCandles(s))
    requires accepted == [] ==> s.completed == [] && s.current.None?
    requires accepted != [] ==> && s.current.Some?
                                && s.current.value.start == key(accepted[|accepted| - 1])
                                && s.current.value.start <= key(t)
    ensures var pushed := Pushed(interval, s.current, t, key(t));
            && pushed.1.Ok? && pushed.0.Some?
            && IsBatch(key, interval, accepted + [t],
                       (if pushed.1.value.Some? then s.completed + [pushed.1.value.value] else s.completed)
                       + [pushed.0.value])
  {
    if accepted != [] && s.current.value.start == key(t) {
      BatchExtendsAll(key, interval, accepted, AllCandles(s), t);
      assert AllCandles(s)[..|AllCandles(s)| - 1] == s.completed;
    } else {
      BatchOpensNext(key, interval, accepted, AllCandles(s), t);
    }
  }

  /** The completed candles followed by the current one are the batch grouping of the
      accepted trades, one candle per bucket, over strictly increasing buckets. */
  ghost predicate Grouped(key: Key, interval: Interval, s: Stream, accepted: seq<Trade>) {
    && IsBatch(key, interval, accepted, AllCandles(s))
    && BucketsIncrease(key, accepted)
    && (accepted == [] <==> s.current.None?)
    && (s.current.None? ==> s.completed == [])
    && (accepted != [] ==> s.current.value.start == key(accepted[|accepted| - 1]))
  }

  lemma GroupedStep(key: Key, interval: Interval, s: Stream, accepted: seq<Trade>, t: Trade)
    requires Grouped(key, interval, s, accepted)
    requires accepted != [] ==> key(accepted[|accepted| - 1]) <= key(t)
    ensures Grouped(key, interval, AfterTrade(key, interval, s, t), accepted + [t])
  {
    BatchStep(key, interval, accepted, s, t);
    BucketsStep(key, accepted, t);
  }

  lemma {:induction false} StreamIsBatch(key: Key, interval: Interval, trades: seq<Trade>)
    ensures Grouped(key, interval, Streamed(key, interval, trades), AcceptedOf(key, trades))
  {
    if trades != [] {
      var n := |trades| - 1;
      StreamIsBatch(key, interval, trades[..n]);
      var before, accepted, t := Streamed(key, interval, trades[..n]), AcceptedOf(key, trades[..n]), trades[n];
      if accepted == [] || key(accepted[|accepted| - 1]) <= key(t) {
        GroupedStep(key, interval, before, accepted, t);
        assert AcceptedOf(key, trades) == accepted + [t];
      } else {
        assert Streamed(key, interval, trades) == before;
      }
    }
  }

  /** A trade older than the current candle is refused and changes nothing. */
  lemma RejectedTradeLeavesTheStream(key: Key, interval: Interval, trades: seq<Trade>, t: Trade)
    ensures var s, accepted := Streamed(key, interval, trades), AcceptedOf(key, trades);
            var refused := Pushed(interval, s.current, t, key(t)).1.Err?;
            && (refused <==> accepted != [] && key(t) < key(accepted[|accepted| - 1]))
            && (refused ==> Pushed(interval, s.current, t, key(t)).1.error
                            == OutOfOrder(key(accepted[|accepted| - 1]), t.time))
            && (refused ==> Streamed(key, interval, trades + [t]) == s && AcceptedOf(key, trades + [t]) == accepted)
  {
    StreamIsBatch(key, interval, trades);
    RefusedStep(key, interval, Streamed(key, interval, trades), AcceptedOf(key, trades), t);
    assert (trades + [t])[..|trades|] == trades;
  }

  lemma RefusedStep(key: Key, interval: Interval, s: Stream, accepted: seq<Trade>, t: Trade)
    requires Grouped(key, interval, s, accepted)
    ensures var refused := Pushed(interval, s.current, t, key(t)).1.Err?;
            && (refused <==> accepted != [] && key(t) < key(accepted[|accepted| - 1]))
            && (refused ==> Pushed(interval, s.current, t, key(t)).1.error
                            == OutOfOrder(key(accepted[|accepted| - 1]), t.time))
            && (refused ==> AfterTrade(key, interval, s, t) == s)
  {
  }

  function Volumes(candles: seq<Candle>): real {
    if candles == [] then 0.0 else Volumes(candles[..|candles| - 1]) + candles[|candles| - 1].volume
  }

  lemma VolumesAppend(candles: seq<Candle>, c: Candle)
    ensures Volumes(candles + [c]) == Volumes(candles) + c.volume
  {
    assert (candles + [c])[..|candles|] == candles;
  }

  /** The accepted trades after one more. */
  function NextAccepted(key: Key, accepted: seq<Trade>, t: Trade): seq<Trade> {
    if accepted != [] && key(t) < key(accepted[|accepted| - 1]) then accepted else accepted + [t]
  }

  lemma NextVolume(key: Key, interval: Interval, s: Stream, accepted: seq<Trade>, t: Trade)
    requires Grouped(key, interval, s, accepted) && Volumes(AllCandles(s)) == Quantity(accepted)
    ensures Volumes(AllCandles(AfterTrade(key, interval, s, t))) == Quantity(NextAccepted(key, accepted, t))
  {
    if accepted != [] && key(t) < key(accepted[|accepted| - 1]) {
      RefusedStep(key, interval, s, accepted, t);
    } else {
      VolumeStep(key, interval, s, t);
      QuantityAppend(accepted, t);
    }
  }

  /** Traded volume is conserved: nothing accepted is lost or counted twice. */
  lemma {:induction false} VolumeIsConserved(key: Key, interval: Interval, trades: seq<Trade>)
    ensures Volumes(AllCandles(Streamed(key, interval, trades))) == Quantity(AcceptedOf(key, trades))
  {
    if trades != [] {
      var n := |trades| - 1;
      VolumeIsConserved(key, interval, trades[..n]);
      StreamIsBatch(key, interval, trades[..n]);
      NextVolume(key, interval, Streamed(key, interval, trades[..n]), AcceptedOf(key, trades[..n]), trades[n]);
    }
  }

  lemma QuantityAppend(trades: seq<Trade>, t: Trade)
    ensures Quantity(trades + [t]) == Quantity(trades) + t.quantity
  {
    assert (trades + [t])[..|trades|] == trades;
  }

  lemma VolumeStep(key: Key, interval: Interval, s: Stream, t: Trade)
    requires Pushed(interval, s.current, t, key(t)).1.Ok? && (s.current.None? ==> s.completed == [])
    ensures var pushed := Pushed(interval, s.current, t, key(t));
            var completed := if pushed.1.value.Some? then s.completed + [pushed.1.value.value] else s.completed;
            pushed.0.Some? && Volumes(completed + [pushed.0.value]) == Volumes(AllCandles(s)) + t.quantity
  {
    var pushed := Pushed(interval, s.current, t, key(t));
    var completed := if pushed.1.value.Some? then s.completed + [pushed.1.value.value] else s.completed;
    VolumesAppend(completed, pushed.0.value);
    if s.current.Some? {
      VolumesAppend(s.completed, s.current.value);
    }
  }

  lemma {:induction false} OfBucketTimes(key: Key, trades: seq<Trade>, start: u64, i: nat)
    requires i < |OfBucket(key, trades, start)|
    ensures key(OfBucket(key, trades, start)[i]) == start
  {
    var front := OfBucket(key, trades[..|trades| - 1], start);
    if i < |front| {
      OfBucketTimes(key, trades[..|trades| - 1], start, i);
    }
  }

  lemma BucketsAreApart(interval: Interval, time: u64, other: u64)
    ensures Bucket(interval, time) <= time < Bucket(interval, time) + interval
    ensures Bucket(interval, time) < Bucket(interval, other) ==> Bucket(interval, time) + interval <= Bucket(interval, other)
  {
    BucketBound(time, interval);
    BucketBound(other, interval);
    MultiplesAreApart(time / interval, other / interval, interval);
  }

  /** Each candle of a stream summarizes accepted trades, every one of which lies in the
      candle's aligned interval. */
  lemma TradesLieInTheirCandle(interval: Interval, trades: seq<Trade>, i: nat, k: nat)
    requires i < |AllCandles(Streamed(Aligned(interval), interval, trades))|
    ensures var c := AllCandles(Streamed(Aligned(interval), interval, trades))[i];
            var group := OfBucket(Aligned(interval), AcceptedOf(Aligned(interval), trades), c.start);
            && group != [] && c == Batch(interval, group, c.start)
            && (k < |group| ==> c.start <= group[k].time < c.start + interval && c.start == Bucket(interval, group[k].time))
  {
    var key := Aligned(interval);
    StreamIsBatch(key, interval, trades);
    var accepted, c := AcceptedOf(key, trades), AllCandles(Streamed(key, interval, trades))[i];
    assert c.start == Buckets(key, accepted)[i];
    if k < |OfBucket(key, accepted, c.start)| {
      OfBucketTimes(key, accepted, c.start, k);
      BucketsAreApart(interval, OfBucket(key, accepted, c.start)[k].time, 0);
    }
  }

  /** The intervals of a stream's candles follow each other without overlap. */
  lemma IntervalsAreDisjoint(interval: Interval, trades: seq<Trade>, i: nat, j: nat)
    requires i < j < |AllCandles(Streamed(Aligned(interval), interval, trades))|
    ensures var candles := AllCandles(Streamed(Aligned(interval), interval, trades));
            candles[i].start + interval <= candles[j].start
  {
    var key := Aligned(interval);
    StreamIsBatch(key, interval, trades);
    TradesLieInTheirCandle(interval, trades, i, 0);
    TradesLieInTheirCandle(interval, trades, j, 0);
    var accepted, candles := AcceptedOf(key, trades), AllCandles(Streamed(key, interval, trades));
    assert Buckets(key, accepted)[i] == candles[i].start && Buckets(key, accepted)[j] == candles[j].start;
    BucketsAreApart(interval, OfBucket(key, accepted, candles[i].start)[0].time,
                    OfBucket(key, accepted, candles[j].start)[0].time);
  }

  /** A candle's recorded end is its interval's end exactly while that fits in 64 bits. */
  lemma EndIsRightWhileItFits(interval: Interval, trades: seq<Trade>, i: nat)
    requires i < |AllCandles(Streamed(Aligned(interval), interval, trades))|
    ensures var c := AllCandles(Streamed(Aligned(interval), interval, trades))[i];
            && (c.end == c.start + interval <==> c.start + interval <= U64_MAX)
            && (c.end < c.start <==> c.start + interval > U64_MAX)
  {
    TradesLieInTheirCandle(interval, trades, i, 0);
    WrapOnce(AllCandles(Streamed(Aligned(interval), interval, trades))[i].start, interval);
  }

  /** It does not for a trade at the last nanosecond: whatever the interval, its candle ends
      before it starts. */
  lemma LastCandleWraps(interval: Interval, t: Trade)
    requires t.time == U64_MAX
    ensures var candles := AllCandles(Streamed(Aligned(interval), interval, [t]));
            |candles| == 1 && candles[0].end < candles[0].start
  {
    assert [t][..0] == [];
    assert Streamed(Aligned(interval), interval, [t]) == AfterTrade(Aligned(interval), interval, Stream([], None), t);
    BucketsAreApart(interval, t.time, 0);
    WrapOnce(Bucket(interval, t.time), interval);
  }

  lemma MultiplesAreApart(a: nat, b: nat, d: nat)
    requires d > 0
    ensures a * d < b * d ==> a * d + d <= b * d
  {
    if a * d < b * d {
      if b <= a {
        ProductGrows(b, a, d);
        assert false;
      }
      ProductGrows(a + 1, b, d);
      assert (a + 1) * d == a * d + d;
    }
  }

  lemma ProductGrows(a: nat, b: nat, d: nat)
    requires a <= b
    ensures a * d <= b * d
  {
    assert b * d - a * d == (b - a) * d;
  }

  lemma WrapOnce(start: u64, interval: Interval)
    ensures start + interval <= U64_MAX ==> WrappingEnd(start, interval) == start + interval
    ensures start + interval > U64_MAX ==> WrappingEnd(start, interval) == start + interval - (U64_MAX + 1)
  {
  }
}
