/** Research replay of one passive quote against a market tape, with the queue in front of it
    assumed empty or full. Decimals are reals; times are nanoseconds. */
module CausalReplay {
  import opened Common

  datatype Queue = Front | Back

  datatype TapeEvent = TapeEvent(
    ts: int, bid: real, ask: real, bidSize: real, askSize: real, sellsAtBid: real, buysAtAsk: real)

  datatype PassiveOrder = PassiveOrder(
    side: Side, price: real, quantity: real, decision: int, inferenceReady: int, outboundLatency: int,
    cancelRequested: Option<int>, cancelLatency: int, makerFeeBps: real, markout: int)

  /** The constructor checks of an event. */
  predicate ValidEvent(e: TapeEvent) {
    && e.ts >= 0 && e.bid > 0.0 && e.ask > e.bid
    && e.bidSize >= 0.0 && e.askSize >= 0.0 && e.sellsAtBid >= 0.0 && e.buysAtAsk >= 0.0
  }

  /** The constructor checks of an order. */
  predicate ValidOrder(o: PassiveOrder) {
    && o.price > 0.0 && o.quantity > 0.0
    && o.decision >= 0 && o.inferenceReady >= o.decision
    && o.outboundLatency >= 0 && o.cancelLatency >= 0 && o.markout >= 0
    && (o.cancelRequested.Some? ==> o.cancelRequested.value >= o.decision)
  }

  predicate ValidTape(tape: seq<TapeEvent>) {
    forall i :: 0 <= i < |tape| ==> ValidEvent(tape[i])
  }

  datatype RawFill = RawFill(time: int, quantity: real, price: real)

  datatype ReplayFill = ReplayFill(time: int, quantity: real, price: real, fee: real, markout: real)

  datatype Status = UnobservedArrival | PostOnlyRejected | UnsupportedOffTouch | Filled | Canceled | Resting

  datatype ReplayResult = ReplayResult(
    queue: Queue, status: Status, fills: seq<ReplayFill>, unfilled: real, markoutComplete: bool)

  datatype ReplayError = EmptyTape | TapeNotIncreasing

  function Mid(e: TapeEvent): real {
    (e.bid + e.ask) / 2.0
  }

  function ArrivalTime(o: PassiveOrder): int {
    o.inferenceReady + o.outboundLatency
  }

  function CancelTime(o: PassiveOrder): Option<int> {
    if o.cancelRequested.None? then None else Some(o.cancelRequested.value + o.cancelLatency)
  }

  predicate Increasing(tape: seq<TapeEvent>) {
    forall i, j :: 0 <= i < j < |tape| ==> tape[i].ts < tape[j].ts
  }

  // ---------------------------------------------------------------- what the replay means

  predicate BeforeCancel(o: PassiveOrder, e: TapeEvent) {
    CancelTime(o).None? || e.ts < CancelTime(o).value
  }

  /** Opposing volume traded at the quote's own price while it was live. */
  function Opposing(o: PassiveOrder, e: TapeEvent): real {
    if !BeforeCancel(o, e) then 0.0
    else if o.side.Buy? then if e.bid == o.price then e.sellsAtBid else 0.0
    else if e.ask == o.price then e.buysAtAsk else 0.0
  }

  function Volume(o: PassiveOrder, events: seq<TapeEvent>): real {
    if events == [] then 0.0 else Volume(o, events[..|events| - 1]) + Opposing(o, events[|events| - 1])
  }

  /** The closed form: volume first consumes the queue ahead, then the quote. */
  function FilledBy(o: PassiveOrder, ahead: real, volume: real): real {
    MinReal(o.quantity, MaxReal(0.0, volume - ahead))
  }

  function FilledOn(o: PassiveOrder, ahead: real, events: seq<TapeEvent>): real {
    FilledBy(o, ahead, Volume(o, events))
  }

  /** One raw fill per event that advances the closed form, of the amount it advances. */
  function RawFills(o: PassiveOrder, ahead: real, events: seq<TapeEvent>): seq<RawFill> {
    if events == [] then []
    else
      var front, last := events[..|events| - 1], events[|events| - 1];
      var gained := FilledOn(o, ahead, events) - FilledOn(o, ahead, front);
      RawFills(o, ahead, front) + if gained > 0.0 then [RawFill(last.ts, gained, o.price)] else []
  }

  /** The first event at or after a time. */
  function FirstFrom(tape: seq<TapeEvent>, time: int): (i: Option<nat>)
    ensures i.Some? ==> i.value < |tape| && tape[i.value].ts >= time && forall k :: 0 <= k < i.value ==> tape[k].ts < time
    ensures i.None? ==> forall k :: 0 <= k < |tape| ==> tape[k].ts < time
  {
    if tape == [] then None
    else
      var front := FirstFrom(tape[..|tape| - 1], time);
      if front.Some? then front
      else if tape[|tape| - 1].ts >= time then Some(|tape| - 1)
      else None
  }

  /** The earliest time at which a fill at `ts` can be marked. */
  function Horizon(o: PassiveOrder, ts: int): int {
    if o.markout > 0 then ts + o.markout else ts + 1
  }

  /** The mark of a fill at `ts`: the mid of the first strictly later event past the horizon. */
  function MarkOf(tape: seq<TapeEvent>, o: PassiveOrder, ts: int): Option<real> {
    var i := FirstFrom(tape, Horizon(o, ts));
    if i.None? then None else Some(Mid(tape[i.value]))
  }

  function Priced(o: PassiveOrder, fill: RawFill, mark: real): ReplayFill {
    ReplayFill(fill.time, fill.quantity, fill.price, fill.price * fill.quantity * o.makerFeeBps / 10000.0,
               (if o.side.Buy? then mark - fill.price else fill.price - mark) * fill.quantity)
  }

  /** The published fills: raw fills that have a mark on this tape. */
  function Published(tape: seq<TapeEvent>, o: PassiveOrder, raw: seq<RawFill>): seq<ReplayFill> {
    if raw == [] then []
    else
      var front, last := Published(tape, o, raw[..|raw| - 1]), raw[|raw| - 1];
      var mark := MarkOf(tape, o, last.time);
      if mark.None? then front else front + [Priced(o, last, mark.value)]
  }

  predicate AllMarked(tape: seq<TapeEvent>, o: PassiveOrder, raw: seq<RawFill>) {
    forall i :: 0 <= i < |raw| ==> MarkOf(tape, o, raw[i].time).Some?
  }

  function AheadAtArrival(o: PassiveOrder, initial: TapeEvent, queue: Queue): real {
    if queue.Front? then 0.0 else if o.side.Buy? then initial.bidSize else initial.askSize
  }

  predicate Crosses(o: PassiveOrder, initial: TapeEvent) {
    if o.side.Buy? then o.price >= initial.ask else o.price <= initial.bid
  }

  predicate AtTouch(o: PassiveOrder, initial: TapeEvent) {
    if o.side.Buy? then o.price == initial.bid else o.price == initial.ask
  }

  /** Whether the quote rests at the touch, and from which event. */
  function RestsAt(tape: seq<TapeEvent>, o: PassiveOrder): (r: Result<nat, Status>)
    ensures r.Ok? ==> r.value < |tape| && tape[r.value].ts >= ArrivalTime(o)
  {
    var arrival := FirstFrom(tape, ArrivalTime(o));
    if arrival.None? then Err(UnobservedArrival)
    else if Crosses(o, tape[arrival.value]) then Err(PostOnlyRejected)
    else if !AtTouch(o, tape[arrival.value]) then Err(UnsupportedOffTouch)
    else Ok(arrival.value)
  }

  /** The raw fills of the whole replay; none when the quote never rests. */
  function RawOf(tape: seq<TapeEvent>, o: PassiveOrder, queue: Queue): seq<RawFill> {
    var resting := RestsAt(tape, o);
    if resting.Err? then [] else RawFrom(tape, o, queue, resting.value)
  }

  function RawFrom(tape: seq<TapeEvent>, o: PassiveOrder, queue: Queue, arrival: nat): seq<RawFill>
    requires arrival < |tape|
  {
    RawFills(o, AheadAtArrival(o, tape[arrival], queue), tape[arrival + 1..])
  }

  /** The result of a quote resting from event `arrival`. */
  function Settled(tape: seq<TapeEvent>, o: PassiveOrder, queue: Queue, arrival: nat): ReplayResult
    requires arrival < |tape|
  {
    var raw := RawFrom(tape, o, queue, arrival);
    var unfilled := o.quantity - FilledOn(o, AheadAtArrival(o, tape[arrival], queue), tape[arrival + 1..]);
    var status := if unfilled == 0.0 then Filled else if CancelTime(o).Some? then Canceled else Resting;
    ReplayResult(queue, status, Published(tape, o, raw), unfilled, AllMarked(tape, o, raw))
  }

  function Replayed(tape: seq<TapeEvent>, o: PassiveOrder, queue: Queue): Result<ReplayResult, ReplayError> {
    if tape == [] then Err(EmptyTape)
    else if !Increasing(tape) then Err(TapeNotIncreasing)
    else
      var resting := RestsAt(tape, o);
      if resting.Err? then Ok(ReplayResult(queue, resting.error, [], o.quantity, true))
      else Ok(Settled(tape, o, queue, resting.value))
  }

  // ---------------------------------------------------------------- the loops

  method CheckIncreasing(tape: seq<TapeEvent>) returns (ok: bool)
    ensures ok <==> Increasing(tape)
  {
    for i := 0 to |tape|
      invariant forall a, b :: 0 <= a < b < i ==> tape[a].ts < tape[b].ts
    {
      if i > 0 && tape[i - 1].ts >= tape[i].ts {
        return false;
      }
    }
    return true;
  }

  /** Nothing after index `k` trades against the quote, so nothing more fills. */
  lemma {:induction false} NothingMoreFills(o: PassiveOrder, ahead: real, events: seq<TapeEvent>, k: nat)
    requires k <= |events| && ValidTape(events) && ahead >= 0.0 && o.quantity > 0.0
    requires || (forall i :: k <= i < |events| ==> Opposing(o, events[i]) == 0.0)
             || FilledOn(o, ahead, events[..k]) == o.quantity
    ensures FilledOn(o, ahead, events) == FilledOn(o, ahead, events[..k])
    ensures RawFills(o, ahead, events) == RawFills(o, ahead, events[..k])
  {
    if k < |events| {
      var front := events[..|events| - 1];
      assert front[..k] == events[..k];
      NothingMoreFills(o, ahead, front, k);
      assert ValidEvent(events[|events| - 1]);
    } else {
      assert events[..k] == events;
    }
  }

  /** One trade of volume `w`, after `v` has traded. */
  lemma QueueStep(o: PassiveOrder, initialAhead: real, v: real, w: real)
    requires o.quantity > 0.0 && initialAhead >= 0.0 && v >= 0.0 && w > 0.0
    ensures var ahead, remaining := MaxReal(0.0, initialAhead - v), o.quantity - FilledBy(o, initialAhead, v);
            var consumed := MinReal(ahead, w);
            var quantity := MinReal(remaining, w - consumed);
            && ahead - consumed == MaxReal(0.0, initialAhead - (v + w))
            && quantity == FilledBy(o, initialAhead, v + w) - FilledBy(o, initialAhead, v)
            && quantity >= 0.0
  {
  }

  lemma NextEvent(o: PassiveOrder, ahead: real, events: seq<TapeEvent>, k: nat)
    requires k < |events|
    ensures Volume(o, events[..k + 1]) == Volume(o, events[..k]) + Opposing(o, events[k])
    ensures var gained := FilledOn(o, ahead, events[..k + 1]) - FilledOn(o, ahead, events[..k]);
            RawFills(o, ahead, events[..k + 1])
            == RawFills(o, ahead, events[..k]) + if gained > 0.0 then [RawFill(events[k].ts, gained, o.price)] else []
  {
    assert events[..k + 1][..k] == events[..k];
  }

  lemma SuffixKeeps(tape: seq<TapeEvent>, k: nat)
    requires k <= |tape| && ValidTape(tape) && Increasing(tape)
    ensures ValidTape(tape[k..]) && Increasing(tape[k..])
  {
  }

  lemma NothingAfterCancel(o: PassiveOrder, events: seq<TapeEvent>, k: nat)
    requires k < |events| && Increasing(events) && !BeforeCancel(o, events[k])
    ensures forall i :: k <= i < |events| ==> Opposing(o, events[i]) == 0.0
  {
  }

  /** The two running quantities of the queue loop are the closed form's: what is left ahead,
      and what is left of the quote. */
  ghost predicate QueueAt(o: PassiveOrder, initialAhead: real, events: seq<TapeEvent>, k: nat, ahead: real, remaining: real)
    requires k <= |events|
  {
    && Volume(o, events[..k]) >= 0.0
    && ahead == MaxReal(0.0, initialAhead - Volume(o, events[..k]))
    && remaining == o.quantity - FilledOn(o, initialAhead, events[..k])
  }

  /** The loop body for a live event: its volume consumes the queue ahead, then the quote. */
  method TakeEvent(o: PassiveOrder, event: TapeEvent, ahead0: real, remaining0: real,
                   ghost initialAhead: real, ghost events: seq<TapeEvent>, ghost k: nat)
    returns (ahead: real, remaining: real, fill: seq<RawFill>)
    requires ValidOrder(o) && initialAhead >= 0.0 && k < |events| && event == events[k] && ValidEvent(event)
    requires BeforeCancel(o, event) && QueueAt(o, initialAhead, events, k, ahead0, remaining0)
    ensures QueueAt(o, initialAhead, events, k + 1, ahead, remaining)
    ensures RawFills(o, initialAhead, events[..k + 1]) == RawFills(o, initialAhead, events[..k]) + fill
  {
    NextEvent(o, initialAhead, events, k);
    ahead, remaining, fill := ahead0, remaining0, [];
    var volume := if o.side.Buy? then if event.bid == o.price then event.sellsAtBid else 0.0
                  else if event.ask == o.price then event.buysAtAsk else 0.0;
    if volume <= 0.0 {
      return;
    }
    QueueStep(o, initialAhead, Volume(o, events[..k]), volume);
    var consumedAhead := MinReal(ahead, volume);
    ahead := ahead - consumedAhead;
    var quantity := MinReal(remaining, volume - consumedAhead);
    if quantity > 0.0 {
      fill := [RawFill(event.ts, quantity, o.price)];
      remaining := remaining - quantity;
    }
  }

  /** The queue loop over the events after the arrival event. The program tests each of them
      once more against the arrival time, which a strictly increasing tape always passes. */
  method FillThroughQueue(o: PassiveOrder, initialAhead: real, events: seq<TapeEvent>)
    returns (raw: seq<RawFill>, remaining: real)
    requires ValidOrder(o) && ValidTape(events) && Increasing(events) && initialAhead >= 0.0
    ensures raw == RawFills(o, initialAhead, events)
    ensures remaining == o.quantity - FilledOn(o, initialAhead, events)
  {
    var ahead := initialAhead;
    raw, remaining := [], o.quantity;
    for k := 0 to |events|
      invariant QueueAt(o, initialAhead, events, k, ahead, remaining)
      invariant raw == RawFills(o, initialAhead, events[..k])
    {
      assert ValidEvent(events[k]);
      if !BeforeCancel(o, events[k]) {
        NothingAfterCancel(o, events, k);
        NothingMoreFills(o, initialAhead, events, k);
        return;
      }
      var fill;
      ahead, remaining, fill := TakeEvent(o, events[k], ahead, remaining, initialAhead, events, k);
      raw := raw + fill;
      if remaining == 0.0 {
        NothingMoreFills(o, initialAhead, events, k + 1);
        return;
      }
    }
    assert events[..|events|] == events;
  }

  lemma NextPublished(tape: seq<TapeEvent>, o: PassiveOrder, raw: seq<RawFill>, i: nat)
    requires i < |raw|
    ensures var front, mark := Published(tape, o, raw[..i]), MarkOf(tape, o, raw[i].time);
            && Published(tape, o, raw[..i + 1]) == (if mark.None? then front else front + [Priced(o, raw[i], mark.value)])
            && (AllMarked(tape, o, raw[..i + 1]) <==> AllMarked(tape, o, raw[..i]) && mark.Some?)
  {
    TakeOneMore(raw, i);
    PublishedAppend(tape, o, raw[..i], raw[i]);
    AllMarkedAppend(tape, o, raw[..i], raw[i]);
  }

  lemma TakeOneMore<T>(s: seq<T>, i: nat)
    requires i < |s|
    ensures s[..i + 1] == s[..i] + [s[i]]
  {
  }

  lemma AllMarkedAppend(tape: seq<TapeEvent>, o: PassiveOrder, raw: seq<RawFill>, f: RawFill)
    ensures AllMarked(tape, o, raw + [f]) <==> AllMarked(tape, o, raw) && MarkOf(tape, o, f.time).Some?
  {
    assert forall k :: 0 <= k < |raw| ==> (raw + [f])[k] == raw[k];
    assert (raw + [f])[|raw|] == f;
  }

  method PublishFills(tape: seq<TapeEvent>, o: PassiveOrder, raw: seq<RawFill>)
    returns (fills: seq<ReplayFill>, complete: bool)
    ensures fills == Published(tape, o, raw) && complete == AllMarked(tape, o, raw)
  {
    fills, complete := [], true;
    for i := 0 to |raw|
      invariant fills == Published(tape, o, raw[..i])
      invariant complete == AllMarked(tape, o, raw[..i])
    {
      NextPublished(tape, o, raw, i);
      var mark := MarkOf(tape, o, raw[i].time);
      if mark.None? {
        complete := false;
        continue;
      }
      fills := fills + [Priced(o, raw[i], mark.value)];
    }
    assert raw[..|raw|] == raw;
  }

  method ReplayQuote(tape: seq<TapeEvent>, o: PassiveOrder, queue: Queue)
    returns (r: Result<ReplayResult, ReplayError>)
    requires ValidTape(tape) && ValidOrder(o)
    ensures r == Replayed(tape, o, queue)
  {
    if tape == [] {
      return Err(EmptyTape);
    }
    var increasing := CheckIncreasing(tape);
    if !increasing {
      return Err(TapeNotIncreasing);
    }
    var resting := RestsAt(tape, o);
    if resting.Err? {
      return Ok(ReplayResult(queue, resting.error, [], o.quantity, true));
    }
    var settled := ReplayResting(tape, o, queue, resting.value);
    return Ok(settled);
  }

  method ReplayResting(tape: seq<TapeEvent>, o: PassiveOrder, queue: Queue, arrival: nat) returns (r: ReplayResult)
    requires ValidTape(tape) && ValidOrder(o) && Increasing(tape) && arrival < |tape|
    ensures r == Settled(tape, o, queue, arrival)
  {
    assert ValidEvent(tape[arrival]);
    SuffixKeeps(tape, arrival + 1);
    var raw, remaining := FillThroughQueue(o, AheadAtArrival(o, tape[arrival], queue), tape[arrival + 1..]);
    var fills, complete := PublishFills(tape, o, raw);
    var status := if remaining == 0.0 then Filled else if CancelTime(o).Some? then Canceled else Resting;
    return ReplayResult(queue, status, fills, remaining, complete);
  }

  // ---------------------------------------------------------------- quantity and queue rank

  function RawTotal(raw: seq<RawFill>): real {
    if raw == [] then 0.0 else RawTotal(raw[..|raw| - 1]) + raw[|raw| - 1].quantity
  }

  lemma RawTotalAppend(raw: seq<RawFill>, f: RawFill)
    ensures RawTotal(raw + [f]) == RawTotal(raw) + f.quantity
  {
    assert (raw + [f])[..|raw|] == raw;
  }

  lemma FilledGrows(o: PassiveOrder, ahead: real, events: seq<TapeEvent>)
    requires events != [] && ValidTape(events) && o.quantity > 0.0
    ensures FilledOn(o, ahead, events[..|events| - 1]) <= FilledOn(o, ahead, events)
  {
    assert ValidEvent(events[|events| - 1]);
  }

  function Gain(o: PassiveOrder, time: int, gained: real): seq<RawFill> {
    if gained > 0.0 then [RawFill(time, gained, o.price)] else []
  }

  lemma GainAddsUp(o: PassiveOrder, raw: seq<RawFill>, time: int, gained: real)
    requires gained >= 0.0
    ensures RawTotal(raw + Gain(o, time, gained)) == RawTotal(raw) + gained
  {
    if gained > 0.0 {
      RawTotalAppend(raw, RawFill(time, gained, o.price));
    } else {
      assert raw + Gain(o, time, gained) == raw;
    }
  }

  lemma RawFillsLast(o: PassiveOrder, ahead: real, events: seq<TapeEvent>)
    requires events != []
    ensures var front, last := events[..|events| - 1], events[|events| - 1];
            RawFills(o, ahead, events)
            == RawFills(o, ahead, front) + Gain(o, last.ts, FilledOn(o, ahead, events) - FilledOn(o, ahead, front))
  {
  }

  /** The raw fills add up to min(Q, max(0, V - ahead)) exactly. */
  lemma {:induction false} RawFillsAddUp(o: PassiveOrder, ahead: real, events: seq<TapeEvent>)
    requires ValidTape(events) && o.quantity > 0.0 && ahead >= 0.0
    ensures RawTotal(RawFills(o, ahead, events)) == FilledOn(o, ahead, events)
  {
    if events != [] {
      var front, last := events[..|events| - 1], events[|events| - 1];
      RawFillsAddUp(o, ahead, front);
      FilledGrows(o, ahead, events);
      RawFillsLast(o, ahead, events);
      GainAddsUp(o, RawFills(o, ahead, front), last.ts, FilledOn(o, ahead, events) - FilledOn(o, ahead, front));
    }
  }

  lemma SuffixStaysValid(tape: seq<TapeEvent>, k: nat)
    requires ValidTape(tape) && k <= |tape|
    ensures ValidTape(tape[k..])
  {
    assert forall i :: 0 <= i < |tape[k..]| ==> tape[k..][i] == tape[k + i];
  }

  /** The two queue ranks bracket the truth: the back of the queue never fills more than the
      front, and never trails it by more than the depth that was ahead at arrival. */
  lemma QueueRankBounds(tape: seq<TapeEvent>, o: PassiveOrder)
    requires tape != [] && Increasing(tape) && ValidTape(tape) && ValidOrder(o)
    ensures var front, back := Replayed(tape, o, Front).value, Replayed(tape, o, Back).value;
            && front.unfilled <= back.unfilled
            && (RestsAt(tape, o).Err? ==> front.unfilled == back.unfilled == o.quantity)
            && (RestsAt(tape, o).Ok? ==>
                  back.unfilled <= front.unfilled + AheadAtArrival(o, tape[RestsAt(tape, o).value], Back))
  {
    if RestsAt(tape, o).Ok? {
      var arrival := RestsAt(tape, o).value;
      assert ValidEvent(tape[arrival]);
      RankArithmetic(o, Volume(o, tape[arrival + 1..]), AheadAtArrival(o, tape[arrival], Back));
    }
  }

  lemma RankArithmetic(o: PassiveOrder, volume: real, depth: real)
    requires depth >= 0.0 && o.quantity > 0.0
    ensures 0.0 <= FilledBy(o, 0.0, volume) - FilledBy(o, depth, volume) <= depth
  {
  }

  // ---------------------------------------------------------------- when fills happen

  /** Every fill is strictly after arrival and before the cancel takes effect, at the quote's
      own price, for a positive quantity, at strictly increasing times. */
  lemma {:induction false} RawFillFacts(o: PassiveOrder, ahead: real, events: seq<TapeEvent>, i: nat)
    requires ValidTape(events) && Increasing(events) && i < |RawFills(o, ahead, events)|
    ensures var raw := RawFills(o, ahead, events);
            && raw[i].quantity > 0.0 && raw[i].price == o.price
            && (CancelTime(o).Some? ==> raw[i].time < CancelTime(o).value)
            && (exists k :: 0 <= k < |events| && events[k].ts == raw[i].time)
            && (i > 0 ==> raw[i - 1].time < raw[i].time)
  {
    var n := |events| - 1;
    var front, last := events[..n], events[n];
    var before := RawFills(o, ahead, front);
    if i < |before| {
      RawFillFacts(o, ahead, front, i);
      var k :| 0 <= k < n && front[k].ts == before[i].time;
      assert events[k].ts == before[i].time;
    } else {
      assert events[n].ts == RawFills(o, ahead, events)[i].time;
      if i > 0 {
        RawFillFacts(o, ahead, front, i - 1);
        var k :| 0 <= k < n && front[k].ts == before[i - 1].time;
        assert events[k].ts < last.ts;
      }
    }
  }

  lemma FillsAreWithinTheQuotesLife(tape: seq<TapeEvent>, o: PassiveOrder, queue: Queue, i: nat)
    requires ValidTape(tape) && Increasing(tape) && i < |RawOf(tape, o, queue)|
    ensures var raw := RawOf(tape, o, queue);
            && ArrivalTime(o) < raw[i].time
            && (CancelTime(o).Some? ==> raw[i].time < CancelTime(o).value)
            && raw[i].quantity > 0.0 && raw[i].price == o.price
  {
    var arrival := RestsAt(tape, o).value;
    var events := tape[arrival + 1..];
    SuffixKeeps(tape, arrival + 1);
    RawFillFacts(o, AheadAtArrival(o, tape[arrival], queue), events, i);
    var raw := RawOf(tape, o, queue);
    var k :| 0 <= k < |events| && events[k].ts == raw[i].time;
    assert tape[arrival + 1 + k].ts > tape[arrival].ts;
  }

  // ---------------------------------------------------------------- causality

  /** The tape as it was known at time `t`. */
  function KnownAt(tape: seq<TapeEvent>, t: int): seq<TapeEvent> {
    var later := FirstFrom(tape, t + 1);
    if later.None? then tape else tape[..later.value]
  }

  function RawUpTo(raw: seq<RawFill>, t: int): seq<RawFill> {
    if raw == [] then []
    else if raw[|raw| - 1].time <= t then RawUpTo(raw[..|raw| - 1], t) + [raw[|raw| - 1]]
    else RawUpTo(raw[..|raw| - 1], t)
  }

  lemma RawUpToGain(o: PassiveOrder, raw: seq<RawFill>, time: int, gained: real, t: int)
    ensures RawUpTo(raw + Gain(o, time, gained), t)
         == if time <= t then RawUpTo(raw, t) + Gain(o, time, gained) else RawUpTo(raw, t)
  {
    var more := Gain(o, time, gained);
    if gained > 0.0 {
      assert (raw + more)[..|raw|] == raw;
    } else {
      assert raw + more == raw;
    }
  }

  /** One more event: known by `t`, its fill is kept; later, it is not. */
  lemma RawUpToLast(o: PassiveOrder, ahead: real, events: seq<TapeEvent>, t: int)
    requires events != []
    ensures var front, last := events[..|events| - 1], events[|events| - 1];
            && (last.ts > t ==> RawUpTo(RawFills(o, ahead, events), t) == RawUpTo(RawFills(o, ahead, front), t))
            && (last.ts <= t && RawUpTo(RawFills(o, ahead, front), t) == RawFills(o, ahead, front) ==>
                  RawUpTo(RawFills(o, ahead, events), t) == RawFills(o, ahead, events))
  {
    var front, last := events[..|events| - 1], events[|events| - 1];
    RawFillsLast(o, ahead, events);
    RawUpToGain(o, RawFills(o, ahead, front), last.ts, FilledOn(o, ahead, events) - FilledOn(o, ahead, front), t);
  }

  /** Raw fills up to `t` are those of the events up to `t`. */
  lemma {:induction false} RawFillsAreCausal(o: PassiveOrder, ahead: real, events: seq<TapeEvent>, c: nat, t: int)
    requires c <= |events|
    requires forall i :: 0 <= i < |events| ==> (events[i].ts <= t <==> i < c)
    ensures RawUpTo(RawFills(o, ahead, events), t) == RawFills(o, ahead, events[..c])
  {
    if events != [] {
      var n := |events| - 1;
      var front := events[..n];
      RawFillsAreCausal(o, ahead, front, if c <= n then c else n, t);
      RawUpToLast(o, ahead, events, t);
      if c <= n {
        assert front[..c] == events[..c];
      } else {
        assert front[..n] == front && events[..c] == events;
      }
    }
  }

  lemma KnownAtSplits(tape: seq<TapeEvent>, t: int)
    requires Increasing(tape)
    ensures var known := KnownAt(tape, t);
            && known <= tape && Increasing(known)
            && forall i :: 0 <= i < |tape| ==> (tape[i].ts <= t <==> i < |known|)
  {
  }

  lemma {:induction false} FirstFromPrefix(tape: seq<TapeEvent>, m: nat, time: int)
    requires m <= |tape|
    ensures var whole := FirstFrom(tape, time);
            FirstFrom(tape[..m], time) == if whole.Some? && whole.value < m then whole else None
  {
    if m < |tape| {
      assert tape[..|tape| - 1][..m] == tape[..m];
      FirstFromPrefix(tape[..|tape| - 1], m, time);
    } else {
      assert tape[..m] == tape;
    }
  }

  /** What the replay knows by `t` about its own fills depends only on the tape up to `t`. */
  lemma RawFillsDependOnThePast(tape: seq<TapeEvent>, o: PassiveOrder, queue: Queue, t: int)
    requires ValidTape(tape) && Increasing(tape)
    ensures RawUpTo(RawOf(tape, o, queue), t) == RawOf(KnownAt(tape, t), o, queue)
  {
    KnownAtSplits(tape, t);
    assert KnownAt(tape, t) == tape[..|KnownAt(tape, t)|];
    RestsAtPrefix(tape, o, |KnownAt(tape, t)|);
    if RestsAt(tape, o).Ok? {
      RestingFillsDependOnThePast(tape, o, queue, t, RestsAt(tape, o).value);
    }
  }

  lemma RestsAtPrefix(tape: seq<TapeEvent>, o: PassiveOrder, m: nat)
    requires m <= |tape|
    ensures var whole, part := RestsAt(tape, o), RestsAt(tape[..m], o);
            && (whole.Ok? && whole.value < m ==> part == whole)
            && (whole.Err? || whole.value >= m ==> part.Err?)
  {
    FirstFromPrefix(tape, m, ArrivalTime(o));
  }

  lemma RestingFillsDependOnThePast(tape: seq<TapeEvent>, o: PassiveOrder, queue: Queue, t: int, a: nat)
    requires Increasing(tape) && a < |tape|
    ensures var known := KnownAt(tape, t);
            RawUpTo(RawFrom(tape, o, queue, a), t) == if a < |known| then RawFrom(known, o, queue, a) else []
  {
    KnownAtSplits(tape, t);
    var known, events := KnownAt(tape, t), tape[a + 1..];
    var c := if a < |known| then |known| - a - 1 else 0;
    RawFillsAreCausal(o, AheadAtArrival(o, tape[a], queue), events, c, t);
    if a < |known| {
      assert known == tape[..|known|];
      SuffixOfPrefix(tape, |known|, a);
    } else {
      assert events[..c] == [];
    }
  }

  lemma SuffixOfPrefix<T>(s: seq<T>, m: nat, a: nat)
    requires a < m <= |s|
    ensures s[..m][a] == s[a] && s[..m][a + 1..] == s[a + 1..][..m - a - 1]
  {
  }

  function FillsUpTo(fills: seq<ReplayFill>, t: int): seq<ReplayFill> {
    if fills == [] then []
    else if fills[|fills| - 1].time <= t then FillsUpTo(fills[..|fills| - 1], t) + [fills[|fills| - 1]]
    else FillsUpTo(fills[..|fills| - 1], t)
  }

  lemma {:induction false} PublishedUpTo(tape: seq<TapeEvent>, o: PassiveOrder, raw: seq<RawFill>, t: int)
    ensures FillsUpTo(Published(tape, o, raw), t) == Published(tape, o, RawUpTo(raw, t))
  {
    if raw != [] {
      var front, last := raw[..|raw| - 1], raw[|raw| - 1];
      PublishedUpTo(tape, o, front, t);
      PublishedAppend(tape, o, front, last);
      PublishedAppend(tape, o, RawUpTo(front, t), last);
      assert front + [last] == raw;
      var mark := MarkOf(tape, o, last.time);
      if mark.Some? {
        FillsUpToAppend(Published(tape, o, front), Priced(o, last, mark.value), t);
      }
    }
  }

  lemma PublishedAppend(tape: seq<TapeEvent>, o: PassiveOrder, raw: seq<RawFill>, f: RawFill)
    ensures var mark := MarkOf(tape, o, f.time);
            Published(tape, o, raw + [f])
            == if mark.None? then Published(tape, o, raw) else Published(tape, o, raw) + [Priced(o, f, mark.value)]
  {
    assert (raw + [f])[..|raw|] == raw;
  }

  lemma FillsUpToAppend(fills: seq<ReplayFill>, f: ReplayFill, t: int)
    ensures FillsUpTo(fills + [f], t) == if f.time <= t then FillsUpTo(fills, t) + [f] else FillsUpTo(fills, t)
  {
    assert (fills + [f])[..|fills|] == fills;
  }

  /** A mark known by `t` never changes. */
  lemma MarksPersist(tape: seq<TapeEvent>, o: PassiveOrder, t: int, ts: int)
    requires Increasing(tape) && MarkOf(KnownAt(tape, t), o, ts).Some?
    ensures MarkOf(tape, o, ts) == MarkOf(KnownAt(tape, t), o, ts)
  {
    KnownAtSplits(tape, t);
    var m := |KnownAt(tape, t)|;
    assert tape[..m] == KnownAt(tape, t);
    FirstFromPrefix(tape, m, Horizon(o, ts));
  }

  /** The last event of the tape is not before `time`. */
  predicate Reaches(tape: seq<TapeEvent>, time: int) {
    tape != [] && time <= tape[|tape| - 1].ts
  }

  lemma MarkedIffReached(tape: seq<TapeEvent>, o: PassiveOrder, ts: int)
    requires Increasing(tape)
    ensures MarkOf(tape, o, ts).Some? <==> Reaches(tape, Horizon(o, ts))
  {
    var n := |tape| - 1;
    if tape != [] && FirstFrom(tape, Horizon(o, ts)).Some? {
      var i := FirstFrom(tape, Horizon(o, ts)).value;
      assert i < n ==> tape[i].ts < tape[n].ts;
    }
  }

  /** No fill's horizon lies after the last event known at `t` and within the whole tape. */
  ghost predicate MarksKnownAt(tape: seq<TapeEvent>, o: PassiveOrder, raw: seq<RawFill>, t: int) {
    forall i :: 0 <= i < |raw| && Reaches(tape, Horizon(o, raw[i].time)) ==>
      Reaches(KnownAt(tape, t), Horizon(o, raw[i].time))
  }

  lemma {:induction false} PublishedAgreesIff(tape: seq<TapeEvent>, o: PassiveOrder, raw: seq<RawFill>, t: int)
    requires Increasing(tape)
    ensures |Published(KnownAt(tape, t), o, raw)| <= |Published(tape, o, raw)|
    ensures |Published(KnownAt(tape, t), o, raw)| == |Published(tape, o, raw)| <==> MarksKnownAt(tape, o, raw, t)
    ensures MarksKnownAt(tape, o, raw, t) ==> Published(KnownAt(tape, t), o, raw) == Published(tape, o, raw)
  {
    if raw != [] {
      var n := |raw| - 1;
      var front, last := raw[..n], raw[n];
      PublishedAgreesIff(tape, o, front, t);
      MarksKnownStep(tape, o, raw, t);
      PublishedAppend(tape, o, front, last);
      PublishedAppend(KnownAt(tape, t), o, front, last);
      assert front + [last] == raw;
      if MarkOf(KnownAt(tape, t), o, last.time).Some? {
        MarksPersist(tape, o, t, last.time);
      }
    }
  }

  lemma MarksKnownStep(tape: seq<TapeEvent>, o: PassiveOrder, raw: seq<RawFill>, t: int)
    requires raw != [] && Increasing(tape)
    ensures var front, last := raw[..|raw| - 1], raw[|raw| - 1];
            MarksKnownAt(tape, o, raw, t)
            <==> MarksKnownAt(tape, o, front, t)
                 && (MarkOf(tape, o, last.time).Some? ==> MarkOf(KnownAt(tape, t), o, last.time).Some?)
  {
    var front := raw[..|raw| - 1];
    KnownAtSplits(tape, t);
    MarkedIffReached(tape, o, raw[|raw| - 1].time);
    MarkedIffReached(KnownAt(tape, t), o, raw[|raw| - 1].time);
    assert forall i :: 0 <= i < |front| ==> front[i] == raw[i];
  }

  function PublishedOf(tape: seq<TapeEvent>, o: PassiveOrder, queue: Queue): seq<ReplayFill> {
    Published(tape, o, RawOf(tape, o, queue))
  }

  /** The published list is not causal: up to `t` it agrees with what was published at `t`
      exactly when no fill known at `t` has its horizon after the last event known then and
      not after the last event of the tape. */
  lemma PublishedFillsAreCausalIff(tape: seq<TapeEvent>, o: PassiveOrder, queue: Queue, t: int)
    requires ValidTape(tape) && Increasing(tape)
    ensures FillsUpTo(PublishedOf(tape, o, queue), t) == PublishedOf(KnownAt(tape, t), o, queue)
       <==> MarksKnownAt(tape, o, RawOf(KnownAt(tape, t), o, queue), t)
  {
    RawFillsDependOnThePast(tape, o, queue, t);
    PublishedUpTo(tape, o, RawOf(tape, o, queue), t);
    PublishedAgreesIff(tape, o, RawOf(KnownAt(tape, t), o, queue), t);
  }

  /** Where the tape reaches the horizon of the last fill known at `t`, that fill decides. */
  lemma LastFillDecides(tape: seq<TapeEvent>, o: PassiveOrder, queue: Queue, t: int)
    requires ValidTape(tape) && Increasing(tape)
    requires var raw := RawOf(KnownAt(tape, t), o, queue);
             raw != [] && Reaches(tape, Horizon(o, raw[|raw| - 1].time))
    ensures var known := KnownAt(tape, t);
            var raw := RawOf(known, o, queue);
            && (FillsUpTo(PublishedOf(tape, o, queue), t) == PublishedOf(known, o, queue)
                <==> Reaches(known, Horizon(o, raw[|raw| - 1].time)))
  {
    PublishedFillsAreCausalIff(tape, o, queue, t);
    KnownAtSplits(tape, t);
    LastRawFillIsLatest(KnownAt(tape, t), o, queue);
    LatestDecides(tape, o, RawOf(KnownAt(tape, t), o, queue), t);
  }

  ghost predicate LastIsLatest(raw: seq<RawFill>) {
    forall i :: 0 <= i < |raw| ==> raw[i].time <= raw[|raw| - 1].time
  }

  lemma LatestDecides(tape: seq<TapeEvent>, o: PassiveOrder, raw: seq<RawFill>, t: int)
    requires raw != [] && LastIsLatest(raw)
    requires Reaches(tape, Horizon(o, raw[|raw| - 1].time))
    ensures MarksKnownAt(tape, o, raw, t) <==> Reaches(KnownAt(tape, t), Horizon(o, raw[|raw| - 1].time))
  {
    var known := KnownAt(tape, t);
    assert forall i :: 0 <= i < |raw| ==> Horizon(o, raw[i].time) <= Horizon(o, raw[|raw| - 1].time);
  }

  lemma LastRawFillIsLatest(tape: seq<TapeEvent>, o: PassiveOrder, queue: Queue)
    requires ValidTape(tape) && Increasing(tape) && RawOf(tape, o, queue) != []
    ensures LastIsLatest(RawOf(tape, o, queue))
  {
    var arrival := RestsAt(tape, o).value;
    var ahead, events := AheadAtArrival(o, tape[arrival], queue), tape[arrival + 1..];
    SuffixKeeps(tape, arrival + 1);
    assert RawOf(tape, o, queue) == RawFills(o, ahead, events);
    FillTimesIncrease(o, ahead, events);
  }

  lemma FillTimesIncrease(o: PassiveOrder, ahead: real, events: seq<TapeEvent>)
    requires ValidTape(events) && Increasing(events)
    ensures LastIsLatest(RawFills(o, ahead, events))
  {
    var raw := RawFills(o, ahead, events);
    for j := 0 to |raw|
      invariant forall i :: 0 <= i < j ==> raw[i].time <= raw[j - 1].time
    {
      RawFillFacts(o, ahead, events, j);
    }
  }

  /** So the published fills up to a time can change with later events: a quote filled by the
      last known trade is unpublished until a later event marks it. */
  lemma PublishedFillsLookAhead(quiet: TapeEvent, trade: TapeEvent, later: TapeEvent, o: PassiveOrder)
    requires ValidEvent(quiet) && ValidEvent(trade) && ValidEvent(later) && ValidOrder(o)
    requires quiet.ts < trade.ts < later.ts && ArrivalTime(o) <= quiet.ts && trade.ts + o.markout <= later.ts
    requires AtTouch(o, quiet) && !Crosses(o, quiet) && Opposing(o, trade) == o.quantity
    ensures var tape := [quiet, trade, later];
            FillsUpTo(PublishedOf(tape, o, Front), trade.ts) != PublishedOf(KnownAt(tape, trade.ts), o, Front)
  {
    var tape := [quiet, trade, later];
    var known := KnownAt(tape, trade.ts);
    assert known == [quiet, trade] by { KnownAtSplits(tape, trade.ts); }
    var raw := RawOf(known, o, Front);
    assert raw == [RawFill(trade.ts, o.quantity, o.price)] by {
      RestsAtFirst(known, o);
      assert known[1..] == [trade];
      OneTrade(o, trade);
    }
    assert !MarksKnownAt(tape, o, raw, trade.ts) by {
      assert raw[0].time == trade.ts;
      assert Reaches(tape, Horizon(o, trade.ts)) && !Reaches(known, Horizon(o, trade.ts));
    }
    PublishedFillsAreCausalIff(tape, o, Front, trade.ts);
  }

  lemma RestsAtFirst(tape: seq<TapeEvent>, o: PassiveOrder)
    requires tape != [] && tape[0].ts >= ArrivalTime(o) && AtTouch(o, tape[0]) && !Crosses(o, tape[0])
    ensures RestsAt(tape, o) == Ok(0)
  {
  }

  lemma OneTrade(o: PassiveOrder, e: TapeEvent)
    requires ValidOrder(o) && Opposing(o, e) == o.quantity
    ensures RawFills(o, 0.0, [e]) == [RawFill(e.ts, o.quantity, o.price)]
  {
    assert [e][..0] == [];
    assert Volume(o, [e]) == o.quantity;
  }

  // ---------------------------------------------------------------- what a result says

  /** What an event trades with the quote: sells at its price for a bid, buys at its price for
      an ask, before the cancel reaches the venue. */
  function TradeWith(o: PassiveOrder, e: TapeEvent): real {
    if o.cancelRequested.Some? && o.cancelRequested.value + o.cancelLatency <= e.ts then 0.0
    else if o.side.Buy? && e.bid == o.price then e.sellsAtBid
    else if o.side.Sell? && e.ask == o.price then e.buysAtAsk
    else 0.0
  }

  /** What the events after a time trade with the quote. */
  function TradesWith(o: PassiveOrder, tape: seq<TapeEvent>, since: int): real {
    if tape == [] then 0.0
    else
      var last := tape[|tape| - 1];
      TradesWith(o, tape[..|tape| - 1], since) + if last.ts <= since then 0.0 else TradeWith(o, last)
  }

  /** The first event seen once the quote can have arrived. */
  predicate FirstSeen(tape: seq<TapeEvent>, o: PassiveOrder, k: nat) {
    && k < |tape| && tape[k].ts >= o.inferenceReady + o.outboundLatency
    && forall j :: 0 <= j < k ==> tape[j].ts < o.inferenceReady + o.outboundLatency
  }

  /** Displayed on the quote's side when it arrives. */
  function Displayed(o: PassiveOrder, e: TapeEvent): real {
    match o.side
    case Buy => e.bidSize
    case Sell => e.askSize
  }

  /** What is filled of a quote that arrived with event `k`: what trades with it, after what was
      displayed before it at the back of the queue. */
  function FilledSince(tape: seq<TapeEvent>, o: PassiveOrder, queue: Queue, e: TapeEvent): real {
    var traded := TradesWith(o, tape, e.ts);
    match queue
    case Front => MinReal(o.quantity, traded)
    case Back => MinReal(o.quantity, MaxReal(0.0, traded - Displayed(o, e)))
  }

  lemma {:induction false} NoTradesBefore(o: PassiveOrder, tape: seq<TapeEvent>, since: int)
    requires forall i :: 0 <= i < |tape| ==> tape[i].ts <= since
    ensures TradesWith(o, tape, since) == 0.0
  {
    if tape != [] {
      NoTradesBefore(o, tape[..|tape| - 1], since);
    }
  }

  lemma {:induction false} VolumeIsTradesWith(o: PassiveOrder, tape: seq<TapeEvent>, k: nat)
    requires k < |tape| && Increasing(tape)
    ensures Volume(o, tape[k + 1..]) == TradesWith(o, tape, tape[k].ts)
    decreases |tape|
  {
    var n := |tape| - 1;
    if k == n {
      NoTradesBefore(o, tape, tape[k].ts);
    } else {
      assert tape[k + 1..][..n - k - 1] == tape[..n][k + 1..];
      VolumeIsTradesWith(o, tape[..n], k);
      assert Opposing(o, tape[n]) == TradeWith(o, tape[n]);
    }
  }

  lemma {:induction false} VolumeIsNotNegative(o: PassiveOrder, events: seq<TapeEvent>)
    requires ValidTape(events)
    ensures Volume(o, events) >= 0.0
  {
    if events != [] {
      VolumeIsNotNegative(o, events[..|events| - 1]);
      assert ValidEvent(events[|events| - 1]);
    }
  }

  lemma FilledAsTraded(tape: seq<TapeEvent>, o: PassiveOrder, queue: Queue, k: nat)
    requires ValidTape(tape) && Increasing(tape) && ValidOrder(o) && k < |tape|
    ensures FilledOn(o, AheadAtArrival(o, tape[k], queue), tape[k + 1..]) == FilledSince(tape, o, queue, tape[k])
  {
    VolumeIsTradesWith(o, tape, k);
    SuffixStaysValid(tape, k + 1);
    VolumeIsNotNegative(o, tape[k + 1..]);
  }

  lemma FillsOfRestingQuote(tape: seq<TapeEvent>, o: PassiveOrder, queue: Queue, k: nat)
    requires ValidTape(tape) && Increasing(tape) && ValidOrder(o) && RestsAt(tape, o) == Ok(k)
    ensures RawTotal(RawOf(tape, o, queue)) == FilledSince(tape, o, queue, tape[k])
  {
    SuffixStaysValid(tape, k + 1);
    assert ValidEvent(tape[k]);
    RawFillsAddUp(o, AheadAtArrival(o, tape[k], queue), tape[k + 1..]);
    FilledAsTraded(tape, o, queue, k);
  }

  /** The fills up to any time after arrival add up to what had traded with the quote by then,
      less what was displayed before it at the back of the queue. */
  lemma FillsBehindTheQueue(tape: seq<TapeEvent>, o: PassiveOrder, queue: Queue, k: nat, t: int)
    requires ValidTape(tape) && Increasing(tape) && ValidOrder(o)
    requires RestsAt(tape, o) == Ok(k) && tape[k].ts <= t
    ensures RawTotal(RawUpTo(RawOf(tape, o, queue), t)) == FilledSince(KnownAt(tape, t), o, queue, tape[k])
  {
    var known := KnownAt(tape, t);
    KnownAtSplits(tape, t);
    RawFillsDependOnThePast(tape, o, queue, t);
    RestsAtPrefix(tape, o, |known|);
    assert known[k] == tape[k];
    FillsOfRestingQuote(known, o, queue, k);
  }

  lemma FirstSeenIsFirst(tape: seq<TapeEvent>, o: PassiveOrder)
    ensures var first := FirstFrom(tape, ArrivalTime(o));
            if first.None? then forall k: nat :: !FirstSeen(tape, o, k)
            else forall k: nat :: FirstSeen(tape, o, k) <==> k == first.value
  {
  }

  predicate Rests(status: Status) {
    status.Filled? || status.Canceled? || status.Resting?
  }

  /** Without an event to arrive at, through the other side or off the touch the quote does not
      rest and nothing fills; at its own touch it does. */
  lemma QuoteRestsAtTheTouch(tape: seq<TapeEvent>, o: PassiveOrder, queue: Queue)
    requires tape != [] && ValidTape(tape) && Increasing(tape)
    ensures var r := Replayed(tape, o, queue).value;
            && (r.status.UnobservedArrival? <==> forall k: nat :: !FirstSeen(tape, o, k))
            && (forall k: nat :: FirstSeen(tape, o, k) ==>
                  && (r.status.PostOnlyRejected? <==>
                        if o.side.Buy? then o.price >= tape[k].ask else o.price <= tape[k].bid)
                  && (Rests(r.status) <==> o.price == if o.side.Buy? then tape[k].bid else tape[k].ask)
                  && (Rests(r.status) <==> RestsAt(tape, o) == Ok(k)))
            && (!Rests(r.status) ==> r.fills == [] && r.unfilled == o.quantity && r.markoutComplete)
  {
    FirstSeenIsFirst(tape, o);
    var first := FirstFrom(tape, ArrivalTime(o));
    if first.Some? {
      assert FirstSeen(tape, o, first.value);
      ArrivalDecides(tape, o, queue, first.value);
    }
  }

  lemma ArrivalDecides(tape: seq<TapeEvent>, o: PassiveOrder, queue: Queue, k: nat)
    requires tape != [] && ValidTape(tape) && Increasing(tape) && FirstFrom(tape, ArrivalTime(o)) == Some(k)
    ensures var status := Replayed(tape, o, queue).value.status;
            && !status.UnobservedArrival?
            && (status.PostOnlyRejected? <==> if o.side.Buy? then o.price >= tape[k].ask else o.price <= tape[k].bid)
            && (Rests(status) <==> o.price == if o.side.Buy? then tape[k].bid else tape[k].ask)
            && (Rests(status) <==> RestsAt(tape, o) == Ok(k))
  {
    assert ValidEvent(tape[k]);
  }

  /** A resting quote is left with what did not fill; it counts as filled when nothing is left,
      and otherwise as canceled exactly when a cancel was requested. */
  lemma RestingQuoteOutcome(tape: seq<TapeEvent>, o: PassiveOrder, queue: Queue, k: nat)
    requires ValidTape(tape) && Increasing(tape) && ValidOrder(o) && RestsAt(tape, o) == Ok(k)
    ensures var r := Replayed(tape, o, queue).value;
            && r.queue == queue
            && r.unfilled == o.quantity - FilledSince(tape, o, queue, tape[k]) >= 0.0
            && (r.status.Filled? <==> r.unfilled == 0.0)
            && (r.status.Canceled? <==> r.unfilled > 0.0 && o.cancelRequested.Some?)
            && (r.status.Resting? <==> r.unfilled > 0.0 && o.cancelRequested.None?)
  {
    FilledAsTraded(tape, o, queue, k);
  }

  // ---------------------------------------------------------------- what a published fill says

  /** Event `k` is the first one after the fill that is at least the markout away. */
  predicate Marks(tape: seq<TapeEvent>, o: PassiveOrder, time: int, k: nat) {
    && k < |tape| && tape[k].ts > time && tape[k].ts >= time + o.markout
    && forall j :: 0 <= j < k ==> !(tape[j].ts > time && tape[j].ts >= time + o.markout)
  }

  /** Its fee is the fee rate of its value, and its markout the gain of the position it opened
      at the mid of the event that marks it. */
  ghost predicate PricedBy(tape: seq<TapeEvent>, o: PassiveOrder, f: ReplayFill, k: nat) {
    && Marks(tape, o, f.time, k)
    && f.fee * 10000.0 == f.price * f.quantity * o.makerFeeBps
    && var position := if o.side.Buy? then f.quantity else -f.quantity;
       f.markout == position * ((tape[k].bid + tape[k].ask) / 2.0) - position * f.price
  }

  lemma PricedAsMarked(tape: seq<TapeEvent>, o: PassiveOrder, raw: RawFill)
    requires o.markout >= 0 && MarkOf(tape, o, raw.time).Some?
    ensures exists k: nat :: PricedBy(tape, o, Priced(o, raw, MarkOf(tape, o, raw.time).value), k)
  {
    var k := FirstFrom(tape, Horizon(o, raw.time)).value;
    var f, mid := Priced(o, raw, Mid(tape[k])), (tape[k].bid + tape[k].ask) / 2.0;
    Distribute(mid, raw.price, raw.quantity);
    Distribute(raw.price, mid, raw.quantity);
    assert Marks(tape, o, f.time, k);
    assert PricedBy(tape, o, f, k);
  }

  lemma Distribute(a: real, b: real, q: real)
    ensures (a - b) * q == q * a - q * b && (a - b) * q == -q * b - -q * a
  {
  }

  ghost predicate IsPriced(tape: seq<TapeEvent>, o: PassiveOrder, raw: seq<RawFill>, f: ReplayFill) {
    RawFill(f.time, f.quantity, f.price) in raw && exists k: nat :: PricedBy(tape, o, f, k)
  }

  /** Every published fill is a raw fill, priced by the event that marks it. */
  lemma {:induction false} PublishedFillsArePriced(tape: seq<TapeEvent>, o: PassiveOrder, raw: seq<RawFill>, i: nat)
    requires o.markout >= 0 && i < |Published(tape, o, raw)|
    ensures IsPriced(tape, o, raw, Published(tape, o, raw)[i])
  {
    var n := |raw| - 1;
    var front, f := Published(tape, o, raw[..n]), Published(tape, o, raw)[i];
    if i < |front| {
      PublishedFillsArePriced(tape, o, raw[..n], i);
      assert f == front[i];
      assert forall r :: r in raw[..n] ==> r in raw;
    } else {
      PricedAsMarked(tape, o, raw[n]);
      assert f == Priced(o, raw[n], MarkOf(tape, o, raw[n].time).value);
      assert raw[n] in raw && raw[n] == RawFill(f.time, f.quantity, f.price);
    }
  }

  // ---------------------------------------------------------------- completeness of marks

  function PublishedTotal(fills: seq<ReplayFill>): real {
    if fills == [] then 0.0 else PublishedTotal(fills[..|fills| - 1]) + fills[|fills| - 1].quantity
  }

  lemma {:induction false} PublishedTotals(tape: seq<TapeEvent>, o: PassiveOrder, raw: seq<RawFill>)
    requires forall i :: 0 <= i < |raw| ==> raw[i].quantity > 0.0
    ensures PublishedTotal(Published(tape, o, raw)) <= RawTotal(raw)
    ensures PublishedTotal(Published(tape, o, raw)) == RawTotal(raw) <==> AllMarked(tape, o, raw)
  {
    if raw != [] {
      var n := |raw| - 1;
      PublishedTotals(tape, o, raw[..n]);
      NextPublished(tape, o, raw, n);
      assert raw[..n + 1] == raw;
      var front, mark := Published(tape, o, raw[..n]), MarkOf(tape, o, raw[n].time);
      if mark.Some? {
        assert (front + [Priced(o, raw[n], mark.value)])[..|front|] == front;
      }
    }
  }

  /** The published fills account for the whole filled quantity exactly when the result says
      its marks are complete. */
  lemma CompleteMeansAllPublished(tape: seq<TapeEvent>, o: PassiveOrder, queue: Queue)
    requires tape != [] && ValidTape(tape) && Increasing(tape) && ValidOrder(o)
    ensures var r := Replayed(tape, o, queue).value;
            && PublishedTotal(r.fills) <= o.quantity - r.unfilled
            && (PublishedTotal(r.fills) == o.quantity - r.unfilled <==> r.markoutComplete)
  {
    if RestsAt(tape, o).Ok? {
      SettledTotals(tape, o, queue, RestsAt(tape, o).value);
    }
  }

  lemma SettledTotals(tape: seq<TapeEvent>, o: PassiveOrder, queue: Queue, arrival: nat)
    requires arrival < |tape| && ValidTape(tape) && Increasing(tape) && ValidOrder(o)
    ensures var r := Settled(tape, o, queue, arrival);
            && PublishedTotal(r.fills) <= o.quantity - r.unfilled
            && (PublishedTotal(r.fills) == o.quantity - r.unfilled <==> r.markoutComplete)
  {
    var ahead, events := AheadAtArrival(o, tape[arrival], queue), tape[arrival + 1..];
    SuffixKeeps(tape, arrival + 1);
    assert ValidEvent(tape[arrival]);
    RawFillsArePositive(o, ahead, events);
    RawFillsAddUp(o, ahead, events);
    PublishedTotals(tape, o, RawFills(o, ahead, events));
  }

  lemma RawFillsArePositive(o: PassiveOrder, ahead: real, events: seq<TapeEvent>)
    requires ValidTape(events) && Increasing(events)
    ensures forall i :: 0 <= i < |RawFills(o, ahead, events)| ==> RawFills(o, ahead, events)[i].quantity > 0.0
  {
    forall i | 0 <= i < |RawFills(o, ahead, events)|
      ensures RawFills(o, ahead, events)[i].quantity > 0.0
    {
      RawFillFacts(o, ahead, events, i);
    }
  }
}
