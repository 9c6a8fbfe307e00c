/** The in-process shadow venue: a book of orders, one signed position per asset, and the
    software guard for reduce-only orders. One submit or cancel is one atomic step. */
module ShadowVenue {
  import opened Common
  import opened Execution

  datatype Position = Position(net: real, average: Option<real>, filledEntries: u32)

  const FLAT := Position(0.0, None, 0)

  datatype Book = Book(orders: seq<VenueOrderSnapshot>, positions: map<string, Position>, nextOrderId: u64)

  const EMPTY := Book([], map[], 0)

  datatype Config = Config(venue: Venue, fillsImmediately: bool)

  datatype Intent = Intent(
    clientOrderId: string, venue: Venue, asset: string, side: Side, quantity: real, effect: Effect,
    limitPrice: Option<real>)

  datatype Ack = Ack(venueOrderId: string, clientOrderId: string)

  datatype Refusal =
    | WrongVenue
    | NonPositiveQuantity
    | PositionIsFlat
    | WouldIncreaseExposure
    | WouldCrossThroughFlat
    | UnknownOrder
    | AlreadyTerminal

  // ---------------------------------------------------------------- positions

  function SignOf(value: real): int {
    if value > 0.0 then 1 else if value < 0.0 then -1 else 0
  }

  function PositionOf(positions: map<string, Position>, asset: string): Position {
    if asset in positions then positions[asset] else FLAT
  }

  /** The average entry price after a fill; a zero price is no price. */
  function AverageAfter(position: Position, delta: real, price: real): Option<real> {
    var previous, resulting := position.net, position.net + delta;
    if resulting == 0.0 then None
    else if previous == 0.0 then if price != 0.0 then Some(price) else position.average
    else if price != 0.0 && SignOf(previous) == SignOf(delta) then
      var entry := if position.average.Some? then position.average.value else price;
      Some(WeightedPrice(entry, Abs(previous), price, Abs(delta), Abs(resulting)))
    else if SignOf(previous) != SignOf(resulting) then if price != 0.0 then Some(price) else None
    else position.average
  }

  function AfterFill(position: Position, side: Side, quantity: real, price: real): Position {
    var delta := Signed(quantity, side);
    Position(position.net + delta, AverageAfter(position, delta, price), SaturatingInc32(position.filledEntries))
  }

  function ApplyFill(book: Book, asset: string, side: Side, quantity: real, price: real): Book {
    book.(positions := book.positions[asset := AfterFill(PositionOf(book.positions, asset), side, quantity, price)])
  }

  // ---------------------------------------------------------------- submit and cancel

  function Guard(current: real, side: Side, quantity: real): Option<Refusal> {
    var delta := Signed(quantity, side);
    if quantity <= 0.0 then Some(NonPositiveQuantity)
    else if current == 0.0 then Some(PositionIsFlat)
    else if SignOf(current) == SignOf(delta) then Some(WouldIncreaseExposure)
    else if SignOf(current + delta) == SignOf(delta) then Some(WouldCrossThroughFlat)
    else None
  }

  /** Why an intent is refused before the book is consulted for its identity. */
  function Refused(config: Config, book: Book, intent: Intent): Option<Refusal> {
    if intent.venue != config.venue then Some(WrongVenue)
    else if intent.quantity <= 0.0 then Some(NonPositiveQuantity)
    else if intent.effect.ReduceOnly? then
      Guard(PositionOf(book.positions, intent.asset).net, intent.side, intent.quantity)
    else None
  }

  /** The first order with this client id. */
  function FindClient(orders: seq<VenueOrderSnapshot>, client: string): (i: Option<nat>)
    ensures i.Some? ==> i.value < |orders| && orders[i.value].clientOrderId == Some(client)
    ensures i.None? ==> forall k :: 0 <= k < |orders| ==> orders[k].clientOrderId != Some(client)
  {
    if orders == [] then None
    else
      var front := FindClient(orders[..|orders| - 1], client);
      if front.Some? then front
      else if orders[|orders| - 1].clientOrderId == Some(client) then Some(|orders| - 1)
      else None
  }

  function VenueId(n: nat): string {
    "shadow-" + DecimalText(n)
  }

  function NewOrder(config: Config, intent: Intent, id: u64): VenueOrderSnapshot {
    VenueOrderSnapshot(VenueId(id), Some(intent.clientOrderId), intent.asset, intent.side, intent.quantity,
                       if config.fillsImmediately then intent.quantity else 0.0, intent.limitPrice,
                       if config.fillsImmediately then VenueOrderState.Filled else Open)
  }

  function FillPrice(intent: Intent, reference: Option<real>): real {
    if intent.limitPrice.Some? then intent.limitPrice.value
    else if reference.Some? then reference.value
    else 0.0
  }

  /** The book with the intent's new order, and its fill in immediate mode. */
  function Registered(config: Config, book: Book, reference: Option<real>, intent: Intent): Book {
    var id := SaturatingAdd64(book.nextOrderId, 1);
    var booked := book.(orders := book.orders + [NewOrder(config, intent, id)], nextOrderId := id);
    if config.fillsImmediately
    then ApplyFill(booked, intent.asset, intent.side, intent.quantity, FillPrice(intent, reference))
    else booked
  }

  function Submitted(config: Config, book: Book, reference: Option<real>, intent: Intent): (Book, Result<Ack, Refusal>) {
    var refusal := Refused(config, book, intent);
    var known := FindClient(book.orders, intent.clientOrderId);
    if refusal.Some? then (book, Err(refusal.value))
    else if known.Some? then (book, Ok(Ack(book.orders[known.value].venueOrderId, intent.clientOrderId)))
    else
      (Registered(config, book, reference, intent),
       Ok(Ack(VenueId(SaturatingAdd64(book.nextOrderId, 1)), intent.clientOrderId)))
  }

  predicate Working(state: VenueOrderState) {
    state.Open? || state.PartiallyFilled?
  }

  predicate Located(order: VenueOrderSnapshot, client: string, venueOrderId: Option<string>) {
    order.clientOrderId == Some(client) || (venueOrderId.Some? && order.venueOrderId == venueOrderId.value)
  }

  /** The first order with this client id or this venue id. */
  function FindLocated(orders: seq<VenueOrderSnapshot>, client: string, venueOrderId: Option<string>): (i: Option<nat>)
    ensures i.Some? ==> i.value < |orders| && Located(orders[i.value], client, venueOrderId)
    ensures i.None? ==> forall k :: 0 <= k < |orders| ==> !Located(orders[k], client, venueOrderId)
  {
    if orders == [] then None
    else
      var front := FindLocated(orders[..|orders| - 1], client, venueOrderId);
      if front.Some? then front
      else if Located(orders[|orders| - 1], client, venueOrderId) then Some(|orders| - 1)
      else None
  }

  function Cancellation(book: Book, client: string, venueOrderId: Option<string>): (Book, Option<Refusal>) {
    var found := FindLocated(book.orders, client, venueOrderId);
    if found.None? then (book, Some(UnknownOrder))
    else
      var order := book.orders[found.value];
      if !Working(order.state) then (book, Some(AlreadyTerminal))
      else (book.(orders := book.orders[found.value := order.(state := VenueOrderState.Canceled)]), None)
  }

  class ShadowExecutionAdapter {
    const config: Config
    var orders: seq<VenueOrderSnapshot>
    var positions: map<string, Position>
    var nextOrderId: u64
    var reference: Option<real>

    ghost function Value(): Book
      reads this
    {
      Book(orders, positions, nextOrderId)
    }

    constructor (config: Config)
      ensures Value() == EMPTY && reference.None? && this.config == config
    {
      this.config := config;
      orders, positions, nextOrderId, reference := [], map[], 0, None;
    }

    method SetReferencePrice(price: real)
      modifies `reference
      ensures reference == if price > 0.0 then Some(price) else old(reference)
    {
      if price > 0.0 {
        reference := Some(price);
      }
    }

    method GuardReduceOnly(asset: string, side: Side, quantity: real) returns (r: Option<Refusal>)
      ensures r == Guard(PositionOf(positions, asset).net, side, quantity)
    {
      if quantity <= 0.0 {
        return Some(NonPositiveQuantity);
      }
      var current := PositionOf(positions, asset).net;
      if current == 0.0 {
        return Some(PositionIsFlat);
      }
      var delta := Signed(quantity, side);
      if SignOf(current) == SignOf(delta) {
        return Some(WouldIncreaseExposure);
      }
      if SignOf(current + delta) == SignOf(delta) {
        return Some(WouldCrossThroughFlat);
      }
      return None;
    }

    method ApplyFillInPlace(asset: string, side: Side, quantity: real, price: real)
      modifies `positions
      ensures Value() == ApplyFill(old(Value()), asset, side, quantity, price)
    {
      var position := PositionOf(positions, asset);
      var delta := Signed(quantity, side);
      var previous := position.net;
      var resulting := previous + delta;
      var average := position.average;
      if previous == 0.0 && price != 0.0 {
        average := Some(price);
      } else if previous != 0.0 && price != 0.0 && SignOf(previous) == SignOf(delta) {
        var entry := if position.average.Some? then position.average.value else price;
        average := Some(WeightedPrice(entry, Abs(previous), price, Abs(delta), Abs(resulting)));
      } else if previous != 0.0 && resulting != 0.0 && SignOf(previous) != SignOf(resulting) {
        average := if price != 0.0 then Some(price) else None;
      }
      if resulting == 0.0 {
        average := None;
      }
      assert average == AverageAfter(position, delta, price);
      positions := positions[asset := Position(resulting, average, SaturatingInc32(position.filledEntries))];
    }

    method Submit(intent: Intent) returns (r: Result<Ack, Refusal>)
      modifies `orders, `positions, `nextOrderId
      ensures (Value(), r) == Submitted(config, old(Value()), old(reference), intent)
    {
      if intent.venue != config.venue {
        return Err(WrongVenue);
      }
      if intent.quantity <= 0.0 {
        return Err(NonPositiveQuantity);
      }
      if intent.effect.ReduceOnly? {
        var refusal := GuardReduceOnly(intent.asset, intent.side, intent.quantity);
        if refusal.Some? {
          return Err(refusal.value);
        }
      }
      var known := FindClient(orders, intent.clientOrderId);
      if known.Some? {
        return Ok(Ack(orders[known.value].venueOrderId, intent.clientOrderId));
      }
      var ack := Register(intent);
      return Ok(ack);
    }

    method Register(intent: Intent) returns (ack: Ack)
      modifies `orders, `positions, `nextOrderId
      ensures Value() == Registered(config, old(Value()), old(reference), intent)
      ensures ack == Ack(VenueId(nextOrderId), intent.clientOrderId)
    {
      nextOrderId := SaturatingAdd64(nextOrderId, 1);
      var order := NewOrder(config, intent, nextOrderId);
      orders := orders + [order];
      if config.fillsImmediately {
        ApplyFillInPlace(intent.asset, intent.side, intent.quantity, FillPrice(intent, reference));
      }
      return Ack(order.venueOrderId, intent.clientOrderId);
    }

    method Cancel(client: string, venueOrderId: Option<string>) returns (r: Option<Refusal>)
      modifies `orders
      ensures (Value(), r) == Cancellation(old(Value()), client, venueOrderId)
    {
      var found := FindLocated(orders, client, venueOrderId);
      if found.None? {
        return Some(UnknownOrder);
      }
      var order := orders[found.value];
      if Working(order.state) {
        orders := orders[found.value := order.(state := VenueOrderState.Canceled)];
        return None;
      }
      return Some(AlreadyTerminal);
    }
  }

  // ---------------------------------------------------------------- runs

  datatype Step =
    | SubmitStep(intent: Intent, reference: Option<real>)
    | CancelStep(client: string, venueOrderId: Option<string>)

  function After(config: Config, book: Book, step: Step): Book {
    match step
    case SubmitStep(intent, reference) => Submitted(config, book, reference, intent).0
    case CancelStep(client, venueOrderId) => Cancellation(book, client, venueOrderId).0
  }

  function Run(config: Config, steps: seq<Step>): Book {
    if steps == [] then EMPTY else After(config, Run(config, steps[..|steps| - 1]), steps[|steps| - 1])
  }

  /** The signed sum of what an asset's orders have filled. */
  function SignedFilled(orders: seq<VenueOrderSnapshot>, asset: string): real {
    if orders == [] then 0.0
    else
      var last := orders[|orders| - 1];
      SignedFilled(orders[..|orders| - 1], asset) + if last.asset == asset then Signed(last.filled, last.side) else 0.0
  }

  /** An order is wholly filled, or has filled nothing and is open or canceled. */
  predicate AllOrNothing(o: VenueOrderSnapshot) {
    && o.clientOrderId.Some? && o.requested > 0.0
    && ((o.state.Filled? && o.filled == o.requested) || ((o.state.Open? || o.state.Canceled?) && o.filled == 0.0))
  }

  /** All orders are all-or-nothing, under distinct client ids and numbered venue ids. */
  ghost predicate SoundOrders(orders: seq<VenueOrderSnapshot>) {
    && (forall i :: 0 <= i < |orders| ==> AllOrNothing(orders[i]))
    && (forall i, j :: 0 <= i < j < |orders| ==> orders[i].clientOrderId != orders[j].clientOrderId)
    && (forall i :: 0 <= i < |orders| ==> orders[i].venueOrderId == VenueId(Min(i + 1, U64_MAX)))
  }

  /** What every reachable book satisfies. */
  ghost predicate Sound(book: Book) {
    && (forall asset :: PositionOf(book.positions, asset).net == SignedFilled(book.orders, asset))
    && SoundOrders(book.orders)
    && book.nextOrderId == Min(|book.orders|, U64_MAX)
  }

  lemma SignedFilledAppend(orders: seq<VenueOrderSnapshot>, o: VenueOrderSnapshot, asset: string)
    ensures SignedFilled(orders + [o], asset)
         == SignedFilled(orders, asset) + if o.asset == asset then Signed(o.filled, o.side) else 0.0
  {
    assert (orders + [o])[..|orders|] == orders;
  }

  lemma {:induction false} SignedFilledUpdate(orders: seq<VenueOrderSnapshot>, k: nat, o: VenueOrderSnapshot, asset: string)
    requires k < |orders| && o.asset == orders[k].asset && o.filled == orders[k].filled && o.side == orders[k].side
    ensures SignedFilled(orders[k := o], asset) == SignedFilled(orders, asset)
  {
    var n := |orders| - 1;
    if k < n {
      SignedFilledUpdate(orders[..n], k, o, asset);
      assert orders[k := o][..n] == orders[..n][k := o];
    } else {
      assert orders[k := o][..n] == orders[..n];
    }
  }

  lemma RegisteredNet(config: Config, book: Book, reference: Option<real>, intent: Intent, asset: string)
    requires PositionOf(book.positions, asset).net == SignedFilled(book.orders, asset)
    ensures var next := Registered(config, book, reference, intent);
            PositionOf(next.positions, asset).net == SignedFilled(next.orders, asset)
  {
    SignedFilledAppend(book.orders, NewOrder(config, intent, SaturatingAdd64(book.nextOrderId, 1)), asset);
  }

  lemma RegisterKeepsSound(config: Config, book: Book, reference: Option<real>, intent: Intent)
    requires Sound(book) && intent.quantity > 0.0 && FindClient(book.orders, intent.clientOrderId).None?
    ensures Sound(Registered(config, book, reference, intent))
  {
    var next := Registered(config, book, reference, intent);
    forall asset
      ensures PositionOf(next.positions, asset).net == SignedFilled(next.orders, asset)
    {
      assert PositionOf(book.positions, asset).net == SignedFilled(book.orders, asset);
      RegisteredNet(config, book, reference, intent, asset);
    }
    NewOrderKeepsOrders(book.orders, NewOrder(config, intent, SaturatingAdd64(book.nextOrderId, 1)));
  }

  lemma NewOrderKeepsOrders(orders: seq<VenueOrderSnapshot>, o: VenueOrderSnapshot)
    requires SoundOrders(orders) && AllOrNothing(o)
    requires o.venueOrderId == VenueId(Min(|orders| + 1, U64_MAX))
    requires forall i :: 0 <= i < |orders| ==> orders[i].clientOrderId != o.clientOrderId
    ensures SoundOrders(orders + [o])
  {
  }

  lemma SubmitKeepsSound(config: Config, book: Book, reference: Option<real>, intent: Intent)
    requires Sound(book)
    ensures Sound(Submitted(config, book, reference, intent).0)
  {
    if Submitted(config, book, reference, intent).0 != book {
      RegisterKeepsSound(config, book, reference, intent);
    }
  }

  lemma CancelKeepsSound(book: Book, client: string, venueOrderId: Option<string>)
    requires Sound(book)
    ensures Sound(Cancellation(book, client, venueOrderId).0)
  {
    var found := FindLocated(book.orders, client, venueOrderId);
    var next := Cancellation(book, client, venueOrderId).0;
    if next != book {
      forall asset
        ensures PositionOf(next.positions, asset).net == SignedFilled(next.orders, asset)
      {
        SignedFilledUpdate(book.orders, found.value, next.orders[found.value], asset);
        assert PositionOf(book.positions, asset).net == SignedFilled(book.orders, asset);
      }
    }
  }

  /** Over every run, each asset's net position is the signed sum of its orders' fills,
      client ids are unique and orders are all-or-nothing. */
  lemma {:induction false} RunIsSound(config: Config, steps: seq<Step>)
    ensures Sound(Run(config, steps))
  {
    if steps != [] {
      RunIsSound(config, steps[..|steps| - 1]);
      var book := Run(config, steps[..|steps| - 1]);
      match steps[|steps| - 1]
      case SubmitStep(intent, reference) => SubmitKeepsSound(config, book, reference, intent);
      case CancelStep(client, venueOrderId) => CancelKeepsSound(book, client, venueOrderId);
    }
  }

  ghost predicate VenueIdsUnique(orders: seq<VenueOrderSnapshot>) {
    forall i, j :: 0 <= i < j < |orders| ==> orders[i].venueOrderId != orders[j].venueOrderId
  }

  lemma VenueIdInjective(a: nat, b: nat)
    requires VenueId(a) == VenueId(b)
    ensures a == b
  {
    assert VenueId(a)[7..] == DecimalText(a) && VenueId(b)[7..] == DecimalText(b);
    DecimalTextInjective(a, b);
  }

  /** Venue ids are unique exactly until the saturating 64-bit counter stops counting. */
  lemma VenueIdsUniqueUntilSaturation(config: Config, steps: seq<Step>)
    ensures VenueIdsUnique(Run(config, steps).orders) <==> |Run(config, steps).orders| <= U64_MAX
  {
    RunIsSound(config, steps);
    var orders := Run(config, steps).orders;
    if |orders| <= U64_MAX {
      forall i, j | 0 <= i < j < |orders|
        ensures orders[i].venueOrderId != orders[j].venueOrderId
      {
        if orders[i].venueOrderId == orders[j].venueOrderId {
          VenueIdInjective(i + 1, j + 1);
        }
      }
    } else {
      assert orders[U64_MAX - 1].venueOrderId == orders[U64_MAX].venueOrderId;
    }
  }

  ghost predicate Named(orders: seq<VenueOrderSnapshot>, name: nat -> string) {
    forall i :: 0 <= i < |orders| ==> orders[i].clientOrderId == Some(name(i))
  }

  lemma NamedSnoc(orders: seq<VenueOrderSnapshot>, name: nat -> string, o: VenueOrderSnapshot)
    requires Named(orders, name) && o.clientOrderId == Some(name(|orders|))
    ensures Named(orders + [o], name)
  {
  }

  lemma NextNamed(config: Config, book: Book, asset: string, name: nat -> string)
    requires Named(book.orders, name) && forall i: nat :: i < |book.orders| ==> name(i) != name(|book.orders|)
    ensures var intent := Intent(name(|book.orders|), config.venue, asset, Buy, 1.0, Increase, None);
            var next := After(config, book, SubmitStep(intent, None));
            |next.orders| == |book.orders| + 1 && Named(next.orders, name)
  {
    var intent := Intent(name(|book.orders|), config.venue, asset, Buy, 1.0, Increase, None);
    var order := NewOrder(config, intent, SaturatingAdd64(book.nextOrderId, 1));
    assert Registered(config, book, None, intent).orders == book.orders + [order];
    NamedSnoc(book.orders, name, order);
  }

  /** Distinct buys, one after the other, make runs with any number of orders. */
  lemma {:induction false} RunWithOrders(config: Config, asset: string, name: nat -> string, n: nat)
    returns (steps: seq<Step>)
    requires forall i: nat, j: nat :: i < j ==> name(i) != name(j)
    ensures |Run(config, steps).orders| == n && Named(Run(config, steps).orders, name)
  {
    if n == 0 {
      return [];
    }
    var before := RunWithOrders(config, asset, name, n - 1);
    var step := SubmitStep(Intent(name(n - 1), config.venue, asset, Buy, 1.0, Increase, None), None);
    steps := before + [step];
    assert steps[..|before|] == before;
    NextNamed(config, Run(config, before), asset, name);
  }

  /** So a long enough run repeats a venue id. */
  lemma SomeRunRepeatsAVenueId(config: Config, asset: string) returns (steps: seq<Step>)
    ensures !VenueIdsUnique(Run(config, steps).orders)
  {
    forall i: nat, j: nat | i < j
      ensures DecimalText(i) != DecimalText(j)
    {
      if DecimalText(i) == DecimalText(j) { DecimalTextInjective(i, j); }
    }
    steps := RunWithOrders(config, asset, DecimalText, U64_MAX + 1);
    VenueIdsUniqueUntilSaturation(config, steps);
  }

  /** Resubmitting a known intent changes nothing, and is acknowledged with the existing
      order exactly when the guards ahead of the identity lookup pass. */
  lemma ReplayAdoptsTheOrder(config: Config, book: Book, reference: Option<real>, intent: Intent, i: nat)
    requires Sound(book) && i < |book.orders| && book.orders[i].clientOrderId == Some(intent.clientOrderId)
    ensures Submitted(config, book, reference, intent).0 == book
    ensures var r := Submitted(config, book, reference, intent).1;
            && (r.Ok? <==> Refused(config, book, intent).None?)
            && (r.Ok? ==> r.value == Ack(book.orders[i].venueOrderId, intent.clientOrderId))
  {
    var known := FindClient(book.orders, intent.clientOrderId);
    assert known.Some?;
    assert known.value == i;
  }

  /** An accepted reduce-only fill strictly shrinks the position and never changes its sign. */
  lemma ReduceOnlyShrinks(config: Config, book: Book, reference: Option<real>, intent: Intent)
    requires config.fillsImmediately && intent.effect.ReduceOnly?
    requires Submitted(config, book, reference, intent).1.Ok?
    requires FindClient(book.orders, intent.clientOrderId).None?
    ensures var before, after := PositionOf(book.positions, intent.asset).net,
                                 PositionOf(Submitted(config, book, reference, intent).0.positions, intent.asset).net;
            && Abs(after) == Abs(before) - intent.quantity < Abs(before)
            && (after == 0.0 || SignOf(after) == SignOf(before))
  {
  }

  /** The identity lookup comes after the reduce-only guard, so replaying an order that
      flattened the position is refused although the order exists. */
  lemma ReplayOfTheClosingOrderIsRefused(config: Config, book: Book, reference: Option<real>, close: Intent)
    requires config.fillsImmediately && close.venue == config.venue && close.effect.ReduceOnly? && close.quantity > 0.0
    requires FindClient(book.orders, close.clientOrderId).None?
    requires PositionOf(book.positions, close.asset).net == -Signed(close.quantity, close.side)
    ensures var accepted := Submitted(config, book, reference, close);
            && accepted.1.Ok?
            && FindClient(accepted.0.orders, close.clientOrderId).Some?
            && Submitted(config, accepted.0, reference, close) == (accepted.0, Err(PositionIsFlat))
  {
    var after := Submitted(config, book, reference, close).0;
    assert after.orders[|book.orders|].clientOrderId == Some(close.clientOrderId);
    assert PositionOf(after.positions, close.asset).net == 0.0;
  }

  /** The order takes its whole quantity off the position and nothing beyond it. */
  predicate Reduces(current: real, side: Side, quantity: real) {
    quantity > 0.0 && Abs(current + Signed(quantity, side)) == Abs(current) - quantity
  }

  /** The guard passes exactly the orders that reduce the position; of the others it tells apart
      an empty one, a flat position, the wrong side and too much. */
  lemma GuardMeaning(current: real, side: Side, quantity: real)
    ensures Guard(current, side, quantity).None? <==> Reduces(current, side, quantity)
    ensures Guard(current, side, quantity) == Some(NonPositiveQuantity) <==> quantity <= 0.0
    ensures Guard(current, side, quantity) == Some(PositionIsFlat) <==> quantity > 0.0 && current == 0.0
    ensures Guard(current, side, quantity) == Some(WouldIncreaseExposure)
       <==> quantity > 0.0 && current != 0.0 && (current > 0.0 <==> side.Buy?)
    ensures Guard(current, side, quantity) == Some(WouldCrossThroughFlat)
       <==> quantity > Abs(current) > 0.0 && (current > 0.0 <==> side.Sell?)
  {
  }

  /** A submit is acknowledged exactly for a positive quantity at this venue that, if it may only
      reduce, does reduce the position; a refused one changes nothing. */
  lemma AcknowledgedExactly(config: Config, book: Book, reference: Option<real>, intent: Intent)
    ensures Submitted(config, book, reference, intent).1.Ok?
       <==> && intent.venue == config.venue && intent.quantity > 0.0
            && (intent.effect.ReduceOnly? ==>
                  Reduces(PositionOf(book.positions, intent.asset).net, intent.side, intent.quantity))
    ensures Submitted(config, book, reference, intent).1.Err? ==> Submitted(config, book, reference, intent).0 == book
  {
    GuardMeaning(PositionOf(book.positions, intent.asset).net, intent.side, intent.quantity);
  }

  /** An acknowledged new intent adds exactly its order, under the acknowledged id, filled wholly
      or not at all; a filled one moves its asset's position by its signed quantity, and opens a
      flat one at the limit price, or else at the reference, if that is not zero. */
  lemma NewOrderIsBooked(config: Config, book: Book, reference: Option<real>, intent: Intent)
    requires Submitted(config, book, reference, intent).1.Ok? && FindClient(book.orders, intent.clientOrderId).None?
    ensures var (next, answer) := Submitted(config, book, reference, intent);
            var o := next.orders[|next.orders| - 1];
            && |next.orders| == |book.orders| + 1 && next.orders[..|book.orders|] == book.orders
            && answer.value == Ack(o.venueOrderId, intent.clientOrderId)
            && o.clientOrderId == Some(intent.clientOrderId) && o.asset == intent.asset && o.side == intent.side
            && o.requested == intent.quantity && o.filled == (if config.fillsImmediately then intent.quantity else 0.0)
            && (if config.fillsImmediately then o.state.Filled? else o.state.Open? && next.positions == book.positions)
    ensures config.fillsImmediately ==>
              var before, after := book.positions, Submitted(config, book, reference, intent).0.positions;
              var price := if intent.limitPrice.Some? then intent.limitPrice else reference;
              && (forall asset :: asset != intent.asset ==> PositionOf(after, asset) == PositionOf(before, asset))
              && PositionOf(after, intent.asset).net
                 == PositionOf(before, intent.asset).net + Signed(intent.quantity, intent.side)
              && (PositionOf(before, intent.asset).net == 0.0 ==>
                    PositionOf(after, intent.asset).average
                    == if price.Some? && price.value != 0.0 then price else PositionOf(before, intent.asset).average)
  {
    assert intent.quantity > 0.0;
  }

  /** The first order that the client id or the venue id names. */
  ghost predicate Names(orders: seq<VenueOrderSnapshot>, client: string, venueOrderId: Option<string>, k: nat) {
    && k < |orders|
    && (orders[k].clientOrderId == Some(client) || Some(orders[k].venueOrderId) == venueOrderId)
    && forall j :: 0 <= j < k ==>
         orders[j].clientOrderId != Some(client) && Some(orders[j].venueOrderId) != venueOrderId
  }

  /** A cancel without an order to name is unknown; one of an order that is open or partially
      filled cancels exactly that order, keeping what it filled and every position; any other order
      is already terminal. */
  lemma CancelMeaning(book: Book, client: string, venueOrderId: Option<string>)
    ensures Cancellation(book, client, venueOrderId).1 == Some(UnknownOrder)
       <==> forall k: nat :: !Names(book.orders, client, venueOrderId, k)
    ensures forall k: nat :: Names(book.orders, client, venueOrderId, k) ==>
              var (next, refusal) := Cancellation(book, client, venueOrderId);
              if book.orders[k].state.Open? || book.orders[k].state.PartiallyFilled?
              then && refusal.None? && next.positions == book.positions && next.nextOrderId == book.nextOrderId
                   && next.orders == book.orders[k := book.orders[k].(state := VenueOrderState.Canceled)]
              else refusal == Some(AlreadyTerminal) && next == book
  {
    FirstLocated(book.orders, client, venueOrderId);
    var found := FindLocated(book.orders, client, venueOrderId);
    if found.Some? {
      forall k: nat | Names(book.orders, client, venueOrderId, k) ensures k == found.value {
      }
    }
  }

  lemma {:induction false} FirstLocated(orders: seq<VenueOrderSnapshot>, client: string, venueOrderId: Option<string>)
    ensures var found := FindLocated(orders, client, venueOrderId);
            if found.Some? then Names(orders, client, venueOrderId, found.value)
            else forall k: nat :: !Names(orders, client, venueOrderId, k)
  {
    if orders != [] {
      var front := orders[..|orders| - 1];
      FirstLocated(front, client, venueOrderId);
      assert forall j :: 0 <= j < |front| ==> front[j] == orders[j];
    }
  }
}
