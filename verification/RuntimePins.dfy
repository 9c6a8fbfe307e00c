/** Which assets the daemon must keep hands off, derived from positions and orders. */
module RuntimePins {
  import opened Common
  import opened Execution
  import Oms
  import OrderedSet

  datatype Ownership = OwnedBy(strategy: string) | Manual | UnknownOwner

  datatype Position = Position(key: AssetKey, quantity: real, ownership: Ownership)

  type Positions = map<AssetKey, Position>

  type Orders = map<string, Oms.Order>

  datatype Pins = Pins(
    safeHold: set<AssetKey>, strategy: set<AssetKey>, operational: set<AssetKey>, strategyPositions: map<AssetKey, real>)

  function KeyOf(o: Oms.Order): AssetKey {
    AssetKey(o.venue, o.asset)
  }

  /** Non-flat positions automation must never merge into. */
  function HeldPositions(positions: Positions): set<AssetKey> {
    set k | k in positions && positions[k].quantity != 0.0 && !positions[k].ownership.OwnedBy?
  }

  predicate Ambiguous(o: Oms.Order) {
    o.state.Unknown? || o.state.PendingSubmit?
  }

  /** Assets with an order whose fate is not known. */
  function HeldOrders(orders: Orders): set<AssetKey> {
    set c | c in orders && Ambiguous(orders[c]) :: KeyOf(orders[c])
  }

  function OwnedPositions(positions: Positions): set<AssetKey> {
    set k | k in positions && positions[k].quantity != 0.0 && positions[k].ownership.OwnedBy?
  }

  function ActiveAssets(orders: Orders): set<AssetKey> {
    set c | c in orders && !Oms.IsTerminal(orders[c]) :: KeyOf(orders[c])
  }

  function DerivedPins(positions: Positions, orders: Orders, hold: set<AssetKey>): Pins {
    Pins(hold + HeldPositions(positions) + HeldOrders(orders),
         OwnedPositions(positions) + ActiveAssets(orders),
         HeldPositions(positions) + OwnedPositions(positions) + ActiveAssets(orders),
         map k | k in OwnedPositions(positions) :: positions[k].quantity)
  }

  /** An asset is held for the given reasons, for an open position that is not a strategy's, or for
      an order that may or may not be live; it is operational for an open position or an order that
      is not done, and a strategy's for its own open position or such an order. */
  lemma PinsMeaning(positions: Positions, orders: Orders, hold: set<AssetKey>, key: AssetKey)
    ensures var pins := DerivedPins(positions, orders, hold);
            && (key in pins.safeHold <==>
                  || key in hold
                  || (key in positions && positions[key].quantity != 0.0
                      && (positions[key].ownership.Manual? || positions[key].ownership.UnknownOwner?))
                  || exists c :: c in orders && KeyOf(orders[c]) == key
                                 && (orders[c].state == Oms.Unknown || orders[c].state == Oms.PendingSubmit))
            && (key in pins.strategyPositions <==>
                  key in positions && positions[key].quantity != 0.0 && positions[key].ownership.OwnedBy?)
            && (key in pins.strategyPositions ==> pins.strategyPositions[key] == positions[key].quantity)
            && (key in pins.operational <==>
                  || (key in positions && positions[key].quantity != 0.0)
                  || exists c :: c in orders && KeyOf(orders[c]) == key && !Oms.IsTerminal(orders[c]))
            && (key in pins.strategy <==>
                  || key in pins.strategyPositions
                  || exists c :: c in orders && KeyOf(orders[c]) == key && !Oms.IsTerminal(orders[c]))
  {
  }

  /** What one position adds to the pins. */
  function PinPosition(pins: Pins, key: AssetKey, position: Position): Pins {
    if position.quantity == 0.0 then pins
    else
      var operational := pins.operational + {key};
      if position.ownership.OwnedBy? then
        Pins(pins.safeHold, pins.strategy + {key}, operational, pins.strategyPositions[key := position.quantity])
      else Pins(pins.safeHold + {key}, pins.strategy, operational, pins.strategyPositions)
  }

  /** What one order adds to the pins. */
  function PinOrder(pins: Pins, order: Oms.Order): Pins {
    if Oms.IsTerminal(order) then pins
    else
      var key := KeyOf(order);
      Pins(if Ambiguous(order) then pins.safeHold + {key} else pins.safeHold,
           pins.strategy + {key}, pins.operational + {key}, pins.strategyPositions)
  }

  method DeriveRuntimePins(positions: Positions, orders: Orders, hold: set<AssetKey>) returns (pins: Pins)
    ensures pins == DerivedPins(positions, orders, hold)
  {
    pins := PinPositions(positions, hold);
    pins := PinOrders(pins, orders);
    PinsComplete(positions, orders, hold);
  }

  method PinPositions(positions: Positions, hold: set<AssetKey>) returns (pins: Pins)
    ensures pins == PinsOfPositions(positions, positions.Keys, hold)
  {
    pins := Pins(hold, {}, {}, map[]);
    var keys := positions.Keys;
    ghost var done: set<AssetKey> := {};
    NoPinsYet(positions, hold);
    while keys != {}
      invariant keys + done == positions.Keys && keys !! done
      invariant pins == PinsOfPositions(positions, done, hold)
      decreases |keys|
    {
      OrderedSet.NonEmpty(keys);
      var key :| key in keys;
      var position := positions[key];
      PinsOfOneMore(positions, done, hold, key);
      pins := PinPosition(pins, key, position);
      keys, done := keys - {key}, done + {key};
    }
    assert done == positions.Keys;
  }

  method PinOrders(base: Pins, orders: Orders) returns (pins: Pins)
    ensures pins == PinsWithOrders(base, orders, orders.Keys)
  {
    pins := base;
    var clients := orders.Keys;
    ghost var seen: set<string> := {};
    NoOrdersYet(base, orders);
    while clients != {}
      invariant clients + seen == orders.Keys && clients !! seen
      invariant pins == PinsWithOrders(base, orders, seen)
      decreases |clients|
    {
      OrderedSet.NonEmpty(clients);
      var client :| client in clients;
      var order := orders[client];
      PinsOfOneMoreOrder(base, orders, seen, client);
      pins := PinOrder(pins, order);
      clients, seen := clients - {client}, seen + {client};
    }
    assert seen == orders.Keys;
  }

  lemma NoPinsYet(positions: Positions, hold: set<AssetKey>)
    ensures PinsOfPositions(positions, {}, hold) == Pins(hold, {}, {}, map[])
  {
    assert Only(positions, {}) == map[];
    assert HeldPositions(map[]) == {} && OwnedPositions(map[]) == {};
  }

  lemma NoOrdersYet(base: Pins, orders: Orders)
    ensures PinsWithOrders(base, orders, {}) == base
  {
    assert Only(orders, {}) == map[];
    assert HeldOrders(map[]) == {} && ActiveAssets(map[]) == {};
  }

  ghost function Only<T, U>(m: map<T, U>, keys: set<T>): map<T, U> {
    map k | k in m && k in keys :: m[k]
  }

  ghost function PinsOfPositions(positions: Positions, done: set<AssetKey>, hold: set<AssetKey>): Pins {
    var some := Only(positions, done);
    Pins(hold + HeldPositions(some), OwnedPositions(some), HeldPositions(some) + OwnedPositions(some),
         map k | k in OwnedPositions(some) :: some[k].quantity)
  }

  ghost function PinsWithOrders(base: Pins, orders: Orders, seen: set<string>): Pins {
    WithOrders(base, Only(orders, seen))
  }

  ghost function WithOrders(base: Pins, orders: Orders): Pins {
    base.(safeHold := base.safeHold + HeldOrders(orders), strategy := base.strategy + ActiveAssets(orders),
          operational := base.operational + ActiveAssets(orders))
  }

  lemma PinsOfOneMore(positions: Positions, done: set<AssetKey>, hold: set<AssetKey>, key: AssetKey)
    requires key in positions && key !in done
    ensures var p, before, after := positions[key], PinsOfPositions(positions, done, hold),
                                    PinsOfPositions(positions, done + {key}, hold);
            after == PinPosition(before, key, p)
  {
    var some, more := Only(positions, done), Only(positions, done + {key});
    var p := positions[key];
    assert HeldPositions(more)
        == HeldPositions(some) + (if p.quantity != 0.0 && !p.ownership.OwnedBy? then {key} else {});
    assert OwnedPositions(more)
        == OwnedPositions(some) + (if p.quantity != 0.0 && p.ownership.OwnedBy? then {key} else {});
  }

  lemma PinsOfOneMoreOrder(base: Pins, orders: Orders, seen: set<string>, client: string)
    requires client in orders && client !in seen
    ensures var o, before, after := orders[client], PinsWithOrders(base, orders, seen),
                                    PinsWithOrders(base, orders, seen + {client});
            after == PinOrder(before, o)
  {
    var some, o := Only(orders, seen), orders[client];
    assert Only(orders, seen + {client}) == some[client := o];
    HeldOrdersMore(some, some[client := o], client);
    ActiveAssetsMore(some, some[client := o], client);
    OneOrderMore(base, some, o, some[client := o]);
  }

  lemma OneOrderMore(base: Pins, some: Orders, o: Oms.Order, more: Orders)
    requires HeldOrders(more) == HeldOrders(some) + if Ambiguous(o) then {KeyOf(o)} else {}
    requires ActiveAssets(more) == ActiveAssets(some) + if Oms.IsTerminal(o) then {} else {KeyOf(o)}
    ensures WithOrders(base, more) == PinOrder(WithOrders(base, some), o)
  {
  }

  lemma HeldOrdersMore(some: Orders, more: Orders, client: string)
    requires client !in some && client in more && more == some[client := more[client]]
    ensures HeldOrders(more) == HeldOrders(some) + if Ambiguous(more[client]) then {KeyOf(more[client])} else {}
  {
    forall k
      ensures k in HeldOrders(more) <==> k in HeldOrders(some) || (Ambiguous(more[client]) && k == KeyOf(more[client]))
    {
      if k in HeldOrders(some) {
        var c :| c in some && Ambiguous(some[c]) && KeyOf(some[c]) == k;
        assert more[c] == some[c];
      }
    }
  }

  lemma ActiveAssetsMore(some: Orders, more: Orders, client: string)
    requires client !in some && client in more && more == some[client := more[client]]
    ensures ActiveAssets(more) == ActiveAssets(some) + if Oms.IsTerminal(more[client]) then {} else {KeyOf(more[client])}
  {
    forall k
      ensures k in ActiveAssets(more)
         <==> k in ActiveAssets(some) || (!Oms.IsTerminal(more[client]) && k == KeyOf(more[client]))
    {
      if k in ActiveAssets(some) {
        var c :| c in some && !Oms.IsTerminal(some[c]) && KeyOf(some[c]) == k;
        assert more[c] == some[c];
      }
    }
  }

  lemma PinsComplete(positions: Positions, orders: Orders, hold: set<AssetKey>)
    ensures PinsWithOrders(PinsOfPositions(positions, positions.Keys, hold), orders, orders.Keys)
         == DerivedPins(positions, orders, hold)
  {
    assert Only(positions, positions.Keys) == positions;
    assert Only(orders, orders.Keys) == orders;
  }
}
