/** Admission guards of the real-venue daemon: the topology and reconcile gate, and the check
    that a strategy has no policy order outstanding. */
module UnattendedGuard {
  import opened Common
  import opened Execution
  import Oms

  datatype Guard = Guard(topologyBlocker: Option<string>, reconcileClean: bool)

  const PENDING: string := "topology change pending validation"

  predicate Ready(g: Guard, checklistReady: bool) {
    g.topologyBlocker.None? && g.reconcileClean && checklistReady
  }

  predicate MayIncrease(g: Guard, started: bool, checklistReady: bool, feedsConnected: bool) {
    started && feedsConnected && Ready(g, checklistReady)
  }

  class EntryGuard {
    var topologyBlocker: Option<string>
    var reconcileClean: bool

    ghost function Value(): Guard
      reads this
    {
      Guard(topologyBlocker, reconcileClean)
    }

    constructor (startupClean: bool)
      ensures Value() == Guard(None, startupClean)
    {
      topologyBlocker, reconcileClean := None, startupClean;
    }

    method BeginTopologyChange()
      modifies `topologyBlocker
      ensures topologyBlocker == Some(PENDING)
    {
      topologyBlocker := Some(PENDING);
    }

    method TopologyValidated()
      modifies `topologyBlocker
      ensures topologyBlocker.None?
    {
      topologyBlocker := None;
    }

    method TopologyFailed(reason: string)
      modifies `topologyBlocker
      ensures topologyBlocker == Some(reason)
    {
      topologyBlocker := Some(reason);
    }

    method ReconcileResult(clean: bool)
      modifies `reconcileClean
      ensures reconcileClean == clean
    {
      reconcileClean := clean;
    }
  }

  // ---------------------------------------------------------------- one policy order per strategy

  /** The venue and client id of a strategy's last attempt. */
  datatype Attempt = Attempt(venue: Venue, clientOrderId: string)

  predicate HasActiveOrder(strategy: string, orders: map<string, Oms.Order>) {
    exists c :: c in orders && orders[c].owner == strategy && !Oms.IsTerminal(orders[c])
  }

  /** The attempt is a terminal record of this strategy at this venue. */
  predicate IsSettled(strategy: string, orders: map<string, Oms.Order>, attempt: Attempt) {
    && attempt.clientOrderId in orders
    && orders[attempt.clientOrderId].venue == attempt.venue
    && orders[attempt.clientOrderId].owner == strategy
    && Oms.IsTerminal(orders[attempt.clientOrderId])
  }

  predicate Busy(strategy: string, orders: map<string, Oms.Order>, attempted: map<string, Attempt>) {
    || HasActiveOrder(strategy, orders)
    || (strategy in attempted && !IsSettled(strategy, orders, attempted[strategy]))
  }

  /** A strategy is free exactly when each of its records is filled, canceled or rejected and its
      last attempt, if any, has such a record of its own venue. */
  lemma FreeMeaning(strategy: string, orders: map<string, Oms.Order>, attempted: map<string, Attempt>)
    ensures !Busy(strategy, orders, attempted) <==>
              && (forall c :: c in orders && orders[c].owner == strategy ==>
                    orders[c].state.Filled? || orders[c].state.Canceled? || orders[c].state.Rejected?)
              && (strategy in attempted ==>
                    && attempted[strategy].clientOrderId in orders
                    && orders[attempted[strategy].clientOrderId].owner == strategy
                    && orders[attempted[strategy].clientOrderId].venue == attempted[strategy].venue)
  {
  }

  /** A settled attempt is forgotten; nothing else is. */
  function Remembered(strategy: string, orders: map<string, Oms.Order>, attempted: map<string, Attempt>)
    : map<string, Attempt>
  {
    if Busy(strategy, orders, attempted) then attempted else attempted - {strategy}
  }

  class PolicyOrders {
    var attempted: map<string, Attempt>

    constructor ()
      ensures attempted == map[]
    {
      attempted := map[];
    }

    method PolicyOrderBusy(strategy: string, orders: map<string, Oms.Order>) returns (busy: bool)
      modifies this
      ensures busy == Busy(strategy, orders, old(attempted))
      ensures attempted == Remembered(strategy, orders, old(attempted))
    {
      if exists c :: c in orders && orders[c].owner == strategy && !Oms.IsTerminal(orders[c]) {
        return true;
      }
      if strategy !in attempted {
        assert attempted - {strategy} == attempted;
        return false;
      }
      var attempt := attempted[strategy];
      if attempt.clientOrderId in orders {
        var record := orders[attempt.clientOrderId];
        if record.venue == attempt.venue && record.owner == strategy && Oms.IsTerminal(record) {
          attempted := attempted - {strategy};
          return false;
        }
      }
      return true;
    }
  }
}
