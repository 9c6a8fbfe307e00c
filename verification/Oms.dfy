/** The order record of the order management system: legal transitions and fills. */
module Oms {
  import opened Common
  import Execution

  datatype OrderState =
    | Created
    | PendingSubmit
    | Open
    | PartiallyFilled
    | PendingCancel
    | Filled
    | Canceled
    | Rejected
    | Unknown

  datatype OrderEvent = SubmitRequested | Accepted | CancelRequested | CancelConfirmed | RejectedByVenue | LostState

  datatype Order = Order(
    clientOrderId: string, venue: Execution.Venue, asset: string, owner: string, side: Option<Side>, effect: Option<Effect>,
    requested: real, filled: real, state: OrderState, venueOrderId: Option<string>)

  predicate IsTerminal(o: Order) {
    o.state.Filled? || o.state.Canceled? || o.state.Rejected?
  }

  function Next(state: OrderState, event: OrderEvent): Option<OrderState> {
    match event
    case SubmitRequested => if state.Created? then Some(PendingSubmit) else None
    case Accepted => if state.PendingSubmit? then Some(Open) else None
    case RejectedByVenue => if state.PendingSubmit? then Some(Rejected) else None
    case CancelRequested => if state.Open? || state.PartiallyFilled? then Some(PendingCancel) else None
    case CancelConfirmed =>
      if state.Open? || state.PartiallyFilled? || state.PendingCancel? then Some(Canceled) else None
    case LostState =>
      if state.PendingSubmit? || state.Open? || state.PartiallyFilled? || state.PendingCancel? then Some(Unknown) else None
  }

  datatype FillError = NonPositive | Overfill | IllegalState

  function FillRefusal(o: Order, quantity: real): Option<FillError> {
    if quantity <= 0.0 then Some(NonPositive)
    else if !(o.state.Open? || o.state.PartiallyFilled? || o.state.PendingCancel?) then Some(IllegalState)
    else if o.filled + quantity > o.requested then Some(Overfill)
    else None
  }

  function AfterFill(o: Order, quantity: real): Order {
    o.(filled := o.filled + quantity, state := if o.filled + quantity == o.requested then Filled else PartiallyFilled)
  }

  class OrderRecord {
    const requested: real
    var state: OrderState
    var filled: real
    var venueOrderId: Option<string>
    ghost const identity: Order

    ghost function Value(): Order
      reads this
    {
      identity.(requested := requested, state := state, filled := filled, venueOrderId := venueOrderId)
    }

    /** A record made from an intent. */
    constructor (intent: Order)
      ensures Value() == intent.(state := Created, filled := 0.0, venueOrderId := None)
    {
      identity := intent;
      requested := intent.requested;
      state, filled, venueOrderId := Created, 0.0, None;
    }

    method Apply(event: OrderEvent) returns (ok: bool)
      modifies `state
      ensures ok <==> Next(old(state), event).Some?
      ensures Value() == if ok then old(Value()).(state := Next(old(state), event).value) else old(Value())
    {
      var next := Next(state, event);
      if next.None? {
        return false;
      }
      state := next.value;
      return true;
    }

    method Accept(id: string) returns (ok: bool)
      modifies `state, `venueOrderId
      ensures ok <==> old(state).PendingSubmit?
      ensures Value() == if ok then old(Value()).(state := Open, venueOrderId := Some(id)) else old(Value())
    {
      ok := Apply(Accepted);
      if ok {
        venueOrderId := Some(id);
      }
    }

    method ApplyFill(quantity: real) returns (error: Option<FillError>)
      modifies `state, `filled
      ensures error == FillRefusal(old(Value()), quantity)
      ensures Value() == if error.None? then AfterFill(old(Value()), quantity) else old(Value())
    {
      if quantity <= 0.0 {
        return Some(NonPositive);
      }
      if !(state.Open? || state.PartiallyFilled? || state.PendingCancel?) {
        return Some(IllegalState);
      }
      var nextFilled := filled + quantity;
      if nextFilled > requested {
        return Some(Overfill);
      }
      filled := nextFilled;
      state := if nextFilled == requested then Filled else PartiallyFilled;
      return None;
    }
  }

  // ---------------------------------------------------------------- runs of one order

  datatype Input = Event(event: OrderEvent) | Fill(quantity: real)

  function After(o: Order, input: Input): Order {
    match input
    case Event(event) =>
      var next := Next(o.state, event);
      if next.Some? then o.(state := next.value) else o
    case Fill(quantity) => if FillRefusal(o, quantity).None? then AfterFill(o, quantity) else o
  }

  function Run(o: Order, inputs: seq<Input>): Order {
    if inputs == [] then o else After(Run(o, inputs[..|inputs| - 1]), inputs[|inputs| - 1])
  }

  /** How much is filled in each state. */
  predicate Balanced(o: Order) {
    && 0.0 <= o.filled <= o.requested && o.requested > 0.0
    && (o.state.Filled? <==> o.filled == o.requested)
    && (o.state.PartiallyFilled? ==> 0.0 < o.filled)
    && (o.state.Created? || o.state.PendingSubmit? || o.state.Open? || o.state.Rejected? ==> o.filled == 0.0)
  }

  /** The quantities of the fills a run accepted. */
  function FillsAccepted(o: Order, inputs: seq<Input>): real {
    if inputs == [] then 0.0
    else
      var n := |inputs| - 1;
      var before := FillsAccepted(o, inputs[..n]);
      if inputs[n].Fill? && FillRefusal(Run(o, inputs[..n]), inputs[n].quantity).None? then before + inputs[n].quantity
      else before
  }

  predicate Fresh(o: Order) {
    o.state.Created? && o.filled == 0.0 && o.requested > 0.0
  }

  /** Over every run of a new record, the filled quantity is the sum of the accepted fills,
      never exceeds the request, and completes the order exactly when it reaches it. */
  lemma {:induction false} RunsAreBalanced(o: Order, inputs: seq<Input>)
    requires Fresh(o)
    ensures Balanced(Run(o, inputs))
    ensures Run(o, inputs).filled == FillsAccepted(o, inputs)
    ensures Run(o, inputs).requested == o.requested
  {
    if inputs != [] {
      RunsAreBalanced(o, inputs[..|inputs| - 1]);
    }
  }

  /** A terminal record never changes again, and no transition leaves `Unknown`: only a new
      record from reconciliation can resolve it. */
  lemma {:induction false} TerminalAndUnknownAreFinal(o: Order, inputs: seq<Input>)
    requires IsTerminal(o) || o.state.Unknown?
    ensures Run(o, inputs) == o
  {
    if inputs != [] {
      TerminalAndUnknownAreFinal(o, inputs[..|inputs| - 1]);
    }
  }

  /** The run contains this event. */
  ghost predicate Saw(inputs: seq<Input>, event: OrderEvent) {
    exists i :: 0 <= i < |inputs| && inputs[i] == Event(event)
  }

  lemma SawBefore(inputs: seq<Input>, event: OrderEvent)
    requires inputs != []
    ensures Saw(inputs, event) <==> Saw(inputs[..|inputs| - 1], event) || inputs[|inputs| - 1] == Event(event)
  {
    var n := |inputs| - 1;
    if Saw(inputs[..n], event) {
      var i :| 0 <= i < n && inputs[..n][i] == Event(event);
      assert inputs[i] == Event(event);
    }
    if Saw(inputs, event) && inputs[n] != Event(event) {
      var i :| 0 <= i < |inputs| && inputs[i] == Event(event);
      assert inputs[..n][i] == Event(event);
    }
    if inputs[n] == Event(event) {
      assert Saw(inputs, event);
    }
  }

  /** No state without its cause: an order is pending only once submitted, at the venue only once
      accepted, and canceled, rejected or unknown only once that was told; and a new order that is
      submitted first has left its first state. */
  lemma {:induction false} StatesHaveCauses(o: Order, inputs: seq<Input>)
    requires Fresh(o)
    ensures var state := Run(o, inputs).state;
            && (!state.Created? <==> Saw(inputs, SubmitRequested))
            && (state.Open? || state.PartiallyFilled? || state.Filled? || state.PendingCancel? || state.Canceled?
                ==> Saw(inputs, Accepted))
            && (state.PendingCancel? ==> Saw(inputs, CancelRequested))
            && (state.Canceled? ==> Saw(inputs, CancelConfirmed))
            && (state.Rejected? ==> Saw(inputs, RejectedByVenue))
            && (state.Unknown? ==> Saw(inputs, LostState))
  {
    if inputs != [] {
      StatesHaveCauses(o, inputs[..|inputs| - 1]);
      forall event ensures Saw(inputs, event)
        <==> Saw(inputs[..|inputs| - 1], event) || inputs[|inputs| - 1] == Event(event) {
        SawBefore(inputs, event);
      }
    }
  }

  /** A submitted order can be accepted, rejected or lost; an accepted one can be canceled in one
      step or two, filled or lost; nothing else is possible. */
  lemma LegalTransitions(from: OrderState, event: OrderEvent, to: OrderState)
    ensures Next(from, event) == Some(to) <==>
      || (from, event, to) in {(Created, SubmitRequested, PendingSubmit), (PendingSubmit, Accepted, Open),
                               (PendingSubmit, RejectedByVenue, Rejected)}
      || (from in {Open, PartiallyFilled} && event == CancelRequested && to == PendingCancel)
      || (from in {Open, PartiallyFilled, PendingCancel} && event == CancelConfirmed && to == Canceled)
      || (from in {PendingSubmit, Open, PartiallyFilled, PendingCancel} && event == LostState && to == Unknown)
  {
  }

  /** A fill is accepted exactly when it is positive, the order is at the venue and not yet done,
      and it fits in what was requested. */
  lemma FillsAreTaken(o: Order, quantity: real)
    requires Balanced(o)
    ensures FillRefusal(o, quantity).None?
       <==> 0.0 < quantity <= o.requested - o.filled && o.state in {Open, PartiallyFilled, PendingCancel}
    ensures FillRefusal(o, quantity).None? ==>
              && AfterFill(o, quantity).filled == o.filled + quantity
              && (AfterFill(o, quantity).state == if quantity == o.requested - o.filled then Filled else PartiallyFilled)
  {
  }
}
