/** The daemon's position view, rebuilt from the durable fills of one asset. Decimals are
    reals; the sign bit of a signed fill quantity is the side when the quantity is not
    negative, and the opposite otherwise. */
module PositionBasis {
  import opened Common
  import opened Execution
  import ShadowVenue

  datatype Fill = Fill(venueFillId: string, clientOrderId: string, side: Side, quantity: real, price: real)

  /** The exposure effect of each durable order; an order may have none recorded. */
  type Effects = map<string, Option<Effect>>

  datatype View = View(
    netQuantity: real, average: Option<real>, filledEntries: u32, unrealizedReturn: Option<real>, peakReturn: Option<real>)

  datatype BasisError =
    | UnavailableOrder
    | CrossingIncrease
    | ImpossibleReduction
    | NoEffect
    | QuantityMismatch
    | TooManyEntries
    | DivisionByZero  // a panic of the decimal type

  datatype Basis = Basis(net: real, average: Option<real>, entryOrders: set<string>)

  const EMPTY := Basis(0.0, None, {})

  predicate SignPositive(quantity: real, side: Side) {
    side.Buy? <==> quantity >= 0.0
  }

  function Increased(b: Basis, fill: Fill): Result<Basis, BasisError> {
    var nextAbs := Abs(b.net) + fill.quantity;
    if b.net != 0.0 && (b.net > 0.0) != SignPositive(fill.quantity, fill.side) then Err(CrossingIncrease)
    else if b.average.Some? && b.net != 0.0 && nextAbs == 0.0 then Err(DivisionByZero)
    else
      var average := if b.average.Some? && b.net != 0.0
                     then WeightedPrice(b.average.value, Abs(b.net), fill.price, fill.quantity, nextAbs)
                     else fill.price;
      Ok(Basis(b.net + Signed(fill.quantity, fill.side), Some(average), b.entryOrders + {fill.clientOrderId}))
  }

  function Reduced(b: Basis, fill: Fill): Result<Basis, BasisError> {
    if || b.net == 0.0 || (b.net > 0.0) == SignPositive(fill.quantity, fill.side) || fill.quantity > Abs(b.net)
    then Err(ImpossibleReduction)
    else
      var net := b.net + Signed(fill.quantity, fill.side);
      if net == 0.0 then Ok(EMPTY) else Ok(b.(net := net))
  }

  function Step(b: Basis, fill: Fill, effects: Effects): Result<Basis, BasisError> {
    if fill.clientOrderId !in effects then Err(UnavailableOrder)
    else
      match effects[fill.clientOrderId]
      case None => Err(NoEffect)
      case Some(Increase) => Increased(b, fill)
      case Some(ReduceOnly) => Reduced(b, fill)
  }

  function Fold(fills: seq<Fill>, effects: Effects): Result<Basis, BasisError> {
    if fills == [] then Ok(EMPTY)
    else
      var front := Fold(fills[..|fills| - 1], effects);
      if front.Err? then front else Step(front.value, fills[|fills| - 1], effects)
  }

  function Conclude(folded: Result<Basis, BasisError>, reconciled: real): Result<View, BasisError> {
    if folded.Err? then Err(folded.error)
    else if folded.value.net != reconciled then Err(QuantityMismatch)
    else if |folded.value.entryOrders| > U32_MAX then Err(TooManyEntries)
    else Ok(View(folded.value.net, folded.value.average, |folded.value.entryOrders|, None, None))
  }

  /** One iteration of the fold. */
  method ApplyOne(net0: real, average0: Option<real>, entryOrders0: set<string>, fill: Fill, effects: Effects)
    returns (error: Option<BasisError>, net: real, average: Option<real>, entryOrders: set<string>)
    ensures Step(Basis(net0, average0, entryOrders0), fill, effects)
         == if error.Some? then Err(error.value) else Ok(Basis(net, average, entryOrders))
  {
    error, net, average, entryOrders := None, net0, average0, entryOrders0;
    if fill.clientOrderId !in effects {
      error := Some(UnavailableOrder);
      return;
    }
    var signed := Signed(fill.quantity, fill.side);
    match effects[fill.clientOrderId]
    case Some(Increase) =>
      if net != 0.0 && (net > 0.0) != SignPositive(fill.quantity, fill.side) {
        error := Some(CrossingIncrease);
        return;
      }
      var nextAbs := Abs(net) + fill.quantity;
      if average.Some? && net != 0.0 {
        if nextAbs == 0.0 {
          error := Some(DivisionByZero);
          return;
        }
        average := Some(WeightedPrice(average.value, Abs(net), fill.price, fill.quantity, nextAbs));
      } else {
        average := Some(fill.price);
      }
      net := net + signed;
      entryOrders := entryOrders + {fill.clientOrderId};
    case Some(ReduceOnly) =>
      if net == 0.0 || (net > 0.0) == SignPositive(fill.quantity, fill.side) || fill.quantity > Abs(net) {
        error := Some(ImpossibleReduction);
        return;
      }
      net := net + signed;
      if net == 0.0 {
        average := None;
        entryOrders := {};
      }
    case None =>
      error := Some(NoEffect);
  }

  method PositionViewFromFills(reconciled: real, fills: seq<Fill>, effects: Effects) returns (r: Result<View, BasisError>)
    ensures r == Conclude(Fold(fills, effects), reconciled)
  {
    var net := 0.0;
    var average: Option<real> := None;
    var entryOrders: set<string> := {};
    for i := 0 to |fills|
      invariant Fold(fills[..i], effects) == Ok(Basis(net, average, entryOrders))
    {
      assert fills[..i + 1][..i] == fills[..i];
      var error;
      error, net, average, entryOrders := ApplyOne(net, average, entryOrders, fills[i], effects);
      if error.Some? {
        FoldFails(fills, i + 1, effects);
        return Err(error.value);
      }
    }
    assert fills[..|fills|] == fills;
    if net != reconciled {
      return Err(QuantityMismatch);
    }
    if |entryOrders| > U32_MAX {
      return Err(TooManyEntries);
    }
    return Ok(View(net, average, |entryOrders|, None, None));
  }

  lemma {:induction false} FoldFails(fills: seq<Fill>, k: nat, effects: Effects)
    requires k <= |fills| && Fold(fills[..k], effects).Err?
    ensures Fold(fills, effects) == Fold(fills[..k], effects)
  {
    if k < |fills| {
      assert fills[..|fills| - 1][..k] == fills[..k];
      FoldFails(fills[..|fills| - 1], k, effects);
    } else {
      assert fills[..k] == fills;
    }
  }

  // ---------------------------------------------------------------- meaning

  ghost predicate Positive(fills: seq<Fill>) {
    forall i :: 0 <= i < |fills| ==> fills[i].quantity > 0.0 && fills[i].price > 0.0
  }

  /** The signed sum of the fills. */
  function Net(fills: seq<Fill>): real {
    if fills == [] then 0.0
    else Net(fills[..|fills| - 1]) + Signed(fills[|fills| - 1].quantity, fills[|fills| - 1].side)
  }

  /** How many fills had been applied when the position was last flat. */
  function LastFlat(fills: seq<Fill>): (k: nat)
    ensures k <= |fills| && Net(fills[..k]) == 0.0
  {
    if Net(fills) == 0.0 then
      assert fills[..|fills|] == fills;
      |fills|
    else
      assert fills != [];
      var k := LastFlat(fills[..|fills| - 1]);
      assert fills[..|fills| - 1][..k] == fills[..k];
      k
  }

  predicate Increases(fill: Fill, effects: Effects) {
    fill.clientOrderId in effects && effects[fill.clientOrderId] == Some(Increase)
  }

  /** The increase orders that filled since the position was last flat. */
  ghost function EntryOrders(fills: seq<Fill>, effects: Effects): set<string> {
    set i | LastFlat(fills) <= i < |fills| && Increases(fills[i], effects) :: fills[i].clientOrderId
  }

  /** Every increase since last flat was priced within the bounds. */
  ghost predicate EntryPricesWithin(fills: seq<Fill>, effects: Effects, lo: real, hi: real) {
    forall i :: LastFlat(fills) <= i < |fills| && Increases(fills[i], effects) ==> lo <= fills[i].price <= hi
  }

  lemma LastFlatStep(fills: seq<Fill>)
    requires fills != []
    ensures LastFlat(fills) == if Net(fills) == 0.0 then |fills| else LastFlat(fills[..|fills| - 1])
  {
  }

  /** The fold keeps the signed sum, has an average exactly when exposed, and counts exactly
      the increase orders since last flat. */
  lemma {:induction false} FoldMeaning(fills: seq<Fill>, effects: Effects)
    requires Positive(fills) && Fold(fills, effects).Ok?
    ensures var b := Fold(fills, effects).value;
            && b.net == Net(fills)
            && (b.average.Some? <==> b.net != 0.0)
            && b.entryOrders == EntryOrders(fills, effects)
            && (b.net == 0.0 <==> b.entryOrders == {})
  {
    if fills != [] {
      var n := |fills| - 1;
      FoldMeaning(fills[..n], effects);
      LastFlatStep(fills);
      EntryOrdersStep(fills, effects);
    }
  }

  /** Fill `i` belongs to the current exposure and increased it under `id`. */
  ghost predicate EntersAt(fills: seq<Fill>, effects: Effects, start: nat, i: int, id: string) {
    start <= i < |fills| && Increases(fills[i], effects) && fills[i].clientOrderId == id
  }

  ghost predicate Enters(fills: seq<Fill>, effects: Effects, start: nat, id: string) {
    exists i :: EntersAt(fills, effects, start, i, id)
  }

  lemma EntryOrdersHas(fills: seq<Fill>, effects: Effects, id: string)
    ensures id in EntryOrders(fills, effects) <==> Enters(fills, effects, LastFlat(fills), id)
  {
    if id in EntryOrders(fills, effects) {
      var i :| LastFlat(fills) <= i < |fills| && Increases(fills[i], effects) && fills[i].clientOrderId == id;
      assert EntersAt(fills, effects, LastFlat(fills), i, id);
    }
  }

  lemma EntersStep(fills: seq<Fill>, effects: Effects, start: nat, id: string)
    requires fills != [] && start < |fills|
    ensures Enters(fills, effects, start, id)
       <==> Enters(fills[..|fills| - 1], effects, start, id) || EntersAt(fills, effects, start, |fills| - 1, id)
  {
    var front := fills[..|fills| - 1];
    if Enters(fills, effects, start, id) {
      var i :| EntersAt(fills, effects, start, i, id);
      if i < |front| {
        assert EntersAt(front, effects, start, i, id);
      }
    }
    if Enters(front, effects, start, id) {
      var i :| EntersAt(front, effects, start, i, id);
      assert EntersAt(fills, effects, start, i, id);
    }
  }

  lemma EntryOrdersStep(fills: seq<Fill>, effects: Effects)
    requires fills != []
    ensures var n := |fills| - 1;
            EntryOrders(fills, effects)
            == if Net(fills) == 0.0 then {}
               else EntryOrders(fills[..n], effects)
                    + (if Increases(fills[n], effects) then {fills[n].clientOrderId} else {})
  {
    LastFlatStep(fills);
    if Net(fills) != 0.0 {
      var n := |fills| - 1;
      var more := if Increases(fills[n], effects) then {fills[n].clientOrderId} else {};
      forall id
        ensures id in EntryOrders(fills, effects) <==> id in EntryOrders(fills[..n], effects) || id in more
      {
        EntryOrdersHas(fills, effects, id);
        EntryOrdersHas(fills[..n], effects, id);
        EntersStep(fills, effects, LastFlat(fills), id);
      }
    }
  }

  /** The average lies between the least and the greatest increase price since last flat. */
  lemma {:induction false} AverageBetweenEntryPrices(fills: seq<Fill>, effects: Effects, lo: real, hi: real)
    requires Positive(fills) && Fold(fills, effects).Ok? && Fold(fills, effects).value.average.Some?
    requires EntryPricesWithin(fills, effects, lo, hi)
    ensures lo <= Fold(fills, effects).value.average.value <= hi
  {
    var n := |fills| - 1;
    var front, last := fills[..n], fills[n];
    FoldMeaning(fills, effects);
    FoldMeaning(front, effects);
    LastFlatStep(fills);
    var b := Fold(front, effects).value;
    if b.average.Some? {
      assert EntryPricesWithin(front, effects, lo, hi);
      AverageBetweenEntryPrices(front, effects, lo, hi);
    }
    AverageStep(b, last, effects, lo, hi);
  }

  lemma AverageStep(b: Basis, fill: Fill, effects: Effects, lo: real, hi: real)
    requires fill.quantity > 0.0 && Step(b, fill, effects).Ok? && (b.average.Some? <==> b.net != 0.0)
    requires b.average.Some? ==> lo <= b.average.value <= hi
    requires Increases(fill, effects) ==> lo <= fill.price <= hi
    ensures var next := Step(b, fill, effects).value; next.average.Some? ==> lo <= next.average.value <= hi
  {
    if Increases(fill, effects) && b.average.Some? {
      WeightedPriceBetween(b.average.value, Abs(b.net), fill.price, fill.quantity, lo, hi);
    }
  }

  // ---------------------------------------------------------------- agreement with the shadow venue

  /** Folding the shadow venue's fill over the same list. */
  function ShadowFold(fills: seq<Fill>): ShadowVenue.Position {
    if fills == [] then ShadowVenue.FLAT
    else
      var last := fills[|fills| - 1];
      ShadowVenue.AfterFill(ShadowFold(fills[..|fills| - 1]), last.side, last.quantity, last.price)
  }

  lemma IncreaseAgrees(b: Basis, fill: Fill, p: ShadowVenue.Position)
    requires fill.quantity > 0.0 && fill.price > 0.0 && Increased(b, fill).Ok?
    requires p.net == b.net && p.average == b.average && (b.average.Some? <==> b.net != 0.0)
    ensures var q := ShadowVenue.AfterFill(p, fill.side, fill.quantity, fill.price);
            q.net == Increased(b, fill).value.net && q.average == Increased(b, fill).value.average
  {
    var delta := Signed(fill.quantity, fill.side);
    if b.net != 0.0 {
      assert Abs(b.net + delta) == Abs(b.net) + fill.quantity && Abs(delta) == fill.quantity;
    }
  }

  lemma ReduceAgrees(b: Basis, fill: Fill, p: ShadowVenue.Position)
    requires fill.quantity > 0.0 && fill.price > 0.0 && Reduced(b, fill).Ok?
    requires p.net == b.net && p.average == b.average && (b.average.Some? <==> b.net != 0.0)
    ensures var q := ShadowVenue.AfterFill(p, fill.side, fill.quantity, fill.price);
            q.net == Reduced(b, fill).value.net && q.average == Reduced(b, fill).value.average
  {
  }

  /** Two independent average-cost computations agree: whenever the daemon accepts a list of
      positive fills, the shadow venue ends with the same quantity and average. */
  lemma {:induction false} ShadowAgrees(fills: seq<Fill>, effects: Effects)
    requires Positive(fills) && Fold(fills, effects).Ok?
    ensures var b, p := Fold(fills, effects).value, ShadowFold(fills);
            p.net == b.net && p.average == b.average
  {
    if fills != [] {
      var n := |fills| - 1;
      var front, last := fills[..n], fills[n];
      ShadowAgrees(front, effects);
      FoldMeaning(front, effects);
      var b, p := Fold(front, effects).value, ShadowFold(front);
      if Increases(last, effects) {
        IncreaseAgrees(b, last, p);
      } else {
        ReduceAgrees(b, last, p);
      }
    }
  }

  // ---------------------------------------------------------------- cost basis

  /** How one fill changes the cost of a position: one that extends it adds its price times
      quantity, one that reduces it takes its share away, one that flattens it leaves nothing,
      and one that turns it around leaves the rest of itself. */
  function NextCost(net: real, cost: real, fill: Fill): real {
    var now := net + Signed(fill.quantity, fill.side);
    if now == 0.0 then 0.0
    else if net == 0.0 || (net > 0.0 <==> fill.side.Buy?) then cost + fill.price * fill.quantity
    else if net > 0.0 <==> now > 0.0 then cost * (Abs(now) / Abs(net))
    else fill.price * Abs(now)
  }

  /** What the open position has cost. No average occurs in this. */
  function CostBasis(fills: seq<Fill>): real {
    if fills == [] then 0.0
    else NextCost(Net(fills[..|fills| - 1]), CostBasis(fills[..|fills| - 1]), fills[|fills| - 1])
  }

  lemma ExtendCost(average: real, held: real, price: real, quantity: real)
    requires held > 0.0 && quantity > 0.0
    ensures WeightedPrice(average, held, price, quantity, held + quantity) * (held + quantity)
         == average * held + price * quantity
  {
    WeightedPriceCost(average, held, price, quantity, held + quantity);
  }

  lemma ReduceCost(average: real, held: real, rest: real)
    requires held > 0.0
    ensures average * rest == average * held * (rest / held)
  {
    assert rest / held * held == rest;
    assert average * held * (rest / held) == average * (rest / held * held);
  }

  /** The position's average times its size is this cost. */
  ghost predicate Costs(net: real, average: Option<real>, cost: real) {
    (average.Some? <==> net != 0.0) && (average.Some? ==> average.value * Abs(net) == cost)
  }

  /** One fill of the shadow venue moves the cost as the definition says. */
  ghost predicate MovesCost(p: ShadowVenue.Position, fill: Fill, cost: real) {
    var q := ShadowVenue.AfterFill(p, fill.side, fill.quantity, fill.price);
    q.net == p.net + Signed(fill.quantity, fill.side) && Costs(q.net, q.average, NextCost(p.net, cost, fill))
  }

  lemma ExtendingCosts(p: ShadowVenue.Position, fill: Fill, cost: real)
    requires fill.quantity > 0.0 && fill.price > 0.0 && Costs(p.net, p.average, cost)
    requires p.net != 0.0 && (p.net > 0.0 <==> fill.side.Buy?)
    ensures MovesCost(p, fill, cost)
  {
    var delta := Signed(fill.quantity, fill.side);
    assert Abs(p.net + delta) == Abs(p.net) + fill.quantity && Abs(delta) == fill.quantity;
    ExtendCost(p.average.value, Abs(p.net), fill.price, fill.quantity);
  }

  lemma ReducingCosts(p: ShadowVenue.Position, fill: Fill, cost: real)
    requires fill.quantity > 0.0 && fill.price > 0.0 && Costs(p.net, p.average, cost)
    requires var now := p.net + Signed(fill.quantity, fill.side);
             p.net != 0.0 && now != 0.0 && (p.net > 0.0 <==> fill.side.Sell?) && (p.net > 0.0 <==> now > 0.0)
    ensures MovesCost(p, fill, cost)
  {
    ReduceCost(p.average.value, Abs(p.net), Abs(p.net + Signed(fill.quantity, fill.side)));
  }

  lemma FlatteningCosts(p: ShadowVenue.Position, fill: Fill, cost: real)
    requires p.net + Signed(fill.quantity, fill.side) == 0.0
    ensures MovesCost(p, fill, cost)
  {
  }

  lemma OpeningCosts(p: ShadowVenue.Position, fill: Fill)
    requires fill.quantity > 0.0 && fill.price > 0.0 && p.net == 0.0
    ensures MovesCost(p, fill, 0.0)
  {
    var q := ShadowVenue.AfterFill(p, fill.side, fill.quantity, fill.price);
    assert q.average == Some(fill.price) && Abs(q.net) == fill.quantity;
  }

  lemma TurningCosts(p: ShadowVenue.Position, fill: Fill, cost: real)
    requires fill.quantity > 0.0 && fill.price > 0.0
    requires var now := p.net + Signed(fill.quantity, fill.side);
             p.net != 0.0 && now != 0.0 && (p.net > 0.0 <==> fill.side.Sell?) && (p.net > 0.0 <==> now < 0.0)
    ensures MovesCost(p, fill, cost)
  {
    var q := ShadowVenue.AfterFill(p, fill.side, fill.quantity, fill.price);
    assert q.average == Some(fill.price);
  }

  lemma ShadowFillCosts(p: ShadowVenue.Position, fill: Fill, cost: real)
    requires fill.quantity > 0.0 && fill.price > 0.0 && Costs(p.net, p.average, cost) && (p.net == 0.0 ==> cost == 0.0)
    ensures MovesCost(p, fill, cost)
  {
    var now := p.net + Signed(fill.quantity, fill.side);
    if now == 0.0 {
      FlatteningCosts(p, fill, cost);
    } else if p.net == 0.0 {
      OpeningCosts(p, fill);
    } else if p.net > 0.0 <==> fill.side.Buy? {
      ExtendingCosts(p, fill, cost);
    } else if p.net > 0.0 <==> now > 0.0 {
      ReducingCosts(p, fill, cost);
    } else {
      TurningCosts(p, fill, cost);
    }
  }

  /** On every list of positive fills, turning around included, the shadow venue's average times
      its position is the cost basis. */
  lemma {:induction false} ShadowAverageIsCostBasis(fills: seq<Fill>)
    requires Positive(fills)
    ensures var p := ShadowFold(fills);
            p.net == Net(fills) && Costs(p.net, p.average, CostBasis(fills)) && (p.net == 0.0 ==> CostBasis(fills) == 0.0)
  {
    if fills != [] {
      var n := |fills| - 1;
      ShadowAverageIsCostBasis(fills[..n]);
      ShadowFillCosts(ShadowFold(fills[..n]), fills[n], CostBasis(fills[..n]));
    }
  }

  /** The fills of an asset in a run of the shadow venue: one for each submit that adds an order,
      at the limit price, else the reference price, else zero. */
  ghost function FilledOn(config: ShadowVenue.Config, steps: seq<ShadowVenue.Step>, asset: string): seq<Fill> {
    if steps == [] then []
    else
      var front, last := steps[..|steps| - 1], steps[|steps| - 1];
      var grew := |ShadowVenue.Run(config, steps).orders| > |ShadowVenue.Run(config, front).orders|;
      if last.SubmitStep? && last.intent.asset == asset && grew && config.fillsImmediately then
        FilledOn(config, front, asset)
        + [Fill("", last.intent.clientOrderId, last.intent.side, last.intent.quantity,
                ShadowVenue.FillPrice(last.intent, last.reference))]
      else FilledOn(config, front, asset)
  }

  lemma StepFills(config: ShadowVenue.Config, book: ShadowVenue.Book, step: ShadowVenue.Step, asset: string)
    ensures var next := ShadowVenue.After(config, book, step);
            var before := ShadowVenue.PositionOf(book.positions, asset);
            ShadowVenue.PositionOf(next.positions, asset)
            == if step.SubmitStep? && step.intent.asset == asset && |next.orders| > |book.orders| && config.fillsImmediately
               then ShadowVenue.AfterFill(before, step.intent.side, step.intent.quantity,
                                          ShadowVenue.FillPrice(step.intent, step.reference))
               else before
  {
  }

  /** In every run of the shadow venue an asset's position is the fold of its fills. */
  lemma {:induction false} RunFolds(config: ShadowVenue.Config, steps: seq<ShadowVenue.Step>, asset: string)
    ensures ShadowVenue.PositionOf(ShadowVenue.Run(config, steps).positions, asset) == ShadowFold(FilledOn(config, steps, asset))
  {
    if steps != [] {
      var front, last := steps[..|steps| - 1], steps[|steps| - 1];
      RunFolds(config, front, asset);
      StepFills(config, ShadowVenue.Run(config, front), last, asset);
      ShadowFoldAppend(FilledOn(config, front, asset), FilledOn(config, steps, asset));
    }
  }

  lemma ShadowFoldAppend(front: seq<Fill>, fills: seq<Fill>)
    requires fills == front || (fills != [] && fills[..|fills| - 1] == front)
    ensures fills != front ==>
              var last := fills[|fills| - 1];
              ShadowFold(fills) == ShadowVenue.AfterFill(ShadowFold(front), last.side, last.quantity, last.price)
  {
  }

  /** So with priced orders the stored average times the stored position is the cost basis. */
  lemma RunAverageIsCostBasis(config: ShadowVenue.Config, steps: seq<ShadowVenue.Step>, asset: string)
    requires Positive(FilledOn(config, steps, asset))
    ensures var p := ShadowVenue.PositionOf(ShadowVenue.Run(config, steps).positions, asset);
            Costs(p.net, p.average, CostBasis(FilledOn(config, steps, asset)))
  {
    RunFolds(config, steps, asset);
    ShadowAverageIsCostBasis(FilledOn(config, steps, asset));
  }

  /** And so is the daemon's, on every list it accepts. */
  lemma DaemonAverageIsCostBasis(fills: seq<Fill>, effects: Effects)
    requires Positive(fills) && Fold(fills, effects).Ok?
    ensures var b := Fold(fills, effects).value;
            b.net == Net(fills) && Costs(b.net, b.average, CostBasis(fills))
  {
    FoldMeaning(fills, effects);
    ShadowAgrees(fills, effects);
    ShadowAverageIsCostBasis(fills);
  }

  /** The fill's order has a recorded effect and the fill has it: one that increases does not turn
      against the position, one that reduces takes its whole quantity off it. */
  ghost predicate Fits(net: real, fill: Fill, effects: Effects) {
    && fill.clientOrderId in effects
    && match effects[fill.clientOrderId]
       case None => false
       case Some(Increase) => Abs(net + Signed(fill.quantity, fill.side)) == Abs(net) + fill.quantity
       case Some(ReduceOnly) => Abs(net + Signed(fill.quantity, fill.side)) == Abs(net) - fill.quantity
  }

  ghost predicate AllFit(fills: seq<Fill>, effects: Effects) {
    forall k {:trigger fills[..k]} :: 0 <= k < |fills| ==> Fits(Net(fills[..k]), fills[k], effects)
  }

  lemma StepFits(b: Basis, fill: Fill, effects: Effects)
    requires fill.quantity > 0.0
    ensures Step(b, fill, effects).Ok? <==> Fits(b.net, fill, effects)
  {
  }

  lemma AllFitSnoc(fills: seq<Fill>, effects: Effects)
    requires fills != []
    ensures var n := |fills| - 1;
            AllFit(fills, effects) <==> AllFit(fills[..n], effects) && Fits(Net(fills[..n]), fills[n], effects)
  {
    var front := fills[..|fills| - 1];
    assert forall k :: 0 <= k < |front| ==> front[..k] == fills[..k] && front[k] == fills[k];
  }

  lemma {:induction false} FoldAcceptsExactly(fills: seq<Fill>, effects: Effects)
    requires Positive(fills)
    ensures Fold(fills, effects).Ok? <==> AllFit(fills, effects)
  {
    if fills != [] {
      var n := |fills| - 1;
      var front := fills[..n];
      FoldAcceptsExactly(front, effects);
      AllFitSnoc(fills, effects);
      if Fold(front, effects).Ok? {
        FoldMeaning(front, effects);
        StepFits(Fold(front, effects).value, fills[n], effects);
      }
    }
  }

  /** A view is accepted exactly when every fill has the effect of its order, the fills add up to
      the reconciled quantity and the entry orders can be counted in 32 bits. */
  lemma ViewAcceptedExactly(reconciled: real, fills: seq<Fill>, effects: Effects)
    requires Positive(fills)
    ensures Conclude(Fold(fills, effects), reconciled).Ok?
       <==> AllFit(fills, effects) && Net(fills) == reconciled && |EntryOrders(fills, effects)| < 0x1_0000_0000
  {
    FoldAcceptsExactly(fills, effects);
    if Fold(fills, effects).Ok? {
      FoldMeaning(fills, effects);
    }
  }

  /** What an accepted view says about the fills behind it. */
  lemma AcceptedViewIsFaithful(reconciled: real, fills: seq<Fill>, effects: Effects)
    requires Positive(fills) && Conclude(Fold(fills, effects), reconciled).Ok?
    ensures var v := Conclude(Fold(fills, effects), reconciled).value;
            && v.netQuantity == reconciled == Net(fills)
            && (v.average.Some? <==> v.netQuantity != 0.0)
            && v.filledEntries == |EntryOrders(fills, effects)|
            && Costs(v.netQuantity, v.average, CostBasis(fills))
            && v.netQuantity == ShadowFold(fills).net && v.average == ShadowFold(fills).average
  {
    FoldMeaning(fills, effects);
    ShadowAgrees(fills, effects);
    DaemonAverageIsCostBasis(fills, effects);
  }
}
