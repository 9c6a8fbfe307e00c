/** The fail-closed gate of fetched trade history, proved against what complete evidence
    has to be. */
module HistoryReconcile {
  import opened Common
  import opened Execution
  import opened TradeHistory

  // ---------------------------------------------------------------- what is to be checked

  /** Trades that can follow the anchor: ascending, owned, and never beyond what an order
      is known to have filled. */
  ghost predicate Good(anchor: int, trades: seq<UmTrade>, orders: seq<OwnedSnapshot>) {
    AscendingFrom(anchor, trades) && AllOwned(trades, orders) && NeverOverfills(trades, orders)
  }

  /** What the fetched evidence has to be, with no mention of how it is checked. */
  ghost predicate CompleteHistory(anchor: u64, pages: seq<TradePage>, orders: seq<OwnedSnapshot>) {
    && anchor != 0
    && 0 < |pages| <= MAX_PAGES
    && pages[|pages| - 1].shortPage
    && |orders| <= MAX_TRADES
    && ConsistentOrders(orders)
    && (forall k :: 0 <= k < |pages| ==> PageShape(anchor, pages, k))
    && AscendingFrom(anchor, Flat(pages))
    && AllOwned(Flat(pages), orders)
    && FillsConserved(Flat(pages), orders)
  }

  /** Trade `k` is the first refused one, and `error` says why. */
  ghost predicate FaultAt(anchor: int, trades: seq<UmTrade>, orders: seq<OwnedSnapshot>, k: nat, error: HistoryGateError) {
    && k < |trades|
    && Good(anchor, trades[..k], orders)
    && match error
       case DuplicateTrade => trades[k].tradeId < CursorAfter(anchor, trades[..k])
       case UnownedTrade => trades[k].tradeId >= CursorAfter(anchor, trades[..k]) && !OwnerIn(trades[k], orders)
       case FillMismatch =>
         && trades[k].tradeId >= CursorAfter(anchor, trades[..k])
         && OwnerIn(trades[k], orders)
         && Overfills(trades[..k], trades[k], orders)
       case _ => false
  }

  /** `t` takes its order beyond the snapshot's filled quantity. */
  ghost predicate Overfills(trades: seq<UmTrade>, t: UmTrade, orders: seq<OwnedSnapshot>) {
    exists i :: 0 <= i < |orders| && orders[i].owner.venueOrderId == t.venueOrderId
                && Traded(trades, t.venueOrderId) + t.quantity > orders[i].snapshot.filled
  }

  /** Each refusal names a defect the evidence really has. */
  ghost predicate Justified(error: HistoryGateError, anchor: u64, pages: seq<TradePage>, orders: seq<OwnedSnapshot>) {
    match error
    case MissingAnchor => anchor == 0
    case IncompletePagination =>
      || pages == [] || !pages[|pages| - 1].shortPage
      || exists k :: 0 <= k < |pages| - 1 && (pages[k].shortPage || pages[k].trades == [])
    case ResourceLimit =>
      || |pages| > MAX_PAGES || |orders| > MAX_TRADES
      || exists k :: 0 <= k < |pages| && (|pages[k].trades| > 1000 || |Flat(pages[..k + 1])| > MAX_TRADES)
    case ConflictingOrder => !ConsistentOrders(orders)
    case InvalidCursor =>
      exists k :: 0 <= k < |pages|
        && (CursorAfter(anchor, Flat(pages[..k + 1])) > U64_MAX
            || pages[k].nextFromId != Some(CursorAfter(anchor, Flat(pages[..k + 1]))))
    case FillMismatch =>
      || (Good(anchor, Flat(pages), orders) && !FillsConserved(Flat(pages), orders))
      || exists k :: FaultAt(anchor, Flat(pages), orders, k, error)
    case _ => exists k :: FaultAt(anchor, Flat(pages), orders, k, error)
  }

  function DurableIdOf(venueOrderId: string, orders: seq<OwnedSnapshot>): string {
    if orders == [] then ""
    else if orders[|orders| - 1].owner.venueOrderId == venueOrderId then orders[|orders| - 1].owner.clientOrderId
    else DurableIdOf(venueOrderId, orders[..|orders| - 1])
  }

  /** Each trade under the durable identity of the order that owns it. */
  function Attributed(trades: seq<UmTrade>, orders: seq<OwnedSnapshot>): seq<VerifiedTrade> {
    seq(|trades|, i requires 0 <= i < |trades| => VerifiedTrade(DurableIdOf(trades[i].venueOrderId, orders), trades[i]))
  }

  // ---------------------------------------------------------------- the checking loops

  /** The lookup tables hold exactly the first `k` orders; `at` and `client` locate them. */
  ghost predicate Indexed(orders: seq<OwnedSnapshot>, k: nat, byVenueId: map<string, OwnedOrder>,
                          requested: map<string, real>, at: map<string, nat>, client: map<string, nat>)
    requires k <= |orders|
  {
    && at.Keys == byVenueId.Keys && client.Keys == requested.Keys
    && (forall v :: v in byVenueId ==>
          at[v] < k && orders[at[v]].owner == byVenueId[v] && orders[at[v]].owner.venueOrderId == v)
    && (forall c :: c in requested ==>
          client[c] < k && orders[client[c]].owner.clientOrderId == c && orders[client[c]].snapshot.filled == requested[c])
    && (forall i :: 0 <= i < k ==>
          && orders[i].owner.venueOrderId in byVenueId && at[orders[i].owner.venueOrderId] == i
          && orders[i].owner.clientOrderId in requested && client[orders[i].owner.clientOrderId] == i)
  }

  /** The running totals by client id are the quantities traded for each order. */
  ghost predicate Totals(orders: seq<OwnedSnapshot>, k: nat, cumulative: map<string, real>, flat: seq<UmTrade>)
    requires k <= |orders|
  {
    forall i :: 0 <= i < k ==>
      && orders[i].owner.clientOrderId in cumulative
      && cumulative[orders[i].owner.clientOrderId] == Traded(flat, orders[i].owner.venueOrderId)
  }

  lemma ConsistentStep(orders: seq<OwnedSnapshot>, k: nat, byVenueId: map<string, OwnedOrder>,
                       requested: map<string, real>, at: map<string, nat>, client: map<string, nat>)
    requires k < |orders| && Indexed(orders, k, byVenueId, requested, at, client) && ConsistentUpTo(orders, k)
    requires SnapshotAgrees(orders[k])
    requires orders[k].owner.venueOrderId !in byVenueId && orders[k].owner.clientOrderId !in requested
    ensures ConsistentUpTo(orders, k + 1)
  {
    forall i, j | 0 <= i < j < k + 1
      ensures && orders[i].owner.venueOrderId != orders[j].owner.venueOrderId
              && orders[i].owner.clientOrderId != orders[j].owner.clientOrderId
    {
      if j == k {
        assert orders[i].owner.venueOrderId in byVenueId && orders[i].owner.clientOrderId in requested;
      }
    }
  }

  lemma IndexedStep(orders: seq<OwnedSnapshot>, k: nat, byVenueId: map<string, OwnedOrder>,
                    requested: map<string, real>, at: map<string, nat>, client: map<string, nat>)
    requires k < |orders| && Indexed(orders, k, byVenueId, requested, at, client)
    requires orders[k].owner.venueOrderId !in byVenueId && orders[k].owner.clientOrderId !in requested
    ensures Indexed(orders, k + 1, byVenueId[orders[k].owner.venueOrderId := orders[k].owner],
                    requested[orders[k].owner.clientOrderId := orders[k].snapshot.filled],
                    at[orders[k].owner.venueOrderId := k], client[orders[k].owner.clientOrderId := k])
  {
  }

  lemma InconsistentAt(orders: seq<OwnedSnapshot>, i: nat, k: nat)
    requires k < |orders|
    requires || !SnapshotAgrees(orders[k])
             || (i < k && orders[i].owner.venueOrderId == orders[k].owner.venueOrderId)
             || (i < k && orders[i].owner.clientOrderId == orders[k].owner.clientOrderId)
    ensures !ConsistentOrders(orders)
  {
  }

  method IndexOrders(orders: seq<OwnedSnapshot>)
    returns (ok: bool, byVenueId: map<string, OwnedOrder>, requested: map<string, real>, cumulative: map<string, real>,
             ghost at: map<string, nat>, ghost client: map<string, nat>)
    ensures ok <==> ConsistentOrders(orders)
    ensures ok ==> Indexed(orders, |orders|, byVenueId, requested, at, client) && Totals(orders, |orders|, cumulative, [])
  {
    byVenueId, requested, cumulative, at, client := map[], map[], map[], map[], map[];
    for k := 0 to |orders|
      invariant Indexed(orders, k, byVenueId, requested, at, client)
      invariant ConsistentUpTo(orders, k)
      invariant Totals(orders, k, cumulative, [])
    {
      var o := orders[k];
      if !SnapshotAgrees(o) {
        InconsistentAt(orders, k, k);
        return false, byVenueId, requested, cumulative, at, client;
      }
      if o.owner.venueOrderId in byVenueId {
        InconsistentAt(orders, at[o.owner.venueOrderId], k);
        return false, byVenueId, requested, cumulative, at, client;
      }
      if o.owner.clientOrderId in requested {
        InconsistentAt(orders, client[o.owner.clientOrderId], k);
        return false, byVenueId, requested, cumulative, at, client;
      }
      ConsistentStep(orders, k, byVenueId, requested, at, client);
      IndexedStep(orders, k, byVenueId, requested, at, client);
      byVenueId := byVenueId[o.owner.venueOrderId := o.owner];
      requested := requested[o.owner.clientOrderId := o.snapshot.filled];
      cumulative := cumulative[o.owner.clientOrderId := 0.0];
      at, client := at[o.owner.venueOrderId := k], client[o.owner.clientOrderId := k];
    }
    ok := true;
  }

  lemma TradedStep(flat: seq<UmTrade>, t: UmTrade, v: string)
    ensures Traded(flat + [t], v) == Traded(flat, v) + if t.venueOrderId == v then t.quantity else 0.0
  {
    assert (flat + [t])[..|flat|] == flat;
  }

  /** The lookup decides ownership and the running total decides overfilling. */
  lemma LookupDecides(orders: seq<OwnedSnapshot>, byVenueId: map<string, OwnedOrder>, requested: map<string, real>,
                      at: map<string, nat>, client: map<string, nat>, t: UmTrade, flat: seq<UmTrade>)
    requires ConsistentOrders(orders) && Indexed(orders, |orders|, byVenueId, requested, at, client)
    ensures OwnerIn(t, orders) <==> t.venueOrderId in byVenueId && OwnedBy(t, byVenueId[t.venueOrderId])
    ensures t.venueOrderId in byVenueId ==>
              var owner := byVenueId[t.venueOrderId];
              && owner.clientOrderId in requested
              && at[t.venueOrderId] < |orders| && orders[at[t.venueOrderId]].owner == owner
              && (Overfills(flat, t, orders)
                  <==> Traded(flat, t.venueOrderId) + t.quantity > requested[owner.clientOrderId])
              && DurableIdOf(t.venueOrderId, orders) == owner.clientOrderId
  {
    if t.venueOrderId in byVenueId {
      var i := at[t.venueOrderId];
      assert orders[i].owner.venueOrderId == t.venueOrderId;
      DurableIdAt(orders, i);
    }
  }

  lemma {:induction false} DurableIdAt(orders: seq<OwnedSnapshot>, i: nat)
    requires i < |orders|
    requires forall a, b :: 0 <= a < b < |orders| ==> orders[a].owner.venueOrderId != orders[b].owner.venueOrderId
    ensures DurableIdOf(orders[i].owner.venueOrderId, orders) == orders[i].owner.clientOrderId
  {
    var n := |orders| - 1;
    if i < n {
      assert orders[i].owner.venueOrderId != orders[n].owner.venueOrderId;
      DurableIdAt(orders[..n], i);
    }
  }

  lemma TotalsStep(orders: seq<OwnedSnapshot>, cumulative: map<string, real>, flat: seq<UmTrade>, t: UmTrade, i: nat)
    requires ConsistentOrders(orders) && Totals(orders, |orders|, cumulative, flat)
    requires i < |orders| && orders[i].owner.venueOrderId == t.venueOrderId
    ensures var c := orders[i].owner.clientOrderId;
            && cumulative[c] == Traded(flat, t.venueOrderId)
            && Totals(orders, |orders|, cumulative[c := cumulative[c] + t.quantity], flat + [t])
  {
    var c := orders[i].owner.clientOrderId;
    var next := cumulative[c := cumulative[c] + t.quantity];
    forall j | 0 <= j < |orders|
      ensures && orders[j].owner.clientOrderId in next
              && next[orders[j].owner.clientOrderId] == Traded(flat + [t], orders[j].owner.venueOrderId)
    {
      TradedStep(flat, t, orders[j].owner.venueOrderId);
      assert j != i ==> orders[j].owner.venueOrderId != orders[i].owner.venueOrderId
                        && orders[j].owner.clientOrderId != orders[i].owner.clientOrderId;
    }
  }

  ghost predicate SeenIn(id: u64, trades: seq<UmTrade>) {
    exists i :: 0 <= i < |trades| && trades[i].tradeId == id
  }

  /** The loop's own tables: ids already seen, running totals, attributed trades. */
  ghost predicate Tracks(orders: seq<OwnedSnapshot>, flat: seq<UmTrade>, seen: set<u64>, cumulative: map<string, real>,
                         verified: seq<VerifiedTrade>)
  {
    && (forall id: u64 :: id in seen <==> SeenIn(id, flat))
    && Totals(orders, |orders|, cumulative, flat)
    && verified == Attributed(flat, orders)
  }

  lemma SeenStep(id: u64, flat: seq<UmTrade>, t: UmTrade)
    ensures SeenIn(id, flat + [t]) <==> SeenIn(id, flat) || id == t.tradeId
  {
    var next := flat + [t];
    if SeenIn(id, flat) {
      var k :| 0 <= k < |flat| && flat[k].tradeId == id;
      assert next[k].tradeId == id;
    }
    assert next[|flat|] == t;
    if SeenIn(id, next) && id != t.tradeId {
      var k :| 0 <= k < |next| && next[k].tradeId == id;
      assert flat[k].tradeId == id;
    }
  }

  lemma TracksStep(orders: seq<OwnedSnapshot>, flat: seq<UmTrade>, seen: set<u64>, cumulative: map<string, real>,
                   verified: seq<VerifiedTrade>, t: UmTrade, i: nat, durableId: string)
    requires ConsistentOrders(orders) && Tracks(orders, flat, seen, cumulative, verified)
    requires i < |orders| && orders[i].owner.venueOrderId == t.venueOrderId && orders[i].owner.clientOrderId == durableId
    requires DurableIdOf(t.venueOrderId, orders) == durableId
    ensures durableId in cumulative && cumulative[durableId] == Traded(flat, t.venueOrderId)
    ensures Tracks(orders, flat + [t], seen + {t.tradeId},
                   cumulative[durableId := cumulative[durableId] + t.quantity], verified + [VerifiedTrade(durableId, t)])
  {
    TotalsStep(orders, cumulative, flat, t, i);
    forall id: u64
      ensures id in seen + {t.tradeId} <==> SeenIn(id, flat + [t])
    {
      SeenStep(id, flat, t);
    }
    assert Attributed(flat + [t], orders) == Attributed(flat, orders) + [VerifiedTrade(durableId, t)];
  }

  // ---------------------------------------------------------------- one trade at a time

  lemma AscendingStep(anchor: int, trades: seq<UmTrade>, t: UmTrade)
    requires AscendingFrom(anchor, trades)
    ensures AscendingFrom(anchor, trades + [t]) <==> t.tradeId >= CursorAfter(anchor, trades)
  {
    var next := trades + [t];
    if AscendingFrom(anchor, next) {
      assert next[|trades|] == t;
      assert trades != [] ==> next[|trades| - 1].tradeId < next[|trades|].tradeId;
    }
  }

  lemma OverfillStep(trades: seq<UmTrade>, t: UmTrade, orders: seq<OwnedSnapshot>)
    requires NeverOverfills(trades, orders)
    ensures NeverOverfills(trades + [t], orders) <==> !Overfills(trades, t, orders)
  {
    var next := trades + [t];
    forall i | 0 <= i < |orders|
      ensures Traded(next, orders[i].owner.venueOrderId)
           == Traded(trades, orders[i].owner.venueOrderId)
              + if orders[i].owner.venueOrderId == t.venueOrderId then t.quantity else 0.0
    {
      TradedStep(trades, t, orders[i].owner.venueOrderId);
    }
    assert next[..|next|] == next && trades[..|trades|] == trades;
    if NeverOverfills(next, orders) {
      forall i | 0 <= i < |orders|
        ensures Traded(next, orders[i].owner.venueOrderId) <= orders[i].snapshot.filled
      {
        assert Traded(next[..|next|], orders[i].owner.venueOrderId) <= orders[i].snapshot.filled;
      }
    }
    if !Overfills(trades, t, orders) {
      forall k, i | 0 <= k <= |next| && 0 <= i < |orders|
        ensures Traded(next[..k], orders[i].owner.venueOrderId) <= orders[i].snapshot.filled
      {
        if k <= |trades| {
          assert next[..k] == trades[..k];
        } else {
          assert next[..k] == next;
          assert Traded(trades[..|trades|], orders[i].owner.venueOrderId) <= orders[i].snapshot.filled;
        }
      }
    }
  }

  lemma GoodStep(anchor: int, trades: seq<UmTrade>, t: UmTrade, orders: seq<OwnedSnapshot>)
    requires Good(anchor, trades, orders)
    ensures Good(anchor, trades + [t], orders)
       <==> t.tradeId >= CursorAfter(anchor, trades) && OwnerIn(t, orders) && !Overfills(trades, t, orders)
  {
    AscendingStep(anchor, trades, t);
    OverfillStep(trades, t, orders);
    var next := trades + [t];
    assert next[|trades|] == t;
    assert forall k :: 0 <= k < |trades| ==> next[k] == trades[k];
  }

  /** The set of seen ids never decides anything: an id past the cursor is new. */
  lemma SeenNeverMatters(anchor: int, trades: seq<UmTrade>, id: u64)
    requires AscendingFrom(anchor, trades) && id >= CursorAfter(anchor, trades)
    ensures !SeenIn(id, trades)
  {
  }

  lemma GoodPrefix(anchor: int, trades: seq<UmTrade>, orders: seq<OwnedSnapshot>, k: nat)
    requires Good(anchor, trades, orders) && k <= |trades|
    ensures Good(anchor, trades[..k], orders)
  {
    forall n, i | 0 <= n <= k && 0 <= i < |orders|
      ensures Traded(trades[..k][..n], orders[i].owner.venueOrderId) <= orders[i].snapshot.filled
    {
      assert trades[..k][..n] == trades[..n];
    }
  }

  lemma FaultIsFault(anchor: int, trades: seq<UmTrade>, orders: seq<OwnedSnapshot>, k: nat, error: HistoryGateError)
    requires FaultAt(anchor, trades, orders, k, error)
    ensures !Good(anchor, trades, orders)
  {
    if Good(anchor, trades, orders) {
      GoodPrefix(anchor, trades, orders, k + 1);
      assert trades[..k + 1] == trades[..k] + [trades[k]];
      GoodStep(anchor, trades[..k], trades[k], orders);
    }
  }

  // ---------------------------------------------------------------- positive quantities

  ghost predicate PositiveQuantities(trades: seq<UmTrade>) {
    forall i :: 0 <= i < |trades| ==> trades[i].quantity > 0.0
  }

  lemma {:induction false} TradedGrows(trades: seq<UmTrade>, k: nat, venueOrderId: string)
    requires PositiveQuantities(trades) && k <= |trades|
    ensures Traded(trades[..k], venueOrderId) <= Traded(trades, venueOrderId)
  {
    if k < |trades| {
      var front := trades[..|trades| - 1];
      assert front[..k] == trades[..k];
      TradedGrows(front, k, venueOrderId);
    } else {
      assert trades[..k] == trades;
    }
  }

  /** Decoded trades have positive quantities, and then the running overfill check never
      changes whether evidence is accepted: conservation already implies it. */
  lemma ConservationPreventsOverfills(trades: seq<UmTrade>, orders: seq<OwnedSnapshot>)
    requires PositiveQuantities(trades) && FillsConserved(trades, orders)
    ensures NeverOverfills(trades, orders)
  {
    forall k, i | 0 <= k <= |trades| && 0 <= i < |orders|
      ensures Traded(trades[..k], orders[i].owner.venueOrderId) <= orders[i].snapshot.filled
    {
      TradedGrows(trades, k, orders[i].owner.venueOrderId);
    }
  }

  /** In complete evidence every trade is attributed to exactly one order: a Binance order of the
      same symbol, side and venue id, whose snapshot tells the same, under its durable id of "pg"
      and 32 hex digits; and what that order traded in all is what its snapshot says was filled. */
  lemma VerifiedTradesHaveOneOrder(anchor: u64, pages: seq<TradePage>, orders: seq<OwnedSnapshot>, k: nat) returns (i: nat)
    requires CompleteHistory(anchor, pages, orders) && k < |Flat(pages)|
    ensures i < |orders|
    ensures var t, o, s := Flat(pages)[k], orders[i].owner, orders[i].snapshot;
            && Attributed(Flat(pages), orders)[k] == VerifiedTrade(o.clientOrderId, t)
            && o.venue == BinancePm && t.symbol == o.symbol == s.asset && t.side == o.side == s.side
            && t.venueOrderId == o.venueOrderId == s.venueOrderId && s.clientOrderId == Some(o.clientOrderId)
            && |o.clientOrderId| == 34 && o.clientOrderId[0] == 'p' && o.clientOrderId[1] == 'g'
            && (forall j :: 2 <= j < 34 ==> HexChar(o.clientOrderId[j]))
            && Traded(Flat(pages), t.venueOrderId) == s.filled <= s.requested
            && (forall j :: 0 <= j < |orders| && orders[j].owner.venueOrderId == t.venueOrderId ==> j == i)
  {
    assert OwnerIn(Flat(pages)[k], orders);
    i :| 0 <= i < |orders| && OwnedBy(Flat(pages)[k], orders[i].owner);
    DurableIdAt(orders, i);
    assert SnapshotAgrees(orders[i]);
  }

  // ---------------------------------------------------------------- the loops over pages and trades

  /** One trade: refused for the first reason that applies, or recorded in every table. */
  method TakeTrade(cursor: u64, trade: UmTrade, lastId: Option<u64>, byVenueId: map<string, OwnedOrder>,
                   requested: map<string, real>, seen0: set<u64>, cumulative0: map<string, real>,
                   verified0: seq<VerifiedTrade>,
                   ghost orders: seq<OwnedSnapshot>, ghost at: map<string, nat>, ghost client: map<string, nat>,
                   ghost anchor: int, ghost flat: seq<UmTrade>)
    returns (error: Option<HistoryGateError>, seen: set<u64>, cumulative: map<string, real>, verified: seq<VerifiedTrade>)
    requires ConsistentOrders(orders) && Indexed(orders, |orders|, byVenueId, requested, at, client)
    requires Tracks(orders, flat, seen0, cumulative0, verified0)
    requires Good(anchor, flat, orders) && cursor <= CursorAfter(anchor, flat)
    requires CursorAfter(anchor, flat) == if lastId.Some? then lastId.value + 1 else cursor
    ensures error.None? ==> && Good(anchor, flat + [trade], orders)
                            && Tracks(orders, flat + [trade], seen, cumulative, verified)
    ensures error.None? ==> cursor <= CursorAfter(anchor, flat + [trade]) == trade.tradeId + 1
    ensures error.Some? ==> FaultAt(anchor, flat + [trade], orders, |flat|, error.value)
  {
    error, seen, cumulative, verified := None, seen0, cumulative0, verified0;
    GoodStep(anchor, flat, trade, orders);
    LookupDecides(orders, byVenueId, requested, at, client, trade, flat);
    assert (flat + [trade])[..|flat|] == flat && (flat + [trade])[|flat|] == trade;
    if trade.tradeId >= CursorAfter(anchor, flat) {
      SeenNeverMatters(anchor, flat, trade.tradeId);
    }
    if trade.tradeId < cursor || (lastId.Some? && trade.tradeId <= lastId.value) || trade.tradeId in seen {
      error := Some(DuplicateTrade);
      return;
    }
    if trade.venueOrderId !in byVenueId || !OwnedBy(trade, byVenueId[trade.venueOrderId]) {
      error := Some(UnownedTrade);
      return;
    }
    var durableId := byVenueId[trade.venueOrderId].clientOrderId;
    TracksStep(orders, flat, seen, cumulative, verified, trade, at[trade.venueOrderId], durableId);
    if cumulative[durableId] + trade.quantity > requested[durableId] {
      error := Some(FillMismatch);
      return;
    }
    seen := seen + {trade.tradeId};
    cumulative := cumulative[durableId := cumulative[durableId] + trade.quantity];
    verified := verified + [VerifiedTrade(durableId, trade)];
  }

  lemma FaultSpreads(anchor: int, trades: seq<UmTrade>, more: seq<UmTrade>, orders: seq<OwnedSnapshot>, k: nat,
                     error: HistoryGateError)
    requires FaultAt(anchor, trades, orders, k, error)
    ensures FaultAt(anchor, trades + more, orders, k, error)
  {
    assert (trades + more)[..k] == trades[..k];
  }

  lemma TakeOneMore<T>(before: seq<T>, s: seq<T>, k: nat)
    requires k < |s|
    ensures before + s[..k + 1] == before + s[..k] + [s[k]]
    ensures before + s[..k] + [s[k]] + s[k + 1..] == before + s
  {
  }

  /** The inner loop over one page's trades. */
  method CheckTrades(cursor: u64, trades: seq<UmTrade>, byVenueId: map<string, OwnedOrder>, requested: map<string, real>,
                     seen0: set<u64>, cumulative0: map<string, real>, verified0: seq<VerifiedTrade>,
                     ghost orders: seq<OwnedSnapshot>, ghost at: map<string, nat>, ghost client: map<string, nat>,
                     ghost anchor: int, ghost before: seq<UmTrade>)
    returns (error: Option<HistoryGateError>, seen: set<u64>, cumulative: map<string, real>,
             verified: seq<VerifiedTrade>, lastId: Option<u64>, ghost fault: nat)
    requires ConsistentOrders(orders) && Indexed(orders, |orders|, byVenueId, requested, at, client)
    requires Tracks(orders, before, seen0, cumulative0, verified0)
    requires Good(anchor, before, orders) && cursor == CursorAfter(anchor, before)
    ensures error.Some? ==> FaultAt(anchor, before + trades, orders, fault, error.value)
    ensures error.None? ==> && Good(anchor, before + trades, orders)
                            && Tracks(orders, before + trades, seen, cumulative, verified)
                            && CursorAfter(anchor, before + trades) == if lastId.Some? then lastId.value + 1 else cursor
  {
    error, seen, cumulative, verified, lastId, fault := None, seen0, cumulative0, verified0, None, 0;
    ghost var flat := before;
    for k := 0 to |trades|
      invariant flat == before + trades[..k] && error.None?
      invariant Good(anchor, flat, orders)
      invariant Tracks(orders, flat, seen, cumulative, verified)
      invariant cursor <= CursorAfter(anchor, flat)
      invariant CursorAfter(anchor, flat) == if lastId.Some? then lastId.value + 1 else cursor
    {
      var trade := trades[k];
      error, seen, cumulative, verified :=
        TakeTrade(cursor, trade, lastId, byVenueId, requested, seen, cumulative, verified, orders, at, client, anchor, flat);
      TakeOneMore(before, trades, k);
      if error.Some? {
        FaultSpreads(anchor, flat + [trade], trades[k + 1..], orders, |flat|, error.value);
        fault := |flat|;
        return;
      }
      flat := flat + [trade];
      lastId := Some(trade.tradeId);
    }
    assert trades[..|trades|] == trades;
  }

  lemma {:induction false} FlatSplits(pages: seq<TradePage>, k: nat)
    requires k < |pages|
    ensures Flat(pages[..k + 1]) == Flat(pages[..k]) + pages[k].trades
    ensures |Flat(pages[..k + 1])| <= |Flat(pages)| && Flat(pages[..k + 1]) == Flat(pages)[..|Flat(pages[..k + 1])|]
    decreases |pages|
  {
    assert pages[..k + 1][..k] == pages[..k];
    if k + 1 < |pages| {
      var front := pages[..|pages| - 1];
      assert front[..k + 1] == pages[..k + 1] && front[..k] == pages[..k];
      FlatSplits(front, k);
    } else {
      assert pages[..k + 1] == pages;
    }
  }

  /** A badly shaped page is a defect of the evidence. */
  lemma ShapeFault(anchor: u64, pages: seq<TradePage>, k: nat, orders: seq<OwnedSnapshot>, error: HistoryGateError)
    requires k < |pages|
    requires match error
             case IncompletePagination => k + 1 < |pages| && (pages[k].shortPage || pages[k].trades == [])
             case ResourceLimit => |pages[k].trades| > 1000 || |Flat(pages[..k + 1])| > MAX_TRADES
             case InvalidCursor =>
               || CursorAfter(anchor, Flat(pages[..k + 1])) > U64_MAX
               || pages[k].nextFromId != Some(CursorAfter(anchor, Flat(pages[..k + 1])))
             case _ => false
    ensures Justified(error, anchor, pages, orders) && !Sound(anchor, pages, |pages|, orders)
  {
    assert !PageShape(anchor, pages, k);
  }

  lemma SoundNext(anchor: u64, pages: seq<TradePage>, k: nat, orders: seq<OwnedSnapshot>)
    requires k < |pages| && Sound(anchor, pages, k, orders)
    requires PageShape(anchor, pages, k) && Good(anchor, Flat(pages[..k + 1]), orders)
    ensures Sound(anchor, pages, k + 1, orders)
  {
  }

  /** The cursor a page must announce, given its last id, or the refusal. */
  method NextCursor(page: TradePage, cursor: u64, lastId: Option<u64>, ghost next: int) returns (expected: Option<u64>)
    requires next == if lastId.Some? then lastId.value + 1 else cursor
    ensures expected.Some? <==> next <= U64_MAX && page.nextFromId == Some(next)
    ensures expected.Some? ==> expected.value == next
  {
    if lastId.Some? && lastId.value == U64_MAX {
      return None;
    }
    var expectedNext: u64 := if lastId.Some? then lastId.value + 1 else cursor;
    return if page.nextFromId == Some(expectedNext) then Some(expectedNext) else None;
  }

  /** The verified conclusion of the page loop: every page well-shaped, every trade good. */
  method CheckPages(anchor: u64, pages: seq<TradePage>, byVenueId: map<string, OwnedOrder>, requested: map<string, real>,
                    cumulative0: map<string, real>,
                    ghost orders: seq<OwnedSnapshot>, ghost at: map<string, nat>, ghost client: map<string, nat>)
    returns (error: Option<HistoryGateError>, cursor: u64, cumulative: map<string, real>, verified: seq<VerifiedTrade>)
    requires ConsistentOrders(orders) && Indexed(orders, |orders|, byVenueId, requested, at, client)
    requires Totals(orders, |orders|, cumulative0, [])
    ensures error.Some? ==> Justified(error.value, anchor, pages, orders) && !Sound(anchor, pages, |pages|, orders)
    ensures error.None? ==> && Sound(anchor, pages, |pages|, orders)
                            && cursor == CursorAfter(anchor, Flat(pages))
                            && Totals(orders, |orders|, cumulative, Flat(pages))
                            && verified == Attributed(Flat(pages), orders)
  {
    error, cursor, cumulative, verified := None, anchor, cumulative0, [];
    var seen: set<u64> := {};
    ghost var flat: seq<UmTrade> := [];
    for index := 0 to |pages|
      invariant error.None? && flat == Flat(pages[..index])
      invariant Sound(anchor, pages, index, orders)
      invariant cursor == CursorAfter(anchor, flat)
      invariant Tracks(orders, flat, seen, cumulative, verified)
    {
      var page := pages[index];
      FlatSplits(pages, index);
      if index + 1 != |pages| && (page.shortPage || page.trades == []) {
        ShapeFault(anchor, pages, index, orders, IncompletePagination);
        return Some(IncompletePagination), cursor, cumulative, verified;
      }
      if |page.trades| > 1000 || |verified| + |page.trades| > MAX_TRADES {
        ShapeFault(anchor, pages, index, orders, ResourceLimit);
        return Some(ResourceLimit), cursor, cumulative, verified;
      }
      var failed, lastId;
      ghost var fault;
      failed, seen, cumulative, verified, lastId, fault :=
        CheckTrades(cursor, page.trades, byVenueId, requested, seen, cumulative, verified,
                    orders, at, client, anchor, flat);
      if failed.Some? {
        FaultInPages(anchor, pages, index, orders, fault, failed.value);
        return failed, cursor, cumulative, verified;
      }
      flat := flat + page.trades;
      var expected := NextCursor(page, cursor, lastId, CursorAfter(anchor, flat));
      if expected.None? {
        ShapeFault(anchor, pages, index, orders, InvalidCursor);
        return Some(InvalidCursor), cursor, cumulative, verified;
      }
      SoundNext(anchor, pages, index, orders);
      cursor := expected.value;
    }
    assert pages[..|pages|] == pages;
  }

  /** The first `k` pages are well-shaped and their trades good. */
  ghost predicate Sound(anchor: int, pages: seq<TradePage>, k: nat, orders: seq<OwnedSnapshot>)
    requires k <= |pages|
  {
    && (forall i :: 0 <= i < k ==> PageShape(anchor, pages, i))
    && Good(anchor, Flat(pages[..k]), orders)
  }

  lemma FaultInPages(anchor: u64, pages: seq<TradePage>, k: nat, orders: seq<OwnedSnapshot>, fault: nat,
                     error: HistoryGateError)
    requires k < |pages| && FaultAt(anchor, Flat(pages[..k + 1]), orders, fault, error)
    ensures Justified(error, anchor, pages, orders) && !Sound(anchor, pages, |pages|, orders)
  {
    FlatSplits(pages, k);
    var head := Flat(pages[..k + 1]);
    assert Flat(pages) == head + Flat(pages)[|head|..];
    FaultSpreads(anchor, head, Flat(pages)[|head|..], orders, fault, error);
    FaultIsFault(anchor, Flat(pages), orders, fault, error);
    assert pages[..|pages|] == pages;
  }

  /** The final loop over the requested quantities. */
  method CheckTotals(requested: map<string, real>, cumulative: map<string, real>, orders: seq<OwnedSnapshot>,
                     ghost flat: seq<UmTrade>)
    returns (ok: bool)
    requires Totals(orders, |orders|, cumulative, flat)
    requires forall i :: 0 <= i < |orders| ==>
      && orders[i].owner.clientOrderId in requested
      && requested[orders[i].owner.clientOrderId] == orders[i].snapshot.filled
    ensures ok <==> FillsConserved(flat, orders)
  {
    for i := 0 to |orders|
      invariant forall j :: 0 <= j < i ==> Traded(flat, orders[j].owner.venueOrderId) == orders[j].snapshot.filled
    {
      var id := orders[i].owner.clientOrderId;
      if cumulative[id] != requested[id] {
        return false;
      }
    }
    return true;
  }

  lemma RequestedIsFilled(orders: seq<OwnedSnapshot>, byVenueId: map<string, OwnedOrder>, requested: map<string, real>,
                          at: map<string, nat>, client: map<string, nat>)
    requires Indexed(orders, |orders|, byVenueId, requested, at, client)
    ensures forall i :: 0 <= i < |orders| ==>
      && orders[i].owner.clientOrderId in requested
      && requested[orders[i].owner.clientOrderId] == orders[i].snapshot.filled
  {
  }

  /** Accepts exactly complete evidence, returns exactly its trades, and refuses only for a
      defect that is there. */
  method VerifyTradeHistory(anchor: u64, pages: seq<TradePage>, orders: seq<OwnedSnapshot>)
    returns (r: Result<VerifiedHistory, HistoryGateError>)
    ensures r.Ok? <==> CompleteHistory(anchor, pages, orders) && NeverOverfills(Flat(pages), orders)
    ensures PositiveQuantities(Flat(pages)) ==> (r.Ok? <==> CompleteHistory(anchor, pages, orders))
    ensures r.Ok? ==> && CursorAfter(anchor, Flat(pages)) == r.value.nextFromId
                      && r.value.anchoredFromId == anchor
                      && r.value.trades == Attributed(Flat(pages), orders)
    ensures r.Err? ==> Justified(r.error, anchor, pages, orders)
  {
    if PositiveQuantities(Flat(pages)) && FillsConserved(Flat(pages), orders) {
      ConservationPreventsOverfills(Flat(pages), orders);
    }
    if anchor == 0 {
      return Err(MissingAnchor);
    }
    if pages == [] || !pages[|pages| - 1].shortPage {
      return Err(IncompletePagination);
    }
    if |pages| > MAX_PAGES || |orders| > MAX_TRADES {
      return Err(ResourceLimit);
    }
    var ok, byVenueId, requested, cumulative, at, client := IndexOrders(orders);
    if !ok {
      return Err(ConflictingOrder);
    }
    var error, cursor, totals, verified := CheckPages(anchor, pages, byVenueId, requested, cumulative, orders, at, client);
    assert pages[..|pages|] == pages;
    if error.Some? {
      return Err(error.value);
    }
    RequestedIsFilled(orders, byVenueId, requested, at, client);
    var conserved := CheckTotals(requested, totals, orders, Flat(pages));
    if !conserved {
      return Err(FillMismatch);
    }
    return Ok(VerifiedHistory(anchor, cursor, verified));
  }
}
