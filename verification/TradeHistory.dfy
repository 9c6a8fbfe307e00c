/** Signed trade history: the page decoder, ownership of a trade, and the fail-closed
    verification of fetched pages against authenticated order snapshots. Text is `string`;
    decimals are `real`, so no addition overflows. */
module TradeHistory {
  import opened Common
  import opened Execution

  const MAX_PAGES: nat := 32
  const MAX_TRADES: nat := 32_000

  datatype OwnedOrder = OwnedOrder(venue: Venue, symbol: string, clientOrderId: string, venueOrderId: string, side: Side)

  datatype OwnedSnapshot = OwnedSnapshot(owner: OwnedOrder, snapshot: VenueOrderSnapshot)

  datatype UmTrade = UmTrade(
    symbol: string, tradeId: u64, venueOrderId: string, side: Side, quantity: real, price: real,
    quoteQuantity: real, commission: real, commissionAsset: string, realizedPnl: real, tradeTimeMs: u64)

  datatype TradePage = TradePage(trades: seq<UmTrade>, nextFromId: Option<u64>, shortPage: bool)

  datatype HistoryError = Malformed | UnsupportedSymbol | InconsistentPage | UnownedOrder | CursorOverflow

  datatype HistoryGateError =
    | MissingAnchor
    | IncompletePagination
    | InvalidCursor
    | DuplicateTrade
    | UnownedTrade
    | ConflictingOrder
    | FillMismatch
    | ResourceLimit

  datatype VerifiedTrade = VerifiedTrade(durableClientId: string, trade: UmTrade)

  datatype VerifiedHistory = VerifiedHistory(anchoredFromId: u64, nextFromId: u64, trades: seq<VerifiedTrade>)

  // ---------------------------------------------------------------- rows and pages

  const SYMBOL: string := "BTCUSDC"

  /** A response row whose fields are present and parse; `oneWay` says that `positionSide`
      is "BOTH", and a side other than "BUY" or "SELL" is `None`. */
  datatype RawRow = RawRow(
    symbol: string, oneWay: bool, side: Option<Side>, id: u64, orderId: u64, time: u64, quantity: real, price: real,
    quoteQuantity: real, commission: real, commissionAsset: string, realizedPnl: real)

  predicate AssetCode(s: string) {
    0 < |s| <= 32 && forall i :: 0 <= i < |s| ==> 'A' <= s[i] <= 'Z' || '0' <= s[i] <= '9'
  }

  function DecodeRow(row: RawRow): Result<UmTrade, HistoryError> {
    if row.symbol != SYMBOL then Err(UnsupportedSymbol)
    else if !row.oneWay || row.side.None? then Err(Malformed)
    else if || row.orderId == 0 || row.time == 0 || row.quantity <= 0.0 || row.price <= 0.0 || row.quoteQuantity <= 0.0
            || row.commission < 0.0 || !AssetCode(row.commissionAsset)
            || row.id > I64_MAX || row.orderId > I64_MAX || row.time > I64_MAX then Err(Malformed)
    else Ok(UmTrade(row.symbol, row.id, DecimalText(row.orderId), row.side.value, row.quantity, row.price,
                    row.quoteQuantity, row.commission, row.commissionAsset, row.realizedPnl, row.time))
  }

  /** A row decodes exactly when it is a one-way BTCUSDC trade with a side, an order and a time
      within 63 bits, positive amounts, no negative commission and an asset code of one to 32
      capitals and digits; the trade then carries the row's values, each under its own name. */
  lemma DecodedFields(row: RawRow)
    ensures DecodeRow(row).Ok?
       <==> && row.symbol == "BTCUSDC" && row.oneWay && row.side.Some?
            && 1 <= row.orderId < 0x8000_0000_0000_0000 && 1 <= row.time < 0x8000_0000_0000_0000
            && row.id < 0x8000_0000_0000_0000
            && row.quantity > 0.0 && row.price > 0.0 && row.quoteQuantity > 0.0 && row.commission >= 0.0
            && 1 <= |row.commissionAsset| <= 32
            && (forall i :: 0 <= i < |row.commissionAsset| ==>
                  65 <= row.commissionAsset[i] as int <= 90 || 48 <= row.commissionAsset[i] as int <= 57)
    ensures DecodeRow(row).Ok? ==>
              var t := DecodeRow(row).value;
              && t.symbol == row.symbol && t.tradeId == row.id && t.venueOrderId == DecimalText(row.orderId)
              && Some(t.side) == row.side && t.quantity == row.quantity && t.price == row.price
              && t.quoteQuantity == row.quoteQuantity && t.commission == row.commission
              && t.commissionAsset == row.commissionAsset && t.realizedPnl == row.realizedPnl
              && t.tradeTimeMs == row.time
  {
  }

  /** The trades of a page's rows, in order, or the first row's error. */
  function DecodeRows(rows: seq<RawRow>, from: Option<u64>): Result<seq<UmTrade>, HistoryError> {
    if rows == [] then Ok([])
    else
      var front := DecodeRows(rows[..|rows| - 1], from);
      if front.Err? then front
      else
        var last := DecodeRow(rows[|rows| - 1]);
        if last.Err? then Err(last.error)
        else if Misplaced(last.value, front.value, from) then Err(InconsistentPage)
        else Ok(front.value + [last.value])
  }

  function DecodePage(rows: seq<RawRow>, from: Option<u64>, limit: nat): Result<TradePage, HistoryError> {
    if !(1 <= limit <= 1000) then Err(Malformed)
    else if |rows| > limit then Err(InconsistentPage)
    else
      var decoded := DecodeRows(rows, from);
      if decoded.Err? then Err(decoded.error)
      else
        var trades := decoded.value;
        if trades == [] then Ok(TradePage(trades, from, |trades| < limit))
        else if trades[|trades| - 1].tradeId == U64_MAX then Err(CursorOverflow)
        else Ok(TradePage(trades, Some(trades[|trades| - 1].tradeId + 1), |trades| < limit))
  }

  /** Every row decodes, and ids strictly increase from the requested one. */
  ghost predicate GoodRows(rows: seq<RawRow>, from: Option<u64>) {
    && (forall i {:trigger DecodeRow(rows[i])} :: 0 <= i < |rows| ==> DecodeRow(rows[i]).Ok?)
    && (forall i, j :: 0 <= i < j < |rows| ==> rows[i].id < rows[j].id)
    && (from.Some? ==> forall i :: 0 <= i < |rows| ==> from.value <= rows[i].id)
  }

  lemma {:induction false} RowsDecodeIff(rows: seq<RawRow>, from: Option<u64>)
    ensures DecodeRows(rows, from).Ok? <==> GoodRows(rows, from)
    ensures DecodeRows(rows, from).Ok? ==>
              && |DecodeRows(rows, from).value| == |rows|
              && forall i :: 0 <= i < |rows| ==> DecodeRow(rows[i]) == Ok(DecodeRows(rows, from).value[i])
  {
    if rows != [] {
      var n := |rows| - 1;
      var front := rows[..n];
      RowsDecodeIff(front, from);
      GoodRowsStep(rows, from);
      if n > 0 {
        KeepsId(rows[n - 1]);
      }
      KeepsId(rows[n]);
    }
  }

  lemma GoodRowsStep(rows: seq<RawRow>, from: Option<u64>)
    requires rows != []
    ensures var n := |rows| - 1;
            GoodRows(rows, from) <==>
              && GoodRows(rows[..n], from) && DecodeRow(rows[n]).Ok?
              && (n > 0 ==> rows[n - 1].id < rows[n].id) && (from.Some? ==> from.value <= rows[n].id)
  {
    var n := |rows| - 1;
    var front := rows[..n];
    assert forall i :: 0 <= i < n ==> front[i] == rows[i];
    if n > 0 {
      assert front[n - 1] == rows[n - 1];
    }
  }

  lemma KeepsId(row: RawRow)
    ensures DecodeRow(row).Ok? ==> DecodeRow(row).value.tradeId == row.id <= I64_MAX
  {
  }

  /** A page is accepted exactly when the limit is one to 1000, no more rows came than asked for
      and the rows are good; its trades are the decoded rows, its cursor lies just past the last
      one, and it is short when fewer rows came than asked for. */
  lemma PageMeaning(rows: seq<RawRow>, from: Option<u64>, limit: nat)
    ensures DecodePage(rows, from, limit).Ok? <==> 1 <= limit <= 1000 && |rows| <= limit && GoodRows(rows, from)
    ensures DecodePage(rows, from, limit).Ok? ==>
              var page := DecodePage(rows, from, limit).value;
              && |page.trades| == |rows| && (page.shortPage <==> |rows| < limit)
              && (forall i :: 0 <= i < |rows| ==> DecodeRow(rows[i]) == Ok(page.trades[i]))
              && page.nextFromId == if rows == [] then from else Some(rows[|rows| - 1].id + 1)
  {
    RowsDecodeIff(rows, from);
    if rows != [] && DecodeRows(rows, from).Ok? {
      KeepsId(rows[|rows| - 1]);
    }
  }

  predicate Misplaced(t: UmTrade, before: seq<UmTrade>, from: Option<u64>) {
    (from.Some? && t.tradeId < from.value) || (before != [] && t.tradeId <= before[|before| - 1].tradeId)
  }

  lemma NextRow(rows: seq<RawRow>, i: nat, from: Option<u64>)
    requires i < |rows| && DecodeRows(rows[..i], from).Ok?
    ensures var front, last := DecodeRows(rows[..i], from).value, DecodeRow(rows[i]);
            DecodeRows(rows[..i + 1], from)
            == if last.Err? then Err(last.error)
               else if Misplaced(last.value, front, from) then Err(InconsistentPage)
               else Ok(front + [last.value])
  {
    assert rows[..i + 1][..i] == rows[..i];
  }

  /** The row loop, watching the previous id. */
  method ReadRows(rows: seq<RawRow>, from: Option<u64>)
    returns (r: Result<seq<UmTrade>, HistoryError>, previousId: Option<u64>)
    ensures r == DecodeRows(rows, from)
    ensures r.Ok? ==> previousId == if r.value == [] then None else Some(r.value[|r.value| - 1].tradeId)
  {
    var trades: seq<UmTrade> := [];
    previousId := None;
    for i := 0 to |rows|
      invariant DecodeRows(rows[..i], from) == Ok(trades)
      invariant previousId == if trades == [] then None else Some(trades[|trades| - 1].tradeId)
    {
      NextRow(rows, i, from);
      var decoded := DecodeRow(rows[i]);
      if decoded.Err? {
        DecodeRowsFail(rows, i + 1, from);
        return Err(decoded.error), previousId;
      }
      var trade := decoded.value;
      if (from.Some? && trade.tradeId < from.value) || (previousId.Some? && trade.tradeId <= previousId.value) {
        DecodeRowsFail(rows, i + 1, from);
        return Err(InconsistentPage), previousId;
      }
      previousId := Some(trade.tradeId);
      trades := trades + [trade];
    }
    assert rows[..|rows|] == rows;
    r := Ok(trades);
  }

  method DecodeTradePage(rows: seq<RawRow>, requestedFrom: Option<u64>, requestedLimit: nat)
    returns (r: Result<TradePage, HistoryError>)
    ensures r == DecodePage(rows, requestedFrom, requestedLimit)
  {
    if !(1 <= requestedLimit <= 1000) {
      return Err(Malformed);
    }
    if |rows| > requestedLimit {
      return Err(InconsistentPage);
    }
    var decoded, previousId := ReadRows(rows, requestedFrom);
    if decoded.Err? {
      return Err(decoded.error);
    }
    var next := requestedFrom;
    if previousId.Some? {
      if previousId.value == U64_MAX {
        return Err(CursorOverflow);
      }
      next := Some(previousId.value + 1);
    }
    return Ok(TradePage(decoded.value, next, |decoded.value| < requestedLimit));
  }

  lemma {:induction false} DecodeRowsFail(rows: seq<RawRow>, k: nat, from: Option<u64>)
    requires k <= |rows| && DecodeRows(rows[..k], from).Err?
    ensures DecodeRows(rows, from) == DecodeRows(rows[..k], from)
  {
    if k < |rows| {
      assert rows[..|rows| - 1][..k] == rows[..k];
      DecodeRowsFail(rows[..|rows| - 1], k, from);
    } else {
      assert rows[..k] == rows;
    }
  }

  // ---------------------------------------------------------------- declarative vocabulary

  /** Trade ids strictly increase, starting no earlier than `from`. */
  predicate AscendingFrom(from: int, trades: seq<UmTrade>) {
    && (forall i :: 0 <= i < |trades| ==> from <= trades[i].tradeId)
    && (forall i, j :: 0 <= i < j < |trades| ==> trades[i].tradeId < trades[j].tradeId)
  }

  /** The next id to ask for once `trades` have been read. */
  function CursorAfter(anchor: int, trades: seq<UmTrade>): int {
    if trades == [] then anchor else trades[|trades| - 1].tradeId + 1
  }

  /** Every trade of every page, in order. */
  function Flat(pages: seq<TradePage>): seq<UmTrade> {
    if pages == [] then [] else Flat(pages[..|pages| - 1]) + pages[|pages| - 1].trades
  }

  /** The quantity traded for one venue order. */
  function Traded(trades: seq<UmTrade>, venueOrderId: string): real {
    if trades == [] then 0.0
    else Traded(trades[..|trades| - 1], venueOrderId)
         + if trades[|trades| - 1].venueOrderId == venueOrderId then trades[|trades| - 1].quantity else 0.0
  }

  predicate SnapshotAgrees(o: OwnedSnapshot) {
    var s := o.snapshot;
    && o.owner.venueOrderId == s.venueOrderId
    && o.owner.symbol == s.asset
    && o.owner.side == s.side
    && s.clientOrderId == Some(o.owner.clientOrderId)
    && s.venueOrderId != ""
    && 0.0 < s.requested
    && 0.0 <= s.filled <= s.requested
    && !s.state.Unknown?
    && (s.state.Filled? ==> s.filled == s.requested)
    && (s.state.PartiallyFilled? ==> 0.0 < s.filled < s.requested)
  }

  predicate HexChar(c: char) {
    '0' <= c <= '9' || 'a' <= c <= 'f' || 'A' <= c <= 'F'
  }

  predicate DurableForm(id: string) {
    |id| == 34 && id[0] == 'p' && id[1] == 'g' && forall i :: 2 <= i < 34 ==> HexChar(id[i])
  }

  /** `UmTrade::verified_durable_order` succeeds. */
  predicate OwnedBy(trade: UmTrade, owner: OwnedOrder) {
    && owner.venue.BinancePm?
    && owner.symbol == trade.symbol
    && owner.venueOrderId == trade.venueOrderId
    && owner.side == trade.side
    && DurableForm(owner.clientOrderId)
  }

  predicate ConsistentUpTo(orders: seq<OwnedSnapshot>, k: nat)
    requires k <= |orders|
  {
    && (forall i :: 0 <= i < k ==> SnapshotAgrees(orders[i]))
    && (forall i, j :: 0 <= i < j < k ==>
          && orders[i].owner.venueOrderId != orders[j].owner.venueOrderId
          && orders[i].owner.clientOrderId != orders[j].owner.clientOrderId)
  }

  /** Each snapshot agrees with its owner, and no venue id or client id repeats. */
  predicate ConsistentOrders(orders: seq<OwnedSnapshot>) {
    ConsistentUpTo(orders, |orders|)
  }

  predicate OwnerIn(trade: UmTrade, orders: seq<OwnedSnapshot>) {
    exists i :: 0 <= i < |orders| && OwnedBy(trade, orders[i].owner)
  }

  predicate AllOwned(trades: seq<UmTrade>, orders: seq<OwnedSnapshot>) {
    forall k {:trigger OwnerIn(trades[k], orders)} :: 0 <= k < |trades| ==> OwnerIn(trades[k], orders)
  }

  /** Per order, the traded quantity is exactly the snapshot's filled quantity. */
  predicate FillsConserved(trades: seq<UmTrade>, orders: seq<OwnedSnapshot>) {
    forall i :: 0 <= i < |orders| ==> Traded(trades, orders[i].owner.venueOrderId) == orders[i].snapshot.filled
  }

  /** No prefix of the trades ever fills an order beyond its snapshot. */
  predicate NeverOverfills(trades: seq<UmTrade>, orders: seq<OwnedSnapshot>) {
    forall k, i {:trigger Traded(trades[..k], orders[i].owner.venueOrderId)} ::
      0 <= k <= |trades| && 0 <= i < |orders| ==>
        Traded(trades[..k], orders[i].owner.venueOrderId) <= orders[i].snapshot.filled
  }

  /** One page of a complete pagination: full unless last, bounded, and pointing just past
      its trades. */
  predicate PageShape(anchor: int, pages: seq<TradePage>, k: nat)
    requires k < |pages|
  {
    && (k + 1 < |pages| ==> !pages[k].shortPage && pages[k].trades != [])
    && |pages[k].trades| <= 1000
    && |Flat(pages[..k + 1])| <= MAX_TRADES
    && CursorAfter(anchor, Flat(pages[..k + 1])) <= U64_MAX
    && pages[k].nextFromId == Some(CursorAfter(anchor, Flat(pages[..k + 1])))
  }
}
