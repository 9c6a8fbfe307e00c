/** Bounded forward pagination over a signed history reader. A reader is a function of the
    attempt number and the requested cursor; the network behind it is not modelled. */
module HistoryFetch {
  import opened Common
  import opened Execution
  import opened TradeHistory
  import opened HistoryReconcile

  const PAGE_LIMIT: nat := 1000

  datatype FetchError =
    | InvalidAnchor
    | ReadFailed(cause: HistoryError)
    | NoCursor
    | CursorDidNotAdvance
    | NotVerified
    | ExceededPagination

  type Reader = (nat, u64) -> Result<TradePage, HistoryError>

  // ---------------------------------------------------------------- an honest venue

  /** A fixed history the venue can serve: every row decodes and ids strictly increase. */
  ghost predicate ValidRows(rows: seq<RawRow>) {
    && (forall i {:trigger DecodeRow(rows[i])} :: 0 <= i < |rows| ==> DecodeRow(rows[i]).Ok?)
    && IdsIncrease(rows)
  }

  ghost predicate IdsIncrease(rows: seq<RawRow>) {
    forall i, j :: 0 <= i < j < |rows| ==> rows[i].id < rows[j].id
  }

  /** The rows whose id is at least `cursor`. */
  function RowsSince(rows: seq<RawRow>, cursor: int): seq<RawRow> {
    if rows == [] then []
    else
      var front := RowsSince(rows[..|rows| - 1], cursor);
      if rows[|rows| - 1].id >= cursor then front + [rows[|rows| - 1]] else front
  }

  function FirstPage(rows: seq<RawRow>): seq<RawRow> {
    if |rows| <= PAGE_LIMIT then rows else rows[..PAGE_LIMIT]
  }

  /** The reader answers every request from the fixed history. */
  ghost predicate Honest(read: Reader, history: seq<RawRow>) {
    forall n: nat, c: u64 :: read(n, c) == DecodePage(FirstPage(RowsSince(history, c)), Some(c), PAGE_LIMIT)
  }

  ghost function Decoded(row: RawRow): UmTrade
    requires DecodeRow(row).Ok?
  {
    DecodeRow(row).value
  }

  ghost function Trades(rows: seq<RawRow>): (trades: seq<UmTrade>)
    requires ValidRows(rows)
    ensures |trades| == |rows|
    ensures forall i :: 0 <= i < |rows| ==> trades[i] == Decoded(rows[i])
  {
    seq(|rows|, i requires 0 <= i < |rows| => Decoded(rows[i]))
  }

  /** Rows before index `k` are older than the cursor, the rest are not. */
  ghost predicate SplitAt(rows: seq<RawRow>, cursor: int, k: nat) {
    && k <= |rows|
    && (forall i :: 0 <= i < k ==> rows[i].id < cursor)
    && (forall i :: k <= i < |rows| ==> rows[i].id >= cursor)
  }

  lemma {:induction false} SinceIsSuffix(rows: seq<RawRow>, cursor: int, k: nat)
    requires SplitAt(rows, cursor, k)
    ensures RowsSince(rows, cursor) == rows[k..]
  {
    if rows != [] {
      var front := rows[..|rows| - 1];
      if k == |rows| {
        SinceIsSuffix(front, cursor, |front|);
      } else {
        SinceIsSuffix(front, cursor, k);
        SuffixSnoc(rows, k);
      }
    }
  }

  lemma SuffixSnoc<T>(s: seq<T>, k: nat)
    requires k < |s|
    ensures s[k..] == s[..|s| - 1][k..] + [s[|s| - 1]]
  {
  }

  lemma {:induction false} FindSplit(rows: seq<RawRow>, cursor: int) returns (k: nat)
    requires IdsIncrease(rows)
    ensures SplitAt(rows, cursor, k)
  {
    k := |rows|;
    if rows != [] {
      var n := |rows| - 1;
      if rows[n].id >= cursor {
        k := FindSplit(rows[..n], cursor);
        assert forall i :: 0 <= i < n ==> rows[..n][i] == rows[i];
      }
    }
  }

  /** Asking again past the first `n` answered rows yields exactly the rest. */
  lemma RowsResume(history: seq<RawRow>, anchor: int, n: nat)
    requires ValidRows(history) && n <= |RowsSince(history, anchor)|
    ensures var rows := RowsSince(history, anchor);
            && ValidRows(rows)
            && (forall i :: 0 <= i < |rows| ==> rows[i].id >= anchor)
            && RowsSince(history, if n == 0 then anchor else rows[n - 1].id + 1) == rows[n..]
  {
    var k := FindSplit(history, anchor);
    SinceIsSuffix(history, anchor, k);
    SuffixIsValid(history, k);
    if n > 0 {
      SplitsAfter(history, k + n);
      SinceIsSuffix(history, history[k + n - 1].id + 1, k + n);
      DropTwice(history, k, n);
    }
  }

  lemma SuffixIsValid(rows: seq<RawRow>, k: nat)
    requires ValidRows(rows) && k <= |rows|
    ensures ValidRows(rows[k..])
  {
    assert forall i :: 0 <= i < |rows[k..]| ==> rows[k..][i] == rows[k + i];
  }

  lemma SplitsAfter(rows: seq<RawRow>, k: nat)
    requires ValidRows(rows) && 0 < k <= |rows|
    ensures SplitAt(rows, rows[k - 1].id + 1, k)
  {
  }

  lemma DropTwice<T>(s: seq<T>, k: nat, n: nat)
    requires 0 < n && k + n <= |s|
    ensures s[k..][n - 1] == s[k + n - 1] && s[k..][n..] == s[k + n..]
  {
  }

  lemma {:induction false} DecodeValidRows(rows: seq<RawRow>, from: u64)
    requires ValidRows(rows) && forall i :: 0 <= i < |rows| ==> rows[i].id >= from
    ensures DecodeRows(rows, Some(from)) == Ok(Trades(rows))
  {
    if rows != [] {
      var n := |rows| - 1;
      var front := rows[..n];
      DecodeValidRows(front, from);
      NextInOrder(rows, from);
      TradesOfOneMore(rows);
      DecodesOneMore(rows, from, Trades(front), Decoded(rows[n]));
    }
  }

  lemma DecodesOneMore(rows: seq<RawRow>, from: u64, front: seq<UmTrade>, last: UmTrade)
    requires rows != [] && DecodeRows(rows[..|rows| - 1], Some(from)) == Ok(front)
    requires DecodeRow(rows[|rows| - 1]) == Ok(last) && !Misplaced(last, front, Some(from))
    ensures DecodeRows(rows, Some(from)) == Ok(front + [last])
  {
  }

  lemma TradesOfOneMore(rows: seq<RawRow>)
    requires rows != [] && ValidRows(rows) && ValidRows(rows[..|rows| - 1])
    ensures Trades(rows) == Trades(rows[..|rows| - 1]) + [Decoded(rows[|rows| - 1])]
  {
    var front := rows[..|rows| - 1];
    assert forall i :: 0 <= i < |front| ==> front[i] == rows[i];
  }

  lemma NextInOrder(rows: seq<RawRow>, from: u64)
    requires rows != [] && ValidRows(rows) && rows[|rows| - 1].id >= from
    ensures ValidRows(rows[..|rows| - 1])
    ensures !Misplaced(Decoded(rows[|rows| - 1]), Trades(rows[..|rows| - 1]), Some(from))
  {
    var n := |rows| - 1;
    DecodedKeepsId(rows[n]);
    if n > 0 {
      assert rows[..n][n - 1] == rows[n - 1];
      DecodedKeepsId(rows[n - 1]);
    }
  }

  lemma DecodedKeepsId(row: RawRow)
    requires DecodeRow(row).Ok?
    ensures Decoded(row).tradeId == row.id <= I64_MAX && Decoded(row).quantity > 0.0
  {
  }

  // ---------------------------------------------------------------- the pages it serves

  /** The trades the history holds from the anchor on. */
  ghost function TradesSince(history: seq<RawRow>, anchor: int): seq<UmTrade>
    requires ValidRows(history)
  {
    RowsResume(history, anchor, 0);
    Trades(RowsSince(history, anchor))
  }

  /** Decoded trades: ids ascending from the anchor within 63 bits, quantities positive. */
  ghost predicate Decodable(anchor: int, trades: seq<UmTrade>) {
    && AscendingFrom(anchor, trades)
    && (forall i :: 0 <= i < |trades| ==> trades[i].tradeId <= I64_MAX)
    && PositiveQuantities(trades)
  }

  function PageEnd(count: nat, k: nat): nat {
    if PAGE_LIMIT * (k + 1) <= count then PAGE_LIMIT * (k + 1) else count
  }

  /** The page an honest venue serves to attempt `k`. */
  ghost function HonestPage(anchor: u64, trades: seq<UmTrade>, k: nat): TradePage
    requires Decodable(anchor, trades) && PAGE_LIMIT * k <= |trades|
  {
    var end := PageEnd(|trades|, k);
    TradePage(trades[PAGE_LIMIT * k..end], Some(CursorAfter(anchor, trades[..end])), end - PAGE_LIMIT * k < PAGE_LIMIT)
  }

  ghost function HonestPages(anchor: u64, trades: seq<UmTrade>, n: nat): seq<TradePage>
    requires Decodable(anchor, trades) && (n > 0 ==> PAGE_LIMIT * (n - 1) <= |trades|)
  {
    if n == 0 then [] else HonestPages(anchor, trades, n - 1) + [HonestPage(anchor, trades, n - 1)]
  }

  lemma TradesAreDecodable(history: seq<RawRow>, anchor: u64)
    requires ValidRows(history)
    ensures Decodable(anchor, TradesSince(history, anchor))
    ensures |TradesSince(history, anchor)| == |RowsSince(history, anchor)|
  {
    RowsResume(history, anchor, 0);
    var rows := RowsSince(history, anchor);
    forall i | 0 <= i < |rows|
      ensures Trades(rows)[i].tradeId == rows[i].id <= I64_MAX && Trades(rows)[i].quantity > 0.0
    {
      DecodedKeepsId(rows[i]);
    }
  }

  /** The rows behind the `k`-th page. */
  lemma ServedRows(history: seq<RawRow>, anchor: u64, k: nat, cursor: u64)
    requires ValidRows(history) && PAGE_LIMIT * k <= |RowsSince(history, anchor)|
    requires var rows := RowsSince(history, anchor);
             cursor == if k == 0 then anchor else rows[PAGE_LIMIT * k - 1].id + 1
    ensures var rows := RowsSince(history, anchor);
            FirstPage(RowsSince(history, cursor)) == rows[PAGE_LIMIT * k..PageEnd(|rows|, k)]
  {
    RowsResume(history, anchor, PAGE_LIMIT * k);
    var rows := RowsSince(history, anchor);
    assert FirstPage(rows[PAGE_LIMIT * k..]) == rows[PAGE_LIMIT * k..PageEnd(|rows|, k)];
  }

  ghost predicate IsPage(page: Result<TradePage, HistoryError>, cursor: u64, trades: seq<UmTrade>) {
    && page.Ok?
    && page.value.trades == trades
    && page.value.nextFromId.Some? && page.value.nextFromId.value == CursorAfter(cursor, trades)
    && (page.value.shortPage <==> |trades| < PAGE_LIMIT)
  }

  lemma PageOfDecoded(rows: seq<RawRow>, cursor: u64, trades: seq<UmTrade>)
    requires |rows| <= PAGE_LIMIT && DecodeRows(rows, Some(cursor)) == Ok(trades)
    requires CursorAfter(cursor, trades) <= U64_MAX
    ensures IsPage(DecodePage(rows, Some(cursor), PAGE_LIMIT), cursor, trades)
  {
  }

  lemma TradesOfSlice(rows: seq<RawRow>, start: nat, end: nat)
    requires ValidRows(rows) && start <= end <= |rows| && ValidRows(rows[start..end])
    ensures Trades(rows[start..end]) == Trades(rows)[start..end]
  {
    var slice, trades := Trades(rows[start..end]), Trades(rows)[start..end];
    forall i | 0 <= i < end - start
      ensures slice[i] == trades[i]
    {
      assert rows[start..end][i] == rows[start + i];
    }
  }

  lemma TradeAt(rows: seq<RawRow>, i: nat)
    requires ValidRows(rows) && i < |rows|
    ensures Trades(rows)[i].tradeId == rows[i].id <= I64_MAX
  {
    DecodedKeepsId(rows[i]);
  }

  lemma CursorOfSlice(rows: seq<RawRow>, start: nat, end: nat, cursor: u64)
    requires ValidRows(rows) && start <= end <= |rows|
    ensures CursorAfter(cursor, Trades(rows)[start..end])
         == (if start == end then cursor else rows[end - 1].id + 1) <= U64_MAX
  {
    if start < end {
      TradeAt(rows, end - 1);
      SliceLast(Trades(rows), start, end);
    }
  }

  lemma SliceLast<T>(s: seq<T>, start: nat, end: nat)
    requires start < end <= |s|
    ensures s[start..end][|s[start..end]| - 1] == s[end - 1]
  {
  }

  lemma PageOfRows(rows: seq<RawRow>, start: nat, end: nat, cursor: u64)
    requires ValidRows(rows) && start <= end <= |rows| && end - start <= PAGE_LIMIT
    requires start > 0 ==> cursor == rows[start - 1].id + 1
    requires start == 0 ==> forall i :: 0 <= i < |rows| ==> rows[i].id >= cursor
    ensures var trades := Trades(rows)[start..end];
            && CursorAfter(cursor, trades) == (if start == end then cursor else rows[end - 1].id + 1) <= U64_MAX
            && IsPage(DecodePage(rows[start..end], Some(cursor), PAGE_LIMIT), cursor, trades)
  {
    RowsOfPage(rows, start, end, cursor);
    DecodeValidRows(rows[start..end], cursor);
    TradesOfSlice(rows, start, end);
    var trades := Trades(rows)[start..end];
    CursorOfSlice(rows, start, end, cursor);
    PageOfDecoded(rows[start..end], cursor, trades);
  }

  /** An honest venue answers the `k`-th cursor with the `k`-th page. */
  lemma ServesPage(read: Reader, history: seq<RawRow>, anchor: u64, k: nat, n: nat, cursor: u64)
    requires ValidRows(history) && Honest(read, history)
    requires PAGE_LIMIT * k <= |TradesSince(history, anchor)|
    requires cursor == CursorAfter(anchor, TradesSince(history, anchor)[..PAGE_LIMIT * k])
    ensures Decodable(anchor, TradesSince(history, anchor))
    ensures read(n, cursor) == Ok(HonestPage(anchor, TradesSince(history, anchor), k))
  {
    TradesAreDecodable(history, anchor);
    var trades, rows, start := TradesSince(history, anchor), RowsSince(history, anchor), PAGE_LIMIT * k;
    var end := PageEnd(|trades|, k);
    RowsResume(history, anchor, 0);
    CursorOfRows(rows, anchor, start);
    ServedRows(history, anchor, k, cursor);
    PageOfRows(rows, start, end, cursor);
    CursorOfRows(rows, anchor, end);
    OnlyHonestPage(DecodePage(rows[start..end], Some(cursor), PAGE_LIMIT), anchor, trades, k, cursor);
  }

  lemma OnlyHonestPage(page: Result<TradePage, HistoryError>, anchor: u64, trades: seq<UmTrade>, k: nat, cursor: u64)
    requires Decodable(anchor, trades) && PAGE_LIMIT * k <= |trades|
    requires IsPage(page, cursor, trades[PAGE_LIMIT * k..PageEnd(|trades|, k)])
    requires CursorAfter(cursor, trades[PAGE_LIMIT * k..PageEnd(|trades|, k)])
          == CursorAfter(anchor, trades[..PageEnd(|trades|, k)])
    ensures page == Ok(HonestPage(anchor, trades, k))
  {
  }

  lemma CursorOfRows(rows: seq<RawRow>, anchor: int, n: nat)
    requires ValidRows(rows) && n <= |rows|
    ensures CursorAfter(anchor, Trades(rows)[..n]) == if n == 0 then anchor else rows[n - 1].id + 1
  {
    if n > 0 {
      TradeAt(rows, n - 1);
    }
  }

  lemma RowsOfPage(rows: seq<RawRow>, start: nat, end: nat, cursor: int)
    requires ValidRows(rows) && start <= end <= |rows|
    requires start > 0 ==> cursor == rows[start - 1].id + 1
    requires start == 0 ==> forall i :: 0 <= i < |rows| ==> rows[i].id >= cursor
    ensures ValidRows(rows[start..end])
    ensures forall i :: 0 <= i < |rows[start..end]| ==> rows[start..end][i].id >= cursor
  {
  }

  // ---------------------------------------------------------------- what the served pages amount to

  lemma {:induction false} HonestPagesAt(anchor: u64, trades: seq<UmTrade>, n: nat, k: nat)
    requires Decodable(anchor, trades) && k < n && PAGE_LIMIT * (n - 1) <= |trades|
    ensures |HonestPages(anchor, trades, n)| == n
    ensures HonestPages(anchor, trades, n)[k] == HonestPage(anchor, trades, k)
    ensures HonestPages(anchor, trades, n)[..k + 1] == HonestPages(anchor, trades, k + 1)
  {
    HonestPagesLength(anchor, trades, n - 1);
    if k < n - 1 {
      HonestPagesAt(anchor, trades, n - 1, k);
    }
  }

  lemma {:induction false} HonestPagesLength(anchor: u64, trades: seq<UmTrade>, n: nat)
    requires Decodable(anchor, trades) && (n > 0 ==> PAGE_LIMIT * (n - 1) <= |trades|)
    ensures |HonestPages(anchor, trades, n)| == n
  {
    if n > 0 {
      HonestPagesLength(anchor, trades, n - 1);
    }
  }

  lemma TakeThenSlice<T>(s: seq<T>, a: nat, b: nat)
    requires a <= b <= |s|
    ensures s[..a] + s[a..b] == s[..b]
  {
  }

  lemma {:induction false} HonestFlat(anchor: u64, trades: seq<UmTrade>, n: nat)
    requires Decodable(anchor, trades) && (n > 0 ==> PAGE_LIMIT * (n - 1) <= |trades|)
    ensures Flat(HonestPages(anchor, trades, n)) == if n == 0 then [] else trades[..PageEnd(|trades|, n - 1)]
  {
    if n > 0 {
      HonestFlat(anchor, trades, n - 1);
      FlatAppend(HonestPages(anchor, trades, n - 1), HonestPage(anchor, trades, n - 1));
      TakeThenSlice(trades, PAGE_LIMIT * (n - 1), PageEnd(|trades|, n - 1));
    }
  }

  lemma FlatAppend(pages: seq<TradePage>, page: TradePage)
    ensures Flat(pages + [page]) == Flat(pages) + page.trades
  {
    assert (pages + [page])[..|pages|] == pages;
  }

  /** Shape facts of one page, apart from the sequence it sits in. */
  lemma OnePageShape(anchor: u64, trades: seq<UmTrade>, k: nat)
    requires Decodable(anchor, trades) && PAGE_LIMIT * k <= |trades|
    ensures var page, end := HonestPage(anchor, trades, k), PageEnd(|trades|, k);
            && end <= |trades| && |page.trades| <= PAGE_LIMIT
            && (PAGE_LIMIT * (k + 1) <= |trades| ==> !page.shortPage && page.trades != [])
            && CursorAfter(anchor, trades[..end]) <= U64_MAX
            && page.nextFromId == Some(CursorAfter(anchor, trades[..end]))
  {
  }

  lemma HonestPageShape(anchor: u64, trades: seq<UmTrade>, n: nat, k: nat)
    requires Decodable(anchor, trades) && |trades| < MAX_TRADES && k < n
    requires PAGE_LIMIT * (n - 1) <= |trades| < PAGE_LIMIT * n
    ensures |HonestPages(anchor, trades, n)| == n
    ensures PageShape(anchor, HonestPages(anchor, trades, n), k)
  {
    HonestPagesAt(anchor, trades, n, k);
    HonestFlat(anchor, trades, k + 1);
    OnePageShape(anchor, trades, k);
    var pages := HonestPages(anchor, trades, n);
    assert Flat(pages[..k + 1]) == trades[..PageEnd(|trades|, k)];
    assert pages[k] == HonestPage(anchor, trades, k);
  }

  /** What makes a fetch of this history succeed. */
  ghost predicate Fetchable(anchor: u64, trades: seq<UmTrade>, orders: seq<OwnedSnapshot>) {
    && 1 <= anchor <= I64_MAX
    && |trades| < MAX_TRADES
    && CursorAfter(anchor, trades) <= I64_MAX
    && |orders| <= MAX_TRADES
    && ConsistentOrders(orders)
    && AllOwned(trades, orders)
    && FillsConserved(trades, orders)
  }

  lemma CompleteWhenShaped(anchor: u64, pages: seq<TradePage>, orders: seq<OwnedSnapshot>)
    requires 0 < anchor && 0 < |pages| <= MAX_PAGES && pages[|pages| - 1].shortPage
    requires forall k :: 0 <= k < |pages| ==> PageShape(anchor, pages, k)
    requires AscendingFrom(anchor, Flat(pages))
    ensures CompleteHistory(anchor, pages, orders)
       <==> && |orders| <= MAX_TRADES && ConsistentOrders(orders)
            && AllOwned(Flat(pages), orders) && FillsConserved(Flat(pages), orders)
  {
  }

  lemma HonestPagesAreComplete(anchor: u64, trades: seq<UmTrade>, orders: seq<OwnedSnapshot>)
    requires Decodable(anchor, trades) && 0 < anchor && |trades| < MAX_TRADES
    ensures var pages := HonestPages(anchor, trades, |trades| / PAGE_LIMIT + 1);
            && Flat(pages) == trades
            && (CompleteHistory(anchor, pages, orders)
                <==> && |orders| <= MAX_TRADES && ConsistentOrders(orders)
                     && AllOwned(trades, orders) && FillsConserved(trades, orders))
  {
    var n := |trades| / PAGE_LIMIT + 1;
    var pages := HonestPages(anchor, trades, n);
    HonestFlat(anchor, trades, n);
    assert trades[..PageEnd(|trades|, n - 1)] == trades;
    HonestPagesAt(anchor, trades, n, n - 1);
    forall k | 0 <= k < n
      ensures PageShape(anchor, pages, k)
    {
      HonestPageShape(anchor, trades, n, k);
    }
    CompleteWhenShaped(anchor, pages, orders);
  }

  lemma HonestVerdict(anchor: u64, trades: seq<UmTrade>, orders: seq<OwnedSnapshot>, attempt: nat)
    requires Decodable(anchor, trades) && 1 <= anchor <= I64_MAX && CursorAfter(anchor, trades) <= I64_MAX
    requires attempt == |trades| / PAGE_LIMIT && attempt < 32
    ensures var pages := HonestPages(anchor, trades, attempt + 1);
            && Flat(pages) == trades && PositiveQuantities(Flat(pages))
            && (CompleteHistory(anchor, pages, orders) <==> Fetchable(anchor, trades, orders))
  {
    HonestPagesAreComplete(anchor, trades, orders);
  }

  /** What attempt `k` learns from an honest page: a short page is the last one, a full one
      leaves the cursor after it. */
  lemma HonestStep(anchor: u64, trades: seq<UmTrade>, k: nat)
    requires Decodable(anchor, trades) && PAGE_LIMIT * k <= |trades|
    ensures var page := HonestPage(anchor, trades, k);
            && HonestPages(anchor, trades, k) + [page] == HonestPages(anchor, trades, k + 1)
            && (page.shortPage ==> && k == |trades| / PAGE_LIMIT
                                   && page.nextFromId.value == CursorAfter(anchor, trades))
            && (!page.shortPage ==> && PAGE_LIMIT * (k + 1) <= |trades|
                                    && page.nextFromId.value == CursorAfter(anchor, trades[..PAGE_LIMIT * (k + 1)])
                                    && page.nextFromId.value > CursorAfter(anchor, trades[..PAGE_LIMIT * k])
                                    && page.nextFromId.value <= CursorAfter(anchor, trades))
            && page.nextFromId.value >= CursorAfter(anchor, trades[..PAGE_LIMIT * k])
  {
    var end := PageEnd(|trades|, k);
    if end == |trades| {
      assert trades[..end] == trades;
    }
    if PAGE_LIMIT * k < end {
      assert trades[end - 1].tradeId >= CursorAfter(anchor, trades[..PAGE_LIMIT * k]);
    }
  }

  lemma ServedStep(read: Reader, anchor: u64, pages: seq<TradePage>, page: TradePage)
    requires forall k :: 0 <= k < |pages| ==> Served(read, anchor, pages, k)
    requires read(|pages|, NextCursor(anchor, pages)) == Ok(page)
    ensures forall k :: 0 <= k < |pages + [page]| ==> Served(read, anchor, pages + [page], k)
  {
    forall k | 0 <= k < |pages + [page]|
      ensures Served(read, anchor, pages + [page], k)
    {
      if k < |pages| {
        assert Served(read, anchor, pages, k);
        assert (pages + [page])[..k] == pages[..k];
      } else {
        assert (pages + [page])[..k] == pages;
      }
    }
  }

  // ---------------------------------------------------------------- the fetch loop

  /** Before attempt `k` the loop has read the first `k` pages of an honest venue. */
  ghost predicate OnTrack(history: seq<RawRow>, anchor: u64, k: nat, pages: seq<TradePage>, cursor: u64)
    requires ValidRows(history)
  {
    var trades := TradesSince(history, anchor);
    && Decodable(anchor, trades)
    && PAGE_LIMIT * k <= |trades|
    && pages == HonestPages(anchor, trades, k)
    && cursor == CursorAfter(anchor, trades[..PAGE_LIMIT * k])
  }

  /** The collected pages are all the trades from the anchor on, and count as complete
      exactly when the history is fetchable. */
  ghost predicate EndedOnTrack(history: seq<RawRow>, anchor: u64, orders: seq<OwnedSnapshot>, pages: seq<TradePage>)
    requires ValidRows(history)
  {
    var trades := TradesSince(history, anchor);
    && |pages| == |trades| / PAGE_LIMIT + 1
    && Flat(pages) == trades && PositiveQuantities(trades)
    && (CompleteHistory(anchor, pages, orders) <==> Fetchable(anchor, trades, orders))
  }

  lemma TrackStep(read: Reader, history: seq<RawRow>, anchor: u64, orders: seq<OwnedSnapshot>, k: nat,
                  pages: seq<TradePage>, cursor: u64)
    requires ValidRows(history) && Honest(read, history) && k < 32 && 1 <= anchor <= I64_MAX
    requires OnTrack(history, anchor, k, pages, cursor)
    ensures read(k, cursor).Ok? && read(k, cursor).value.nextFromId.Some?
    ensures var page, trades := read(k, cursor).value, TradesSince(history, anchor);
            var next := page.nextFromId.value;
            && cursor <= next
            && (next > I64_MAX ==> !Fetchable(anchor, trades, orders))
            && (!page.shortPage ==> && cursor < next && OnTrack(history, anchor, k + 1, pages + [page], next)
                                    && (k == 31 ==> !Fetchable(anchor, trades, orders)))
            && (page.shortPage && next <= I64_MAX ==> EndedOnTrack(history, anchor, orders, pages + [page]))
  {
    var trades := TradesSince(history, anchor);
    ServesPage(read, history, anchor, k, k, cursor);
    HonestStep(anchor, trades, k);
    var page := HonestPage(anchor, trades, k);
    if page.shortPage && page.nextFromId.value <= I64_MAX {
      HonestVerdict(anchor, trades, orders, k);
      HonestPagesAt(anchor, trades, k + 1, k);
    }
  }

  /** One read of the loop: the page and the cursor it leaves, unless that cursor is unusable. */
  method ReadOne(read: Reader, anchor: u64, attempt: nat, cursor: u64,
                 ghost history: seq<RawRow>, ghost orders: seq<OwnedSnapshot>, ghost pages: seq<TradePage>)
    returns (r: Result<TradePage, FetchError>, next: u64)
    requires 1 <= anchor <= I64_MAX && attempt < 32
    requires ValidRows(history) && Honest(read, history) ==> OnTrack(history, anchor, attempt, pages, cursor)
    ensures r.Ok? ==> read(attempt, cursor) == Ok(r.value) && r.value.nextFromId == Some(next) && cursor <= next <= I64_MAX
    ensures ValidRows(history) && Honest(read, history) ==>
              var fetchable := Fetchable(anchor, TradesSince(history, anchor), orders);
              && (r.Err? ==> !fetchable)
              && (r.Ok? && r.value.shortPage ==> EndedOnTrack(history, anchor, orders, pages + [r.value]))
              && (r.Ok? && !r.value.shortPage ==> OnTrack(history, anchor, attempt + 1, pages + [r.value], next))
              && (r.Ok? && !r.value.shortPage && attempt == 31 ==> !fetchable)
  {
    if ValidRows(history) && Honest(read, history) {
      TrackStep(read, history, anchor, orders, attempt, pages, cursor);
    }
    next := 0;
    var page := read(attempt, cursor);
    if page.Err? {
      return Err(ReadFailed(page.error)), next;
    }
    if page.value.nextFromId.None? {
      return Err(NoCursor), next;
    }
    next := page.value.nextFromId.value;
    if next < cursor || next > I64_MAX || (!page.value.shortPage && next == cursor) {
      return Err(CursorDidNotAdvance), next;
    }
    r := Ok(page.value);
  }

  /** The read loop: it ends with a short page, or fails. */
  method ReadToTheEnd(read: Reader, anchor: u64, ghost history: seq<RawRow>, ghost orders: seq<OwnedSnapshot>)
    returns (r: Result<seq<TradePage>, FetchError>, count: nat)
    requires 1 <= anchor <= I64_MAX
    ensures count <= 32
    ensures r.Ok? ==> count == |r.value| && forall k :: 0 <= k < |r.value| ==> Served(read, anchor, r.value, k)
    ensures ValidRows(history) && Honest(read, history) ==>
              && (r.Err? ==> !Fetchable(anchor, TradesSince(history, anchor), orders))
              && (r.Ok? ==> EndedOnTrack(history, anchor, orders, r.value))
  {
    ghost var honest := ValidRows(history) && Honest(read, history);
    if honest {
      TradesAreDecodable(history, anchor);
    }
    var cursor := anchor;
    var pages: seq<TradePage> := [];
    count := 0;
    for attempt := 0 to 32
      invariant |pages| == count == attempt
      invariant cursor <= I64_MAX && cursor == NextCursor(anchor, pages)
      invariant forall k :: 0 <= k < |pages| ==> Served(read, anchor, pages, k)
      invariant honest ==> OnTrack(history, anchor, attempt, pages, cursor)
      invariant honest && attempt == 32 ==> !Fetchable(anchor, TradesSince(history, anchor), orders)
    {
      count := count + 1;
      var page, next := ReadOne(read, anchor, attempt, cursor, history, orders, pages);
      if page.Err? {
        return Err(page.error), count;
      }
      ServedStep(read, anchor, pages, page.value);
      pages := pages + [page.value];
      if page.value.shortPage {
        return Ok(pages), count;
      }
      cursor := next;
    }
    return Err(ExceededPagination), count;
  }

  /** Against any reader, success means complete evidence that the reader itself served;
      against an honest venue, success is exactly `Fetchable` and returns every trade from
      the anchor on, in order, after one read per thousand trades and one more. */
  method FetchVerifiedHistory(read: Reader, anchor: u64, orders: seq<OwnedSnapshot>, ghost history: seq<RawRow>)
    returns (r: Result<VerifiedHistory, FetchError>, count: nat, ghost pages: seq<TradePage>)
    ensures count <= 32
    ensures r.Ok? ==> && (forall k :: 0 <= k < |pages| ==> Served(read, anchor, pages, k))
                      && CompleteHistory(anchor, pages, orders) && count == |pages|
                      && r.value.trades == Attributed(Flat(pages), orders)
                      && r.value.nextFromId == CursorAfter(anchor, Flat(pages))
    ensures ValidRows(history) && Honest(read, history) ==>
              var trades := TradesSince(history, anchor);
              && (r.Ok? <==> Fetchable(anchor, trades, orders))
              && (r.Ok? ==> Flat(pages) == trades && count == |trades| / PAGE_LIMIT + 1)
  {
    pages, count := [], 0;
    if anchor == 0 || anchor > I64_MAX {
      return Err(InvalidAnchor), count, pages;
    }
    var evidence;
    evidence, count := ReadToTheEnd(read, anchor, history, orders);
    if evidence.Err? {
      return Err(evidence.error), count, pages;
    }
    pages := evidence.value;
    var verified := VerifyTradeHistory(anchor, evidence.value, orders);
    r := if verified.Err? then Err(NotVerified) else Ok(verified.value);
  }

  /** The cursor of the next request after the given pages. */
  function NextCursor(anchor: u64, pages: seq<TradePage>): u64 {
    if pages == [] || pages[|pages| - 1].nextFromId.None? then anchor else pages[|pages| - 1].nextFromId.value
  }

  /** Page `k` is what the reader answered to the cursor left by the pages before it. */
  ghost predicate Served(read: Reader, anchor: u64, pages: seq<TradePage>, k: nat)
    requires k < |pages|
  {
    read(k, NextCursor(anchor, pages[..k])) == Ok(pages[k])
  }

  lemma OneRowHistory(row: RawRow)
    requires DecodeRow(row).Ok? && row.id >= 1
    ensures ValidRows([row]) && TradesSince([row], 1) == [Decoded(row)]
  {
    OneValidRow(row);
    OneRowSince(row);
    OneTrade(row);
  }

  lemma OneValidRow(row: RawRow)
    requires DecodeRow(row).Ok?
    ensures ValidRows([row])
  {
  }

  lemma OneTrade(row: RawRow)
    requires DecodeRow(row).Ok? && ValidRows([row])
    ensures Trades([row]) == [Decoded(row)]
  {
  }

  lemma OneRowSince(row: RawRow)
    requires row.id >= 1
    ensures RowsSince([row], 1) == [row]
  {
    assert [row][..0] == [];
  }

  lemma OneOwnedTrade(trade: UmTrade, client: string, order: OwnedSnapshot)
    requires trade.quantity > 0.0 && trade.venueOrderId != "" && DurableForm(client)
    requires order == OwnedSnapshot(OwnedOrder(BinancePm, trade.symbol, client, trade.venueOrderId, trade.side),
                                    VenueOrderSnapshot(trade.venueOrderId, Some(client), trade.symbol, trade.side,
                                                       trade.quantity, trade.quantity, None, Filled))
    ensures ConsistentOrders([order]) && AllOwned([trade], [order]) && FillsConserved([trade], [order])
  {
    assert OwnedBy(trade, [order][0].owner);
    assert [trade][..0] == [];
  }

  /** Fewer than 32000 owned and conserved trades are not enough: a trade whose id is the
      largest decodable one leaves no cursor the loop accepts, so the fetch fails. */
  lemma LargestIdBlocksTheFetch(row: RawRow, client: string) returns (orders: seq<OwnedSnapshot>)
    requires DecodeRow(row).Ok? && row.id == I64_MAX && DurableForm(client)
    ensures ValidRows([row]) && |TradesSince([row], 1)| == 1
    ensures |orders| == 1 && ConsistentOrders(orders)
    ensures AllOwned(TradesSince([row], 1), orders) && FillsConserved(TradesSince([row], 1), orders)
    ensures !Fetchable(1, TradesSince([row], 1), orders)
  {
    var trade := Decoded(row);
    DecodedKeepsId(row);
    OneRowHistory(row);
    DecimalTextNonEmpty(row.orderId);
    var order := OwnedSnapshot(OwnedOrder(BinancePm, trade.symbol, client, trade.venueOrderId, trade.side),
                               VenueOrderSnapshot(trade.venueOrderId, Some(client), trade.symbol, trade.side,
                                                  trade.quantity, trade.quantity, None, Filled));
    OneOwnedTrade(trade, client, order);
    orders := [order];
  }
}
