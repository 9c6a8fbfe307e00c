# Verified model of the trading core

This project restates the stateful heart of the repository in Dafny and proves properties of
it. Every component is modelled by its own step functions and, where the program updates state
in place, by a class or a loop proved to take exactly those steps. `dafny verify dfyconfig.toml`
checks everything.

What is modelled, in the system's own terms:

- **Binance depth bridge** (`DepthBridge`, `DepthVenue`, `DepthStream`): a REST snapshot merged
  with buffered WebSocket diffs. The venue is a log of absolute level updates; the bridge has to
  equal it (safety) and has to follow every stream the venue sends (liveness).
- **Dream replay** (`DiscoveryWorld`, `Exploration`, `Replay`, `ReplayProperties`, `ReplayTrace`,
  `Dream`): the discovery tree, the linear exploration policy and its revisions, the replay of a
  policy under a cost budget, what its trace tells, and the choice of the best revision.
- **Order identities** (`OrderIdCodec`): the 28-byte Binance id (unpadded Base32, RFC 4648
  sections 6, 3.2 and 3.5) and the 34-byte durable hex id.
- **Signed trade history** (`TradeHistory`, `HistoryReconcile`, `HistoryFetch`): page decoding,
  bounded forward pagination and the fail-closed reconciliation against order snapshots.
- **User stream tracker** (`UserStream`): deduplication of order events between reconciles.
- **Live daemon** (`Subscription`, `UnattendedGuard`, `Oms`, `RuntimePins`, `LiveDaemon`,
  `DaemonLoop`, `PolicyProtocol`): the gates of the select loop as a protocol, the loop's arms
  as methods, and policy orders across lost acknowledgments and restarts.
- **Position basis and shadow venue** (`PositionBasis`, `ShadowVenue`): two average-cost
  computations and the simulated order book.
- **Causal quote replay** (`CausalReplay`), **rate limiter** (`RateLimiter`), **candles**
  (`Candles`) and the **Coinbase intent protocol** (`CoinbaseIntents`).

`Common`, `Execution` and `OrderedSet` hold shared values. `Decimal` and `f64` are `real`;
machine integers are explicit ranges, with saturation or wrap-around written out where the
program has it. A step that the program performs under one lock, in one select arm or in one
database commit is one atomic step here, and what the network, the database, the clock or the
venue answers is an argument of the step.

## Findings

Places where a promise holds only under a condition. Each has a proved failing case and, apart
from it, the condition proved in both directions.

- Published fills of the quote replay look ahead: a fill is listed only once a later event
  marks it (`CausalReplay.PublishedFillsLookAhead`). Up to a time the list is what was published
  then exactly when no fill's horizon lies between the last event known then and the last event
  of the tape (`CausalReplay.PublishedFillsAreCausalIff`). The fills themselves are causal
  (`CausalReplay.RawFillsDependOnThePast`).
- A history fetch of fewer than 32000 valid, owned trades fails when the last trade id is the
  largest decodable one (`HistoryFetch.LargestIdBlocksTheFetch`); success is exactly
  `Fetchable` (`HistoryFetch.FetchVerifiedHistory`).
- A strategy has at most one policy order with a non-terminal record in every run
  (`PolicyProtocol.OneOpenRecordInEveryRun`), but it can have two live ones. A startup adopts
  its records even when its reconcile is not clean, while the comment on the busy check asks for
  cleanly reconciled ones, and reduce-only orders do not pass the exposure gate; so an order that
  is live under a terminal record, which is what makes that reconcile unclean, no longer blocks
  its strategy (`PolicyProtocol.UncleanStartAdmitsTwoLiveOrders`). Live orders block in every
  state of a run exactly when each start shows an active record for each strategy with a live
  order (`PolicyProtocol.CoveredIffEveryStartShows`, `PolicyProtocol.OneLiveOrderIfEveryStartShows`);
  a start that does not lets the next reduce-only decision double the order
  (`PolicyProtocol.StartDoublesIffAllRecordsTerminal`). Increases are never affected.
- Replaying a known reduce-only intent can be refused by the shadow venue, because its guard
  runs before the identity lookup (`ShadowVenue.ReplayOfTheClosingOrderIsRefused`); it is
  adopted exactly when the guard passes (`ShadowVenue.ReplayAdoptsTheOrder`).
- Shadow venue ids are unique exactly until the 64-bit counter saturates
  (`ShadowVenue.VenueIdsUniqueUntilSaturation`); a longer run repeats one
  (`ShadowVenue.SomeRunRepeatsAVenueId`).
- A candle's recorded end is its interval's end exactly while it fits in 64 bits
  (`Candles.EndIsRightWhileItFits`); a trade at the last nanosecond opens one that ends before it
  starts (`Candles.LastCandleWraps`).
- Redelivering an accepted user-stream event is harmless exactly while its order has not grown
  (`UserStream.RedeliveryIsHarmlessUntilGrowth`); after two fills the first event disconnects the
  tracker (`UserStream.RedeliveryAfterGrowthDisconnects`). The source comment calls duplicates
  harmless.
- The Coinbase daily cap bounds acknowledged orders
  (`CoinbaseIntents.AcknowledgedStaysWithinTheCap`), not sent ones: twice the cap can be sent
  (`CoinbaseIntents.AmbiguousCallsEscapeTheCap`). What was sent is what was recorded plus the
  unacknowledged calls (`CoinbaseIntents.SentIsRecordedPlusUnacknowledged`), so an admitted order
  keeps the day within the cap exactly when the cap also covers those
  (`CoinbaseIntents.CallStaysWithinTheCapIff`).

## Model

| member | source | states |
|---|---|---|
| DepthBridge.BinanceDepthBridge.PushDelta | rust/crates/pg-marketdata/src/binance_depth.rs:91-115 | the in-place push takes exactly the specified step: buffers before a snapshot, applies after one, and any refusal leaves a fresh bridge |
| DepthBridge.BinanceDepthBridge.InstallSnapshot | rust/crates/pg-marketdata/src/binance_depth.rs:119-158 | installing parses both sides, refuses crossed or one-sided books, and drains the buffered diffs in order, stopping at the first failure |
| DepthBridge.BinanceDepthBridge.ApplyDelta | rust/crates/pg-marketdata/src/binance_depth.rs:160-247 | the in-place application equals the step function: skip, gap, bridge, update and publish, with the state reset on every error (what that step has to do is `OldDiffsAreDropped` and `RunFollowsTheStream`) |
| DepthBridge.BinanceDepthBridge.ValidBook | rust/crates/pg-marketdata/src/binance_depth.rs:249-254 | true exactly when both sides are non-empty and every bid is below every ask |
| DepthVenue.DrainTracksVenue | rust/crates/pg-marketdata/src/binance_depth.rs:119-158 | draining buffered faithful diffs leaves the venue book and returns only venue books |
| DepthVenue.DrainIsPushing | rust/crates/pg-marketdata/src/binance_depth.rs:119-158 | draining a queue is pushing its diffs one by one, failures included |
| DepthVenue.BufferingPushes | rust/crates/pg-marketdata/src/binance_depth.rs:91-115 | without a snapshot well-formed diffs are only appended to the buffer |
| DepthBridge.ParsedUpdatesAreValid | rust/crates/pg-marketdata/src/binance_depth.rs:257-269 | parsing succeeds exactly when every level has a positive price and a non-negative quantity, and then keeps each level in place |
| DepthVenue.SnapshotSideMeaning | rust/crates/pg-marketdata/src/binance_depth.rs:271-279 | of a snapshot's rows with a quantity the last one of each price is kept, and no others |
| DepthVenue.SetLevelsMeaning | rust/crates/pg-marketdata/src/binance_depth.rs:197-210 | after a run of level updates a price holds its last listed quantity, and a zero removes it |
| DepthVenue.DeltaAdvancesSide | rust/crates/pg-marketdata/src/binance_depth.rs:160-247 | a diff that overlaps or follows the held update id turns the book at that id into the venue book at the diff's last id |
| DepthVenue.TopIsBest | rust/crates/pg-marketdata/src/binance_depth.rs:223-243 | the published rows are the venue's best fifty levels of that side, best first, none omitted |
| DepthVenue.ApplyTracksVenue | rust/crates/pg-marketdata/src/binance_depth.rs:160-247 | whatever an accepted diff publishes is the venue book after its last update, including the overlapping first bridge |
| DepthVenue.ApplyAcceptsNextDelta | rust/crates/pg-marketdata/src/binance_depth.rs:160-247 | conversely the next contiguous faithful diff is accepted whenever the venue's own book after it is two-sided and uncrossed |
| DepthVenue.RunTracksVenue | rust/crates/pg-marketdata/src/binance_depth.rs:82-247 | over every run of faithful pushes, snapshots and resets the bridge equals the venue at its update id and publishes only venue books |
| DepthVenue.RunStaysReachable | rust/crates/pg-marketdata/src/binance_depth.rs:82-158 | in every reachable state an installed snapshot means an empty buffer and a two-sided, uncrossed, positive book; every error leaves a fresh bridge |
| DepthVenue.SequencesIncrease | rust/crates/pg-marketdata/src/binance_depth.rs:160-247 | published sequences strictly increase between snapshots |
| DepthVenue.SnapshotTimingIsInvisible | rust/crates/pg-marketdata/src/binance_depth.rs:91-158 | whichever well-formed diffs precede the snapshot within the buffer, its position changes neither outcome, final state nor last book, errors included |
| DepthVenue.LateSnapshotFails | rust/crates/pg-marketdata/src/binance_depth.rs:91-115 | a snapshot behind more than 2048 well-formed diffs never installs: the buffer overflows first |
| DepthStream.RefusedEvents | rust/crates/pg-marketdata/src/binance_depth.rs:91-115 | a diff is refused as invalid exactly for a wrong symbol, a missing or reversed id, a missing clock or an event time beyond 64 bits of nanoseconds; a full buffer refuses the rest |
| DepthStream.OldDiffsAreDropped | rust/crates/pg-marketdata/src/binance_depth.rs:160-172 | a diff that ends at or before the held update id is dropped without a book or an error, before the bridging one and after it, and changes nothing |
| DepthStream.RunFollowsTheStream | rust/crates/pg-marketdata/src/binance_depth.rs:82-247 | the exact outcome of every faithful stream with an installable snapshot at any position within the buffer: the venue book and last id of its newest diff, or the error of its first faulty diff |
| DepthStream.OtherSnapshotsAreRefused | rust/crates/pg-marketdata/src/binance_depth.rs:119-158 | a snapshot that does not parse or is crossed or one-sided is refused for that reason wherever it arrives |
| DepthStream.ChainedStreamIsFollowed | rust/crates/pg-marketdata/src/binance_depth.rs:82-247 | a stream of well-formed, parsing diffs, each chained to the one before it, one of them straddling the snapshot and the venue uncrossed from there on, ends bridged at its last id with the venue book, wherever the snapshot arrives |
| DiscoveryWorld.DiscoveryTree.Depth | rust/crates/pg-dream/src/world.rs:177-195 | the walking loop terminates on every graph and answers the specified walk, errors included |
| DiscoveryWorld.DiscoveryTree.Append | rust/crates/pg-dream/src/world.rs:148-165 | appends the validated child under the next sequence number, or reports the refusal unchanged |
| DiscoveryWorld.DiscoveryTree.Validate | rust/crates/pg-dream/src/world.rs:197-223 | the loop returns the first violation in key order, none when there is none |
| DiscoveryWorld.DepthMeansDistance | rust/crates/pg-dream/src/world.rs:177-195 | depth answers exactly for nodes that lead to a parentless node, with the saturated number of links |
| DiscoveryWorld.ValidateAcceptsTrees | rust/crates/pg-dream/src/world.rs:197-223 | validate accepts exactly the trees: one root, every other node linked to its parent and leading back |
| DiscoveryWorld.DepthIsGeneration | rust/crates/pg-dream/src/world.rs:123-146 | in an accepted tree the depth of a node is its variant's generation |
| DiscoveryWorld.EveryNodeIsRooted | rust/crates/pg-dream/src/world.rs:197-223 | in an accepted tree every node reaches the root in some number of links |
| DiscoveryWorld.AppendKeepsTree | rust/crates/pg-dream/src/world.rs:148-165 | appending an accepted child under a fresh id keeps the tree valid |
| DiscoveryWorld.AppendAddsTheNewestChild | rust/crates/pg-dream/src/world.rs:148-165 | an append records the child with its variant and outcome as the newest of its parent's children and touches no other node or child list |
| DiscoveryWorld.RefusedChild | rust/crates/pg-dream/src/world.rs:123-146 | a child is accepted exactly under its parent's variant and next generation, and each refusal carries the expected and the actual value |
| DiscoveryWorld.ChildrenFacts | rust/crates/pg-dream/src/world.rs:167-175 | children are nodes naming this parent, each once, in recording order |
| Exploration.BetterIsAWeakOrder | rust/crates/pg-dream/src/score.rs:113-119 | is_better is a strict weak order, so keeping the newest better score finds a maximum |
| Exploration.FeasibleMeaning | rust/crates/pg-dream/src/score.rs:65-111 | an outcome is scored unless its drawdown, turnover or cost is negative, and feasible exactly when it succeeded within every bound, bounds included |
| Exploration.UtilityDifference | rust/crates/pg-dream/src/score.rs:65-75 | each metric moves the utility by its own weight, return and Sharpe up, drawdown and cost down |
| Exploration.PriorityDifference | rust/crates/pg-dream/src/policy.rs:183-187 | utility counts in full, each level of depth and each unit of cost by its own penalty |
| Exploration.RankedIsSortedPermutation | rust/crates/pg-dream/src/policy.rs:191-227 | the ranking is a permutation of the candidates in priority order with its tie-breaks |
| Exploration.RankingMeaning | rust/crates/pg-dream/src/policy.rs:200-208 | of any two ranked candidates the earlier is feasible if the later is, then has no lower priority, then no later creation, then no greater id |
| Exploration.SlotOwner | rust/crates/pg-dream/src/policy.rs:191-227 | every ranked candidate gets exactly fan-out consecutive slots |
| Exploration.LinearExplorationPolicy.Select | rust/crates/pg-dream/src/policy.rs:191-227 | the policy stops on an exhausted budget, round or patience limit and otherwise names the first slots of the ranked candidates up to the worker limit |
| Exploration.LinearExplorationPolicy.FillSlots | rust/crates/pg-dream/src/policy.rs:191-227 | the nested filling loops stop exactly at the worker limit |
| Exploration.LinearActionMeaning | rust/crates/pg-dream/src/policy.rs:191-227 | the policy stops exactly on an exhausted budget, round or patience limit or without candidates, and otherwise names as many slots as it has workers for, slot k for the candidate ranked k / fan-out |
| Exploration.ValidConfigsStart | rust/crates/pg-dream/src/policy.rs:67-97 | among configurations with non-negative penalties and fan-out within the workers, the valid ones are those that expand something in the first round |
| Exploration.LinearActionIsObedient | rust/crates/pg-dream/src/policy.rs:191-227 | the linear policy never names a node it was not offered |
| Exploration.RevisionsFacts | rust/crates/pg-dream/src/policy.rs:103-159 | the revisions are distinct valid configurations, the incumbent first: exactly it and the valid proposals |
| Exploration.RevisionsAreOneStepAway | rust/crates/pg-dream/src/policy.rs:99-166 | a valid incumbent is revised to exactly the valid configurations one step of one setting away |
| Replay.PolicyCandidatesOf | rust/crates/pg-dream/src/replay.rs:228-254 | the candidate loop offers exactly the revealed nodes with unrevealed children, in id order, or the first error |
| Replay.ExpandParents | rust/crates/pg-dream/src/replay.rs:150-198 | the reveal loop follows the cursors, costs and best score of the specified expansion and stops at the budget |
| Replay.Run | rust/crates/pg-dream/src/replay.rs:104-226 | the replay loop terminates with the specified result for any policy (what that result is: `ReplayFollowsThePolicy`) |
| ReplayTrace.ReplayFollowsThePolicy | rust/crates/pg-dream/src/replay.rs:104-226 | every finished replay is told by its own trace: each round asked the policy with the view of what was revealed so far and revealed the oldest hidden children of the parents it named, and it ended exactly because rounds or budget were used up, the history was exhausted, the policy stopped or named nothing, or the next child of a named parent exceeded the budget |
| ReplayTrace.CandidatesAreOffers | rust/crates/pg-dream/src/replay.rs:228-254 | the policy is offered, in id order, each revealed node that hides a child, with its generation, sequence number, cost and score |
| ReplayTrace.NextHiddenIsOldest | rust/crates/pg-dream/src/replay.rs:156-170 | the next child of a parent is its hidden child with the least creation sequence, then the least id |
| ReplayTrace.ReplayHasObjective | rust/crates/pg-dream/src/replay.rs:201-226 | the reported objective is the best utility minus the cost penalty plus the bonus per attempt and round, minus the penalty of an infeasible best |
| ReplayProperties.ReplayGuarantees | rust/crates/pg-dream/src/replay.rs:104-254 | any finished replay revealed a parent-closed set of child prefixes, paid exactly its saturated cost within the budget, took fewer rounds than nodes, kept an unbeaten best node, and reports exhaustion exactly when the whole tree is revealed |
| ReplayProperties.ExhaustedMeansAllRevealed | rust/crates/pg-dream/src/replay.rs:201-222 | nothing is left to offer exactly when every node of the tree has been revealed |
| ReplayProperties.LinearReplayIsNeverIneligible | rust/crates/pg-dream/src/replay.rs:104-226 | the linear policy keeps to its offers, so the ineligible-action error never occurs |
| ReplayProperties.ReplayFailsForCause | rust/crates/pg-dream/src/replay.rs:104-254 | a replay fails only on an invalid tree, an experiment without a score or a node named though not offered, and with the world error exactly on an invalid tree; so on a valid scored tree every policy that keeps to its offers is replayed to the end |
| ReplayProperties.RevealKeepsCursors | rust/crates/pg-dream/src/replay.rs:156-179 | revealing the next child keeps every cursor equal to the revealed prefix of its children, and the child was new |
| Dream.SelectBest | rust/crates/pg-dream/src/replay.rs:311-325 | the selection loop returns the first index of a greatest average |
| Dream.ScoreAll | rust/crates/pg-dream/src/replay.rs:293-309 | one candidate per configuration in order, with its objectives over all worlds and their average; an error means some replay failed |
| Dream.EachWorldCountsOnce | rust/crates/pg-dream/src/replay.rs:293-309 | changing the objective of one world changes the sum behind the average by as much |
| Dream.AverageOfEquals | rust/crates/pg-dream/src/replay.rs:293-309 | the average of equal objectives is theirs |
| Dream.Improve | rust/crates/pg-dream/src/replay.rs:283-334 | all revisions are scored on the same worlds, the first best is selected, and it never falls below the incumbent; an error means some replay failed |
| OrderIdCodec.EncodeIntentBytes | rust/adapters/pg-binance/src/lib.rs:47-69 | the shift-buffer loop emits the 26 base-32 digits of the 128-bit value followed by two zero bits |
| OrderIdCodec.DecodeIntentBytes | rust/adapters/pg-binance/src/lib.rs:73-107 | the decoding loop accepts exactly well-formed ids whose pad bits are zero and returns their 16 bytes |
| OrderIdCodec.TakeByte | rust/adapters/pg-binance/src/lib.rs:54-62 | shifting in a byte keeps the buffer below 2^12 and the value read so far |
| OrderIdCodec.TakeDigit | rust/adapters/pg-binance/src/lib.rs:84-101 | shifting in a symbol keeps the buffer below 2^12 and the value read so far |
| OrderIdCodec.DecodingOfEncoding | rust/adapters/pg-binance/src/lib.rs:47-107 | every 128-bit identity survives encoding, in exactly 28 bytes |
| OrderIdCodec.EncodingOfDecoding | rust/adapters/pg-binance/src/lib.rs:73-107 | a decodable id is the encoding of what it decodes to: non-canonical pad bits are refused |
| OrderIdCodec.EncodingIsBase32 | rust/adapters/pg-binance/src/lib.rs:47-69 | the id is "pg" and 26 letters of the Base32 alphabet that hold the bits of the 16 bytes in order and two zero bits, five bits a letter, highest first |
| OrderIdCodec.DurableIdIsHex | rust/adapters/pg-binance/src/lib.rs:35-44 | the durable id is "pg" and the bytes in order, two lower-case hex digits each, the high half first |
| OrderIdCodec.DurableClientOrderId | rust/adapters/pg-binance/src/lib.rs:35-44 | the durable id is the hex form of the decoded bytes, absent exactly when decoding fails |
| OrderIdCodec.VenueIdFromDurable | rust/adapters/pg-binance/src/execution_adapter.rs:25-51 | the conversion loop with its malformed, split-character and non-canonical refusals |
| OrderIdCodec.IdentitiesAreABijection | rust/adapters/pg-binance/src/execution_adapter.rs:25-51 | one conversion answers an id exactly when the other maps it back |
| OrderIdCodec.ConversionMeaning | rust/adapters/pg-binance/src/execution_adapter.rs:25-51 | a durable id converts exactly when "pg" is followed by 32 lower-case hex digits, and is called non-canonical exactly when some of the 32 hex digits are upper-case |
| OrderIdCodec.SplitMeaning | rust/adapters/pg-binance/src/execution_adapter.rs:31-44 | slicing panics exactly when, after sections that all parsed, the next one ends inside a multi-byte character |
| TradeHistory.DecodeTradePage | rust/adapters/pg-binance/src/trade_history.rs:135-168 | the row loop refuses oversized, out-of-order or too-old rows and returns the trades with the cursor past the last |
| TradeHistory.DecodedFields | rust/adapters/pg-binance/src/trade_history.rs:83-131 | a row decodes exactly under the listed conditions on its fields, and the trade carries each value under its own name |
| TradeHistory.PageMeaning | rust/adapters/pg-binance/src/trade_history.rs:135-168 | a page is accepted exactly when the limit is 1 to 1000, no more rows came, all decode and ids strictly increase from the requested one; it holds the decoded rows, points just past the last and is short exactly when fewer came |
| HistoryReconcile.IndexOrders | rust/adapters/pg-binance/src/history_reconcile.rs:70-102 | the lookup tables are built exactly when every snapshot agrees with its owner and no venue or client id repeats |
| HistoryReconcile.VerifyTradeHistory | rust/adapters/pg-binance/src/history_reconcile.rs:55-162 | accepts exactly complete evidence that never overfills (for positive quantities: exactly complete evidence), returns exactly its trades, and every refusal names a defect the evidence has |
| HistoryReconcile.VerifiedTradesHaveOneOrder | rust/adapters/pg-binance/src/trade_history.rs:171-188 | in complete evidence each trade belongs to exactly one order, of the same symbol, side and venue id as its snapshot and under its durable id, whose trades add up to its filled quantity |
| HistoryReconcile.CheckTrades | rust/adapters/pg-binance/src/history_reconcile.rs:114-142 | the trade loop extends good evidence by the whole page, or stops at the first refused trade for the first reason that applies |
| HistoryReconcile.CheckPages | rust/adapters/pg-binance/src/history_reconcile.rs:104-151 | the page loop ends with well-shaped pages of good trades exactly when they all are |
| HistoryReconcile.CheckTotals | rust/adapters/pg-binance/src/history_reconcile.rs:152-156 | the closing loop passes exactly when every order's trades add up to its filled quantity |
| HistoryReconcile.GoodStep | rust/adapters/pg-binance/src/history_reconcile.rs:115-136 | a further trade keeps the evidence good exactly when it is past the cursor, owned and within its order |
| HistoryReconcile.SeenNeverMatters | rust/adapters/pg-binance/src/history_reconcile.rs:116-121 | an id at or past the cursor is never in the seen set, so the set decides nothing |
| HistoryReconcile.ConservationPreventsOverfills | rust/adapters/pg-binance/src/history_reconcile.rs:128-136 | with positive quantities, per-order conservation already excludes every running overfill |
| HistoryFetch.FetchVerifiedHistory | rust/adapters/pg-binance/src/history_fetch.rs:38-81 | against any reader success means complete evidence it served; against an honest venue success is exactly `Fetchable` and returns every trade from the anchor on after N/1000+1 reads |
| HistoryFetch.ReadToTheEnd | rust/adapters/pg-binance/src/history_fetch.rs:48-79 | the bounded read loop makes at most 32 reads and ends with the pages the reader served, failing only on unfetchable histories of an honest venue |
| HistoryFetch.ServesPage | rust/adapters/pg-binance/src/trade_history.rs:135-168 | an honest venue answers the k-th cursor with exactly the k-th thousand trades |
| HistoryFetch.HonestPagesAreComplete | rust/adapters/pg-binance/src/history_fetch.rs:38-81 | the pages of an honest venue are all its trades in order, and complete evidence exactly when orders are consistent, owning and conserving |
| HistoryFetch.LargestIdBlocksTheFetch | rust/adapters/pg-binance/src/history_fetch.rs:57-61 | a valid one-trade history with the largest id is not fetchable |
| UserStream.UserOrderTracker.Accept | rust/adapters/pg-binance/src/user_stream.rs:181-228 | the in-place accept takes exactly the specified step |
| UserStream.AcceptedExactly | rust/adapters/pg-binance/src/user_stream.rs:191-230 | on a reconciled connection exactly the first event of an order, a repeat of its last quantity without an untold trade, and a growth by exactly one untold trade are accepted, as new exactly with an untold trade |
| UserStream.CumulativeIsAccounted | rust/adapters/pg-binance/src/user_stream.rs:158-228 | between a reconcile and a disconnect each tracked quantity is its first observed value plus the later fills accepted as new |
| UserStream.NewAtMostOnce | rust/adapters/pg-binance/src/user_stream.rs:181-228 | each trade key is accepted as new at most once per connection |
| UserStream.BlockedUntilReconciled | rust/adapters/pg-binance/src/user_stream.rs:158-184 | an unhealthy tracker refuses every event and records nothing |
| UserStream.RefusalEmptiesTheTracker | rust/adapters/pg-binance/src/user_stream.rs:188-222 | a refusal on a healthy connection empties the state |
| UserStream.RedeliveryIsHarmlessUntilGrowth | rust/adapters/pg-binance/src/user_stream.rs:177-228 | redelivering an accepted event changes nothing exactly while its order has not grown, and disconnects otherwise |
| UserStream.RedeliveryAfterGrowthDisconnects | rust/adapters/pg-binance/src/user_stream.rs:177-228 | after two accepted fills of an order the first event, delivered again, disconnects the tracker |
| UserStream.EveryRunIsOneConnection | rust/adapters/pg-binance/src/user_stream.rs:158-228 | in every run of reconciles, disconnects and events an unhealthy tracker is empty, a reconcile after it starts afresh, and a healthy one has tracked exactly its connection's events |
| UserStream.EveryRunIsAccounted | rust/adapters/pg-binance/src/user_stream.rs:158-228 | in every run a tracked quantity is accounted for by the events of its connection |
| Subscription.SubscriptionSupervisor.ApplyDerivedFeeds | rust/crates/pg-marketdata/src/subscription.rs:37-55 | keeps known statuses, adds reconnecting ones and drops the rest |
| Subscription.SubscriptionSupervisor.Observe | rust/crates/pg-marketdata/src/subscription.rs:86-95 | an event connects exactly its own feed, if derived, and records its time |
| Subscription.SubscriptionSupervisor.MarkReconnecting | rust/crates/pg-marketdata/src/subscription.rs:97-104 | marks a known feed and counts the reconnect, saturating |
| Subscription.SubscriptionSupervisor.MarkFailed | rust/crates/pg-marketdata/src/subscription.rs:106-112 | marks a known feed failed and nothing else |
| Subscription.SubscriptionSupervisor.RefreshStaleness | rust/crates/pg-marketdata/src/subscription.rs:114-127 | exactly the non-failed feeds without a recent event become stale |
| Subscription.AllConnectedMeansEach | rust/crates/pg-marketdata/src/subscription.rs:61-70 | the comparison of two counts means that each derived feed is connected |
| Subscription.RunsAreSound | rust/crates/pg-marketdata/src/subscription.rs:37-127 | over every run the tables have the same keys and a connected feed has been heard from |
| Subscription.RefreshedConnectionsAreRecent | rust/crates/pg-marketdata/src/subscription.rs:114-127 | after a refresh, connected means heard from within the limit |
| Subscription.RefreshStalesTheSilent | rust/crates/pg-marketdata/src/subscription.rs:114-127 | a refresh marks exactly the non-failed feeds without an event within the limit and changes nothing else |
| Subscription.ConnectedMeaning | rust/crates/pg-marketdata/src/subscription.rs:37-127 | in every run a feed shows when it was last heard from and is connected exactly when that came after every failure, reconnect and stale refresh since it was derived |
| Oms.OrderRecord.Apply | rust/crates/pg-oms/src/lib.rs:146-174 | the legal transitions, every other event refused without change |
| Oms.OrderRecord.Accept | rust/crates/pg-oms/src/lib.rs:111-115 | only a pending submit is accepted, and then carries the venue id |
| Oms.OrderRecord.ApplyFill | rust/crates/pg-oms/src/lib.rs:117-144 | a fill is refused for the first reason that applies or added, completing the order exactly at the request |
| Oms.RunsAreBalanced | rust/crates/pg-oms/src/lib.rs:117-174 | over every run of a new record the filled quantity is the sum of accepted fills, within the request, and Filled means complete |
| Oms.TerminalAndUnknownAreFinal | rust/crates/pg-oms/src/lib.rs:96-174 | a terminal record never changes again and nothing leaves Unknown |
| Oms.StatesHaveCauses | rust/crates/pg-oms/src/lib.rs:96-174 | in every run of a new record no state is reached without the events that cause it, and the first state is left exactly by submitting |
| Oms.LegalTransitions | rust/crates/pg-oms/src/lib.rs:146-174 | the legal transitions as a relation |
| Oms.FillsAreTaken | rust/crates/pg-oms/src/lib.rs:117-144 | a fill is accepted exactly when it is positive, fits in what is left and the order is at the venue, and completes the order exactly when it takes all that is left |
| UnattendedGuard.PolicyOrders.PolicyOrderBusy | rust/crates/pg-core/src/unattended_guard.rs:61-87 | busy exactly when an active order is visible or the attempt is not settled; only a settled attempt is forgotten |
| UnattendedGuard.FreeMeaning | rust/crates/pg-core/src/unattended_guard.rs:56-87 | a strategy is free exactly when all its records are filled, canceled or rejected and its last attempt has such a record of its own venue |
| RuntimePins.DeriveRuntimePins | rust/crates/pg-core/src/live_daemon.rs:1146-1185 | the two loops derive exactly the hold, strategy and operational pins of the positions and orders |
| RuntimePins.PinsMeaning | rust/crates/pg-core/src/live_daemon.rs:1146-1185 | an asset is held, operational or a strategy's exactly for the stated positions and orders |
| DaemonLoop.Daemon.OnMarketEvent | rust/crates/pg-core/src/live_daemon.rs:514-611 | the arm sends exactly the admitted intents, none after a halt, and takes one protocol step |
| DaemonLoop.Daemon.CollectVenues | rust/crates/pg-core/src/live_daemon.rs:618-659 | the venue loop collects cleanliness, holds, orders and positions as specified |
| LiveDaemon.CollectMeaning | rust/crates/pg-core/src/live_daemon.rs:618-659 | the collection is clean exactly when every venue is, holds what any venue holds and knows exactly what some reconciled venue reported |
| DaemonLoop.Daemon.OnReconcile | rust/crates/pg-core/src/live_daemon.rs:612-717 | the arm replaces the snapshot and pins only on a clean cycle, extends the hold otherwise, and recomputes admission |
| DaemonLoop.Daemon.OnHealthTick | rust/crates/pg-core/src/live_daemon.rs:854-888 | the arm refreshes staleness, the market-data gate and admission |
| DaemonLoop.Daemon.OnEmergencyExit | rust/crates/pg-core/src/live_daemon.rs:977-1042 | the arm halts for good and sends only closing orders |
| DaemonLoop.Daemon.OnUniverseTick | rust/crates/pg-core/src/live_daemon.rs:735-804 | the arm freezes exposure first and unblocks only a fully applied topology |
| DaemonLoop.Daemon.OnFeedFatal | rust/crates/pg-core/src/live_daemon.rs:805-831 | the arm marks the feed failed, closes admission and restarts the feed as reconnecting |
| DaemonLoop.Daemon.OnStart | rust/crates/pg-core/src/live_daemon.rs:945-976 | start is accepted exactly without a halt and with all gates, feeds and the entry guard ready, and is otherwise refused unchanged |
| DaemonLoop.Daemon.OnReload | rust/crates/pg-core/src/live_daemon.rs:1052-1104 | a reload freezes exposure and stays blocked unless a static topology was applied |
| DaemonLoop.Daemon.OnShutdown | rust/crates/pg-core/src/live_daemon.rs:1105-1125 | shutdown closes admission and sends only closing orders |
| DaemonLoop.Daemon.OnLeaseLost | rust/crates/pg-core/src/live_daemon.rs:832-853 | losing the lease leaves the loop through the same shutdown policy: admission closed, only closing orders |
| DaemonLoop.Daemon.SubmitIntent | rust/crates/pg-core/src/live_daemon.rs:1366-1389 | an intent is attempted exactly when hold and risk gate admit it |
| LiveDaemon.DispatchedExactly | rust/crates/pg-core/src/live_daemon.rs:1366-1395 | of a list of intents exactly those reach the venue that have a positive quantity and, if they increase, come while exposure is allowed on an asset that is not held |
| LiveDaemon.FlatteningOnlyCloses | rust/crates/pg-core/src/live_daemon.rs:1757-1870 | each flattening order is reduce-only and brings exactly one reported strategy-owned position to flat: the same asset, the opposite signed quantity |
| LiveDaemon.FlatteningIsComplete | rust/crates/pg-core/src/live_daemon.rs:1757-1870 | every reported strategy-owned position that is not flat is closed by some flattening order |
| LiveDaemon.FlatteningClosesEach | rust/crates/pg-core/src/live_daemon.rs:1757-1870 | flattening sends exactly one order per owned, non-flat position, in the order of the report, and each closes its position |
| LiveDaemon.EveryRunIsSafe | rust/crates/pg-core/src/live_daemon.rs:512-1110 | the gate, halt and hold invariants hold in every reachable state |
| LiveDaemon.StartupIsInitial | rust/crates/pg-core/src/live_daemon.rs:412-419 | every startup, clean or not, enters the loop with exposure closed, no halt and pins that hold what its snapshot demands |
| LiveDaemon.AdmissionIsJustified | rust/crates/pg-core/src/live_daemon.rs:512-1110 | in every reachable state admission of new exposure means no halt, started, no topology blocker, last reconcile clean, all required gates passed and each feed connected |
| LiveDaemon.AdmissionIsExact | rust/crates/pg-core/src/live_daemon.rs:512-1110 | after a reconcile, a health tick or an operator start exposure is allowed exactly when all gates hold, and no other step opens it |
| LiveDaemon.TheseStepsClose | rust/crates/pg-core/src/live_daemon.rs:512-1110 | stop, exit, fatal feed, topology change, reload and leaving the loop close it |
| LiveDaemon.TopologyBlocksUntilApplied | rust/crates/pg-core/src/live_daemon.rs:735-1104 | a topology change blocks unless fully applied, a reload also while universes are dynamic, and nothing else touches that gate |
| LiveDaemon.IncreasesAreGated | rust/crates/pg-core/src/live_daemon.rs:1366-1389 | every increase that reaches the venue passed all gates, on an asset that no manual or unknown position and no ambiguous order of the last adopted snapshot holds |
| LiveDaemon.NothingAfterEmergencyExit | rust/crates/pg-core/src/live_daemon.rs:977-1042 | after an emergency exit nothing reaches the venue in that run but the reduce-only closing orders of another exit or of leaving the loop |
| LiveDaemon.HoldOnlyShrinksOnCleanCycles | rust/crates/pg-core/src/live_daemon.rs:691-709 | the hold shrinks only on a clean cycle, and then to exactly what that cycle justifies |
| PolicyProtocol.OneOpenRecordInEveryRun | rust/crates/pg-core/src/unattended_guard.rs:56-87 | in every run, with lost acknowledgments, unclean reconciles and restarts, a strategy has at most one policy order with a non-terminal record, and is busy while it has one |
| PolicyProtocol.OneLiveOrderUnlessARecordLies | rust/crates/pg-core/src/unattended_guard.rs:56-87 | in every such run at most one live policy order of a strategy is not recorded as terminal |
| PolicyProtocol.IncreasesFindNothingLive | rust/crates/pg-core/src/live_daemon.rs:571-601 | in every such run an increase is dispatched only when no policy order of its strategy is live, trusting terminal records of clean reconciles only |
| PolicyProtocol.EveryRunIsSound | rust/crates/pg-orchestrator/src/lib.rs:552-650 | in every run the adopted records are known ones, open records and, after a clean reconcile, live orders block their strategy |
| PolicyProtocol.CoveredIffEveryStartShows | rust/crates/pg-core/src/live_daemon.rs:320-339 | live policy orders block their strategy in every state of a run exactly when every start adopts an active record for each strategy with a live order |
| PolicyProtocol.OneLiveOrderIfEveryStartShows | rust/crates/pg-core/src/unattended_guard.rs:56-87 | if every start shows such records, clean or not, no strategy ever has two live policy orders |
| PolicyProtocol.StartsThatHideNothingShow | rust/crates/pg-core/src/live_daemon.rs:320-339 | a start shows them unless it adopts a terminal record of a live order, and clean starts never do |
| PolicyProtocol.DoublesIffNotBusy | rust/crates/pg-core/src/live_daemon.rs:571-601 | a reduce-only decision adds a second live order exactly when the strategy is not busy |
| PolicyProtocol.StartDoublesIffAllRecordsTerminal | rust/crates/pg-core/src/live_daemon.rs:320-339 | after a start, it does so exactly when every record of the strategy that the start adopted is terminal |
| PolicyProtocol.FreeAfterCleanReconcile | rust/crates/pg-core/src/unattended_guard.rs:56-87 | a clean reconcile frees a strategy exactly when all its records are terminal and its last attempt was journaled; it may then dispatch again |
| PolicyProtocol.UncleanStartAdmitsTwoLiveOrders | rust/crates/pg-core/src/live_daemon.rs:320-339 | a dispatch error taken for a rejection, an unclean start and a reduce-only decision give a strategy two live orders |
| PositionBasis.PositionViewFromFills | rust/crates/pg-core/src/live_daemon.rs:1540-1618 | the fold over fills returns the specified view or the first refusal |
| PositionBasis.FoldMeaning | rust/crates/pg-core/src/live_daemon.rs:1540-1618 | for positive fills the net is the signed sum, an average exists exactly when exposed, and the entry orders are exactly those that increased since last flat |
| PositionBasis.AverageBetweenEntryPrices | rust/crates/pg-core/src/live_daemon.rs:1568-1593 | the average lies between the least and greatest increase price since last flat |
| PositionBasis.ShadowAverageIsCostBasis | rust/crates/pg-execution/src/shadow.rs:108-134 | after every run of fills the shadow average times the absolute net is the cost basis: what increases cost at their own prices, reduced in proportion |
| PositionBasis.RunAverageIsCostBasis | rust/crates/pg-execution/src/shadow.rs:108-134 | and so is every average the shadow venue holds, in any run of submits and cancels whose fills have a price |
| PositionBasis.DaemonAverageIsCostBasis | rust/crates/pg-core/src/live_daemon.rs:1540-1618 | the average of the fold over fills times the absolute net is that same cost basis |
| PositionBasis.ShadowAgrees | rust/crates/pg-execution/src/shadow.rs:108-134 | on every accepted list of positive fills the shadow venue ends with the same quantity and average |
| PositionBasis.AcceptedViewIsFaithful | rust/crates/pg-core/src/live_daemon.rs:1540-1618 | an accepted view reports the reconciled signed sum, the shadow venue's average and the number of increase orders since last flat |
| PositionBasis.ViewAcceptedExactly | rust/crates/pg-core/src/live_daemon.rs:1540-1618 | a view is accepted exactly when every fill has a recorded effect and has that effect on the position before it, the fills add up to the reconciled quantity and the entry orders fit in 32 bits |
| ShadowVenue.ShadowExecutionAdapter.Submit | rust/crates/pg-execution/src/shadow.rs:313-376 | the in-place submit takes exactly the specified step |
| ShadowVenue.ShadowExecutionAdapter.Cancel | rust/crates/pg-execution/src/shadow.rs:378-404 | cancels the first located working order and nothing else |
| ShadowVenue.CancelMeaning | rust/crates/pg-execution/src/shadow.rs:378-404 | the first order that the client or venue id names is canceled exactly when it is open or partially filled, with nothing else changed; without one the cancel is unknown |
| ShadowVenue.ShadowExecutionAdapter.GuardReduceOnly | rust/crates/pg-execution/src/shadow.rs:279-308 | the guard's refusals in order: quantity, flat, same direction, crossing |
| ShadowVenue.GuardMeaning | rust/crates/pg-execution/src/shadow.rs:279-308 | the guard passes exactly the orders that take their whole quantity off the position, and each refusal names what is wrong |
| ShadowVenue.AcknowledgedExactly | rust/crates/pg-execution/src/shadow.rs:313-376 | a submit is acknowledged exactly for a positive quantity at this venue that, if it may only reduce, does reduce; a refused one changes nothing |
| ShadowVenue.NewOrderIsBooked | rust/crates/pg-execution/src/shadow.rs:313-376 | an acknowledged new intent adds exactly its own order and, filled immediately, moves exactly its asset by its signed quantity, opening a flat one at the limit price or else the reference |
| ShadowVenue.ShadowExecutionAdapter.ApplyFillInPlace | rust/crates/pg-execution/src/shadow.rs:108-134 | updates exactly one asset's position with the specified quantity, average and count |
| ShadowVenue.RunIsSound | rust/crates/pg-execution/src/shadow.rs:279-404 | over every run each net position is the signed sum of its orders' fills, client ids are unique and orders are filled wholly or not at all |
| ShadowVenue.VenueIdsUniqueUntilSaturation | rust/crates/pg-execution/src/shadow.rs:344-345 | venue ids are unique exactly while no more orders exist than the counter can number |
| ShadowVenue.SomeRunRepeatsAVenueId | rust/crates/pg-execution/src/shadow.rs:344-345 | there is a run of submits that repeats a venue id |
| ShadowVenue.ReplayAdoptsTheOrder | rust/crates/pg-execution/src/shadow.rs:313-342 | resubmitting a known intent changes nothing and is acknowledged with the existing order exactly when the guards pass |
| ShadowVenue.ReplayOfTheClosingOrderIsRefused | rust/crates/pg-execution/src/shadow.rs:313-342 | replaying the order that flattened a position is refused |
| ShadowVenue.ReduceOnlyShrinks | rust/crates/pg-execution/src/shadow.rs:279-308 | an accepted reduce-only fill shrinks the position by its quantity without changing its sign |
| CausalReplay.ReplayQuote | research/src/pg_tsy/sim/causal.py:108-173 | the replay loops compute the closed form, with the value errors and early statuses |
| CausalReplay.FillThroughQueue | research/src/pg_tsy/sim/causal.py:138-160 | the queue loop's raw fills and remainder are the closed form min(Q, max(0, V - ahead)) on every prefix |
| CausalReplay.PublishFills | research/src/pg_tsy/sim/causal.py:161-171 | the marking loop publishes exactly the raw fills that have a mark and reports whether all have |
| CausalReplay.CheckIncreasing | research/src/pg_tsy/sim/causal.py:120-121 | the adjacent comparison decides whether all timestamps strictly increase |
| CausalReplay.RawFillsAddUp | research/src/pg_tsy/sim/causal.py:138-160 | the raw fills add up to min(Q, max(0, V - ahead)) |
| CausalReplay.FillsBehindTheQueue | research/src/pg_tsy/sim/causal.py:130-160 | the fills up to any time add up to what had traded with the quote by then, at its own price and side, less what was displayed before it at the back of the queue |
| CausalReplay.QuoteRestsAtTheTouch | research/src/pg_tsy/sim/causal.py:122-137 | the quote rests exactly when it arrives at its own touch; unobserved, crossing and off-touch arrivals are told apart and fill nothing |
| CausalReplay.RestingQuoteOutcome | research/src/pg_tsy/sim/causal.py:138-173 | a resting quote is left with what did not fill, and is filled, canceled or resting accordingly |
| CausalReplay.PublishedFillsArePriced | research/src/pg_tsy/sim/causal.py:161-171 | every published fill is a raw fill, with the fee of its value and the markout of the position it opened at the mid of the first later event that is the markout away |
| CausalReplay.QueueRankBounds | research/src/pg_tsy/sim/causal.py:176-179 | on every tape the back of the queue never fills more than the front and trails it by at most the depth at arrival |
| CausalReplay.FillsAreWithinTheQuotesLife | research/src/pg_tsy/sim/causal.py:138-160 | every fill is strictly after arrival and before the cancel takes effect, at the quote's price |
| CausalReplay.RawFillsDependOnThePast | research/src/pg_tsy/sim/causal.py:108-160 | the fills up to a time are those of the tape known at that time |
| CausalReplay.PublishedFillsAreCausalIff | research/src/pg_tsy/sim/causal.py:161-171 | the published list up to a time equals what was published then exactly when no fill's horizon lies after the last event known then and within the tape |
| CausalReplay.LastFillDecides | research/src/pg_tsy/sim/causal.py:161-171 | where the tape reaches the horizon of the last fill known at a time, that horizon alone decides |
| CausalReplay.PublishedFillsLookAhead | research/src/pg_tsy/sim/causal.py:161-171 | a quote filled by the last known trade is published only after a later event |
| CausalReplay.CompleteMeansAllPublished | research/src/pg_tsy/sim/causal.py:161-173 | the published quantity is the whole filled quantity exactly when the marks are complete |
| RateLimiter.RateLimiter.Allow | rust/crates/pg-control/src/lib.rs:216-258 | each answer is the policy's over the accepted requests so far, and only an accepted request leaves a trace |
| RateLimiter.RateLimiter.Prune | rust/crates/pg-control/src/lib.rs:221-232 | after popping expired entries the queue length is the number of accepted commands in the last minute |
| RateLimiter.RateLimiter.CheckCooldowns | rust/crates/pg-control/src/lib.rs:236-249 | comparing with the last accepted one decides whether all earlier ones have cooled down |
| RateLimiter.RefusedOnlyForCause | rust/crates/pg-control/src/lib.rs:216-258 | a command is refused exactly when the last minute of its user is full or an accepted refresh or emergency is still cooling down, and for the first of these reasons |
| RateLimiter.Serve | rust/crates/pg-control/src/lib.rs:216-258 | a whole monotone sequence of calls is answered exactly by the policy |
| RateLimiter.EveryWindowIsBounded | rust/crates/pg-control/src/lib.rs:222-232 | every half-open minute holds at most the configured number of accepted commands of a user |
| RateLimiter.CooldownsAreKept | rust/crates/pg-control/src/lib.rs:236-255 | accepted refreshes, and accepted emergencies, are at least their cooldown apart |
| RateLimiter.RejectedRequestsLeaveNoTrace | rust/crates/pg-control/src/lib.rs:216-258 | deleting a rejected command changes neither what is accepted nor the answer to any other command |
| Candles.CandleAggregator.PushTrade | rust/crates/pg-marketdata/src/lib.rs:325-361 | the in-place push takes exactly the specified step |
| Candles.StreamIsBatch | rust/crates/pg-marketdata/src/lib.rs:325-361 | completed candles followed by the current one are the batch grouping of the accepted trades over strictly increasing buckets |
| Candles.ExtremesAreMet | rust/crates/pg-marketdata/src/lib.rs:325-361 | the high and the low of a batch are prices of its trades and no price lies beyond them |
| Candles.RejectedTradeLeavesTheStream | rust/crates/pg-marketdata/src/lib.rs:325-333 | a trade is refused exactly when its bucket precedes the current one, with both times, and changes nothing |
| Candles.VolumeIsConserved | rust/crates/pg-marketdata/src/lib.rs:325-361 | total candle volume is the accepted quantity |
| Candles.TradesLieInTheirCandle | rust/crates/pg-marketdata/src/lib.rs:325-361 | each candle of a stream summarizes its accepted trades, all of which lie in its aligned interval |
| Candles.IntervalsAreDisjoint | rust/crates/pg-marketdata/src/lib.rs:325-361 | each candle of a stream starts no earlier than the interval of every earlier one ends |
| Candles.EndIsRightWhileItFits | rust/crates/pg-marketdata/src/lib.rs:352 | a candle's recorded end is its interval's end exactly while that fits in 64 bits, and otherwise precedes its start |
| Candles.LastCandleWraps | rust/crates/pg-marketdata/src/lib.rs:352 | for every interval a trade at the last nanosecond opens a candle that ends before it starts |
| CoinbaseIntents.Worker.HandleSignal | integrations/coinbase_rss_live/src/worker.py:66-110 | handling a signal is the specified run of protocol steps for its guard, answer and crash point, with at most one call |
| CoinbaseIntents.SignalOutcomes | integrations/coinbase_rss_live/src/worker.py:66-110 | what handling a signal does for each guard, answer and crash point: which intent state is left, whether a call was made and what the day's total became |
| CoinbaseIntents.Worker.ProcessRows | integrations/coinbase_rss_live/src/worker.py:113-124 | a cycle handles, only when armed, exactly the new rows with a signal since the baseline, each once, in order and up to the first crash; unarmed it changes no intent and calls nothing |
| CoinbaseIntents.Worker.ProcessRow | integrations/coinbase_rss_live/src/worker.py:115-124 | one row: recorded first, then handled exactly when new, recent, with a signal and armed |
| CoinbaseIntents.CreateOrderIsRationed | integrations/coinbase_rss_live/src/coinbase_live.py:56-77 | in every run with crashes create_order is called at most once per event and at most once more than operators reconciled, and a started call is never recorded as rejected |
| CoinbaseIntents.AcknowledgedStaysWithinTheCap | integrations/coinbase_rss_live/src/worker.py:66-76 | the day's recorded total is the acknowledged one and stays within the cap |
| CoinbaseIntents.SentIsRecordedPlusUnacknowledged | integrations/coinbase_rss_live/src/worker.py:66-110 | in every run what was sent on a day is the recorded total plus the unacknowledged calls |
| CoinbaseIntents.CallStaysWithinTheCapIff | integrations/coinbase_rss_live/src/worker.py:66-76 | an admitted order keeps what is sent within the cap exactly when recorded, unacknowledged and its own amount fit in it |
| CoinbaseIntents.SentStaysWithinTheCap | integrations/coinbase_rss_live/src/worker.py:66-110 | on a day without an unacknowledged call, what is sent is what is recorded and within the cap |
| CoinbaseIntents.AmbiguousCallsEscapeTheCap | integrations/coinbase_rss_live/src/worker.py:98-110 | an ambiguous call is not counted, so twice the cap can be sent in a day |

## Left out

- Decimal and floating-point representation: rounding, overflow, NaN and signed zero; quantities and prices are reals.
- JSON, decimal text and environment parsing: components start from parsed records with the checks the code makes on them.
- Network, TLS, signing, SQL and SDK calls: their results are arguments of the modelled steps.
- Debug-build overflow panics, lock poisoning and scheduling inside one lock.
- The window between the software reduce-only guard and the order it admits: a submit is one step.
- Deserialized discovery trees whose map keys differ from their node ids, and saved sequence numbers that collide.
- The exploration policy interface is a function of the view rather than an object with state.
- Registry, strategy evaluation and policy rules: a market event carries the intents they produce.
- Health snapshots, observability, journaling of operator commands and the HTTP control channel.
- Hyperliquid and IBKR adapters, order matching and composite coordination.
- `SequenceTracker` and `FeedFreshness`: single comparisons.
- Hash-derived Coinbase client ids and the UNIQUE constraint on them; intents are keyed by event.
- TradeHistory.DecodeTradePage: a side other than BUY or SELL and a position side other than BOTH are given as missing values, since text matching is not modelled.
- HistoryReconcile.VerifyTradeHistory: which of several defects is reported is fixed for trades (the first refused trade, in the order of the checks) but not between pages and trades of different pages.
- DaemonLoop.Daemon.OnMarketEvent: the busy check between two policy intents of one event is proved in `UnattendedGuard` and `PolicyProtocol`, not inside this method.
- LiveDaemon.IncreasesAreGated: at startup the last adopted snapshot may be the unclean startup one, since the program adopts it too.
- PolicyProtocol.IncreasesFindNothingLive: assumes that a terminal record in a clean reconcile is terminal at the venue; the comparison that makes a reconcile clean is not modelled.
- PolicyProtocol.OneOpenRecordInEveryRun: the store starts empty, every process runs with the same configured venues, and record writes keep identities and terminal states, as the snapshot validation demands; orders of other paths may carry the same strategy and are not counted.
- RateLimiter.RateLimiter.Allow: the clock is read inside the lock here; the program reads it just before taking the lock.
- Candles.CandleAggregator.PushTrade: the trade counter is unbounded.
