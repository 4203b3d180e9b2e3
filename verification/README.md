# Verified model of the market-data core

A Dafny 4.11 model of the trading core's stateful heart and proofs about every run of it. The
primary subject is order-book replication: a venue publishes depth-limited snapshots and sequenced
updates, the connector buffers, attaches, detects gaps and rebuilds (`BookSet`), the core's
read-model and the terminal's feed fold what the connector publishes. Around it stand the other
parts that carry state: the single-writer store, the rate limiter, the retry ring, the paged
instrument catalogue, candle folding and its read-model, the outbound batcher and the retention
sweep.

Verify everything with `dafny verify dfyconfig.toml --resource-limit 2000000`.

## How it is laid out

Each file is one component, in one module.

| file | component |
|---|---|
| `Base.dfy` | options, bounded deques, the standard library's `binary_search_by` |
| `Ids.dfy`, `Market.dfy`, `Wire.dfy` | symbols, the order book and its updates, the venue's two sequencing schemes |
| `Books.dfy`, `Attach.dfy` | the set of books; attachment of a snapshot; how often snapshots are asked for |
| `Replica.dfy`, `Session.dfy`, `Lagging.dfy`, `Truth.dfy` | what is published and folded; late joiners; sessions that fall behind; what the copies say about the venue |
| `Candles.dfy`, `ReadModel.dfy` | candle series; the core's and the terminal's copies of books and charts |
| `Store.dfy`, `Retention.dfy` | the writer, its queue and its batches; the sweep |
| `Limits.dfy`, `Idempotency.dfy`, `Catalogue.dfy`, `Batch.dfy` | rate limiter, retry ring, catalogue, batcher |

Objects the source updates in place are classes; their methods follow the source's loops and
branches and are proved equal to functions on the object's value, and the theorems are about those
functions over whole runs. Where the source keeps owned structs inside a hash map (an entry of
`BookSet`, a consumer's books and charts) the map is a field of the class and the structs are values
in it; a book is taken out as an `OrderBook`, updated in place, and put back. Prices and quantities
are integers on the venue's decimal grid, timestamps and identifiers are unbounded unless a width
matters: the limiter's and the bars' 32-bit counters, the 64-bit request ids and the array header's
32-bit count are written out, with the wrap-around of the release build.

The clock, the network, the venue's answers, the serialiser, SQL statements and the choices and
failures of the database are parameters or unconstrained.

## What does not hold as documented

* `BookSet::install_snapshot` says a rejected snapshot keeps the remaining updates. The buffer has
  already been emptied by then. A snapshot is rejected if and only if some buffered update breaks the
  chain from it: the first one past the snapshot does not reach back to it, or a later one does not
  start where the update before it ended (`Attach.RejectedExactlyWhen`, for any buffer;
  `Attach.RisingBreaks` says it for rising ids, `Attach.ReplayJoins` for a stream without holes).
  Afterwards only what was received since counts (`Attach.AfterRejection`), so that on a gapless stream
  snapshots are refused that the kept updates would have joined: those not older than the stream's
  start but older than the first update since the rejection (`Attach.LostBufferCosts`;
  `Attach.RefusedTwice` is a run).
* `ReqRing` promises that anything evicted is refused. The floor is overwritten, not raised, and wraps
  behind the largest id, so that holds if and only if no evicted id is above the one evicted last and
  that one is not the largest of all (`Idempotency.ForgottenAreRefused`); `Idempotency.ExecutedTwice`
  is a run in which one id executes twice, and `Idempotency.AtMostOnce` is the guarantee for
  first-time ids in increasing order.
* The read-model keeps one bar per open time. Tick bars can share a millisecond, and then one of them
  is lost: the chart shows the connector's newest bars at every moment if and only if the prints that
  start the bars, one in every `count`, come at strictly increasing times
  (`ReadModel.TickChartFollowsExactlyWhen`; `ReadModel.SameMillisecondLosesABar` is a tape on which it
  does not). Time bars always do.
* A refused `COMMIT` that leaves its transaction open, or a refused `ROLLBACK` after a failed statement,
  is never cleaned up (`Store.CommitsExactlyWhen` says exactly when a batch ends that way), and from
  then on every job is refused (`Store.LeftOpenStaysStuck`; `Store.GetsStuck` is a run from the start).
* `RateLimiter::observe_rejection` without a hint gives up the window as it was last rolled; if that
  window had already turned over, the next request goes straight out (`Limits.RejectionHolds` says
  exactly when one does; `Limits.RejectionForgotten` is a run from a fresh limiter).
* The terminal is told when it has fallen behind, but nothing is sent to repair its copies. A copy that
  was right stays right through an overflow if and only if no lost event about its symbol was newer than
  it; otherwise it is still in step only if a snapshot of the book is still to come
  (`Lagging.LagExactly`). Over whole sessions that makes a set of exact copies, refilled by every client
  message and by each snapshot taken; a caught-up session shows the core's book of a subscribed symbol
  if and only if its copy is in that set (`Lagging.CaughtUpExactly`). `Lagging.FallsBehind` is a session,
  from its opening on, that ends with an old book. This supposes a log whose events about the symbol
  chain and do not go back, which one connection of the connector publishes
  (`Lagging.OneConnectionIsOrderly`).

## Model

| member | source | states |
|---|---|---|
| Ids.KeyIsInjective | crates/domain/src/ids.rs:87-89 | two symbols have the same key only if they are the same symbol |
| StdSearch.SearchFinds | crates/domain/src/market.rs:134 | the standard search on an ordered slice finds the element, or the one place where it belongs |
| Market.OrderBook.Apply | crates/domain/src/market.rs:107-129 | the in-place update computes the new book and the outcome that the lemmas below characterise |
| Market.MergeSide | crates/domain/src/market.rs:132-146 | the loop of searches, removals, overwrites and insertions computes the merged side |
| Market.SideRefinesMap | crates/domain/src/market.rs:132-154 | on a sorted side, in either direction, merging is the fold of set-or-remove over a price-to-quantity map and the side stays sorted, without repeated or empty levels |
| Market.SortedSideIsUnique | crates/domain/src/market.rs:31-34 | a sorted side is the only listing of its map |
| Market.ApplyMeans | crates/domain/src/market.rs:95-129 | exactly when an update is stale, a gap or applied; what it does to both maps; a stale or gap-exposing one changes nothing |
| Wire.SchemesChain | crates/binance/src/wire.rs:88-106 | a gapless spot stream and a gapless futures stream both become one gapless chain |
| Wire.NoGapUnlessDropped | crates/binance/src/wire.rs:88-106 | in either scheme a synced book takes every event of a gapless stream, and after any run of dropped events the next one reports the gap and leaves the book untouched |
| Books.BookSet.OnDelta | crates/marketdata/src/books.rs:96-136 | one update changes one symbol's entry as the per-entry operation says, and no other |
| Books.BookSet.InstallSnapshot | crates/marketdata/src/books.rs:142-177 | the replay loop installs or rejects the snapshot for its symbol; unknown symbols are ignored |
| Books.BookSet.SnapshotFailed | crates/marketdata/src/books.rs:199-203 | only the outstanding-request flag of that symbol is lowered |
| Books.BookSet.Reset | crates/marketdata/src/books.rs:206-208 | nothing is remembered |
| Books.TakenUpdate | crates/marketdata/src/books.rs:117-124 | an update that joins or chains advances the book and the time it moved; the first is announced whole, later ones are forwarded |
| Books.StaleUpdate | crates/marketdata/src/books.rs:125-126 | an update the book has already seen changes nothing and is not forwarded |
| Books.GapRebuilds | crates/marketdata/src/books.rs:127-134 | on a gap, in the chain or at the join, the book is dropped, the update that exposed it is kept alone, nothing is forwarded, and a snapshot is asked for exactly if no request was made or it is as old as the deadline (outstanding) or the cooldown (not) |
| Books.BooklessHolds | crates/marketdata/src/books.rs:107-112 | without a book an update joins the buffer, or starts it afresh where it was full, and nothing is forwarded |
| Books.OutstandingBlocks | crates/marketdata/src/books.rs:222-237 | once a snapshot is asked for, the next update asks again exactly if the deadline has passed |
| Books.FrozenIsReported | crates/marketdata/src/books.rs:187-193 | a symbol is reported frozen exactly if it has a book that last moved more than the given age ago |
| Books.StaleMeansUnmoved | crates/marketdata/src/books.rs:112-127 | a book that was just advanced is not reported frozen; one an update did not touch is as frozen as before |
| Books.InstalledIsNotStale | crates/marketdata/src/books.rs:170-192 | a symbol that was just given a snapshot is not reported frozen |
| Books.EntryOkKept | crates/marketdata/src/books.rs:66-76 | every operation keeps: a symbol with a book buffers nothing, the buffer is bounded, an outstanding request has a time |
| Attach.ReplayJoins | crates/marketdata/src/books.rs:107-177 | on a gapless stream replay meets a gap if and only if the snapshot is older than the stream's start, and otherwise joins at the first update past it |
| Attach.AttachmentConverges | crates/marketdata/src/books.rs:107-177 | on a gapless stream without overflow or second snapshot: the book attaches exactly at the first update past the snapshot, buffered or later, is announced there and only there, is forwarded afterwards, and no further snapshot is asked for |
| Attach.DroppedStretchRebuilds | crates/marketdata/src/books.rs:96-136 | after a dropped stretch of a gapless stream the next update leaves no live book, is kept, and is not forwarded |
| Attach.RebuiltAfterDrop | crates/marketdata/src/books.rs:96-177 | from that gap on, the rest of the stream and a snapshot bring the book back exactly as `AttachmentConverges` says of a new one |
| Attach.RequestsAreBounded | crates/marketdata/src/books.rs:211-237 | between resets one symbol asks for at most 1 + elapsed / min(cooldown, deadline) + updates / buffer size snapshots |
| Attach.ConnectorRequestsAreBounded | crates/binance/src/lib.rs:349-375 | the same bound on the rebuild announcements of a symbol in any run of the connector without a reconnect |
| Attach.BooklessAsks | crates/marketdata/src/books.rs:222-237 | exactly when an update for a symbol without a book asks for a snapshot; it always does after the longer of cooldown and deadline, so nothing is wedged |
| Attach.FailureFreesRequest | crates/marketdata/src/books.rs:195-203 | after a failed fetch only the cooldown holds the next request back |
| Attach.ReplayBreaks | crates/marketdata/src/books.rs:147-170 | on any buffer, holes, repeats and disorder included: replay stops if and only if an update breaks the chain, and otherwise ends at the newest id, synced exactly if something was applied |
| Attach.RisingBreaks | crates/marketdata/src/books.rs:147-162 | on rising ids, that is a first update past the snapshot that does not reach back to it, or a later one that does not start where its predecessor ended |
| Attach.RejectedExactlyWhen | crates/marketdata/src/books.rs:142-177 | exactly when a snapshot is rejected, and when it joins at once; the buffer is emptied either way |
| Attach.AfterRejection | crates/marketdata/src/books.rs:147-162 | after a rejection the next snapshot is judged only by the updates received since |
| Attach.LostBufferCosts | crates/marketdata/src/books.rs:152-162 | on a gapless stream: which snapshots would be taken had the updates been kept as documented, and which are taken as it is |
| Attach.RefusedTwice | crates/marketdata/src/books.rs:147-162 | a run in which a snapshot is refused although all updates received would join it |
| Replica.Connector.OnDelta | crates/binance/src/lib.rs:349-374 | publishes the whole book on attachment, else the update if it chained, and announces a rebuild when one is asked for |
| Replica.Connector.OnFetched | crates/binance/src/lib.rs:302-311 | publishes a book that joined during replay, and nothing otherwise |
| Replica.Connector.OnFetchFailed | crates/binance/src/lib.rs:312 | a failed fetch publishes nothing and frees the request |
| Replica.Connector.OnReconnect | crates/binance/src/lib.rs:199-200 | a reconnect forgets every book and publishes nothing |
| Replica.ReconnectStartsOver | crates/binance/src/lib.rs:199-200 | after a reconnect no book is live, and over any further run the entries and what is published are those of a new connector |
| Replica.ReplicaAgreement | crates/binance/src/lib.rs:301-374 | over every run, late snapshots, failures and reconnects included, a consumer folding all events never meets a gap and holds an identical copy of every live book |
| Replica.FoldIdempotent | crates/core/src/state.rs:8-10 | replaying any events over the state they led to changes nothing |
| Replica.LateJoin | crates/core/src/server.rs:124-143 | state served after event j survives the replay of events i..j, for any log |
| Session.SessionConverges | crates/core/src/server.rs:92-159 | in every interleaving of folding, broadcasting, client messages, deliveries and queue overflows, a session that has taken everything folded so far holds the core's copy of every book that is in step |
| Session.LosslessTracksAll | crates/core/src/server.rs:113-141 | without overflow and unsubscribing, every subscribed book is in step |
| Session.MessageHeals | crates/core/src/server.rs:113-128 | whatever was lost, right after a client message every subscribed book is in step again |
| Session.RelayedExactly | crates/wire/src/session.rs:88-97 | an event about an instrument is relayed exactly if some subscription names it, and a notice always |
| Session.SubscribedExactly | crates/wire/src/session.rs:120-132 | what is subscribed after a message: what was, without what it drops, and what it adds |
| Session.ServedExactly | crates/core/src/state.rs:118-129 | a session is handed exactly the synced books of the symbols it subscribes to, as the core has them |
| Session.LagResumes | crates/core/src/server.rs:144-156 | after an overflow the session resumes at the oldest event its queue still holds, and can take it |
| Session.TerminalMatchesConnector | crates/core/src/main.rs:40-73 | with a core's log that holds what one connector published about a symbol among anything else, bars and other connectors' events included, a caught-up terminal shows that connector's live book, as far as the copy is in step |
| Lagging.LagExactly | crates/core/src/server.rs:144-156 | when a copy is still in step after its queue overflowed: if and only if no lost event was newer than it, or a snapshot of the book is still to come |
| Lagging.InStepExactly | crates/core/src/server.rs:92-159 | at every moment of every session, overflows included, a subscribed copy is in step if and only if it is in the set of exact copies or a snapshot of the book is still to come |
| Lagging.CaughtUpExactly | crates/core/src/server.rs:92-159 | a session that has taken everything left shows the core's book of a subscribed symbol if and only if its copy is in that set |
| Lagging.OneConnectionIsOrderly | crates/binance/src/lib.rs:301-374 | between two reconnects, on rising updates and late snapshots alike, what the connector publishes about a symbol chains and never goes back |
| Lagging.TerminalShowsExactly | crates/core/src/server.rs:92-159 | end to end: a caught-up terminal shows the connector's live book if and only if its copy is in the set of exact copies |
| Lagging.FallsBehind | crates/core/src/server.rs:144-156 | a whole session that loses one update to an overflow and ends with the book from before |
| Session.BroadcastFirstWouldLag | crates/core/src/main.rs:68-72 | why folding comes before broadcasting: the other order can leave a session with an older book and nothing left to deliver |
| Truth.SnapshotIsTrue | crates/binance/src/wire.rs:118-131 | a depth answer of the venue, translated, is a faithful snapshot, and exact on the prices down to its last level |
| Truth.UpdateIsFaithful | crates/binance/src/wire.rs:88-106 | an event of either scheme, translated, is a faithful update over the states it spans |
| Truth.ApplyKeepsTruth | crates/domain/src/market.rs:107-146 | under the join rule and the chain rule, applying a faithful update keeps a copy exact on the covered prices and free of false levels |
| Truth.TruthUnderAnyDelivery | crates/terminal/src/feed.rs:223-246 | with updates and events lost, repeated and reordered anywhere, every book of connector, core and terminal grew from a snapshot the venue served, is the venue's book at its own update id on the prices that snapshot covered, and shows no false level |
| ReadModel.MarketState.Apply | crates/core/src/state.rs:38-76 | the core folds one event into its books and its 600-bar charts |
| ReadModel.Feed.Apply | crates/terminal/src/feed.rs:223-270 | the terminal folds one event into its books and its 900-bar charts |
| ReadModel.Feed.Disconnected | crates/terminal/src/feed.rs:170-174 | a lost connection clears the books and keeps the charts |
| Candles.CandleSet.OnTrade | crates/marketdata/src/candles.rs:52-97 | one print changes its symbol's series only, by the time or the tick rule |
| Candles.CandleSet.Roll | crates/marketdata/src/candles.rs:143-184 | the newest bar is closed, a bar is started, the newest `capacity` bars are kept |
| Candles.SeriesIsTruncated | crates/marketdata/src/candles.rs:174-177 | the ring holds exactly the newest bars of the series nothing was dropped from |
| Candles.TicksAreChunks | crates/marketdata/src/candles.rs:79-97 | tick bars are the consecutive chunks of `count` prints, the last possibly partial, closed exactly if full; each bar's open, high, low, close, volume and count are those of its chunk |
| Candles.TimesAreBuckets | crates/marketdata/src/candles.rs:60-73 | time bars are the bucket groups of the accepted prints, with strictly increasing aligned open times, every bar but the newest closed; each bar is the fold of its group |
| Candles.TickOpens | crates/marketdata/src/candles.rs:79-97 | there is a tick bar for every chunk begun, and it opens at the time of the print that began it |
| Candles.ClosedBarStays | crates/marketdata/src/candles.rs:79-97 | a closed tick bar is never reopened; the next print starts one of its own |
| ReadModel.ChartFollowsExactlyWhenRising | crates/core/src/state.rs:82-96 | folding the updates published from the connector's ring shows the newest bars at every moment if and only if bars open at strictly increasing times |
| ReadModel.TickChartFollowsExactlyWhen | crates/core/src/state.rs:82-96 | for tick bars: if and only if prints 0, count, 2 count and so on come at strictly increasing times |
| ReadModel.SameMillisecondLosesABar | crates/core/src/state.rs:82-96 | count + 1 prints in one millisecond make two bars, and the chart shows one |
| ReadModel.TimeChartFollows | crates/core/src/state.rs:82-96 | for time bars it always does |
| ReadModel.ChartShowsSeries | crates/binance/src/lib.rs:331-337 | one symbol's chart is the newest 600 bars of the connector's own bounded series |
| ReadModel.Printer.OnPrint | crates/binance/src/lib.rs:331-337 | a print is folded into its symbol's ring, and what must be redrawn is published, the closed bar first |
| ReadModel.CoreShowsConnector | crates/core/src/state.rs:38-96 | with all symbols folded through the shared map, each symbol's chart is the newest 600 bars of the connector's ring |
| ReadModel.ChartReplayIsIdempotent | crates/core/src/state.rs:82-96 | replaying any stretch of candle events over the series they led to changes nothing |
| ReadModel.LateChart | crates/core/src/server.rs:113-128 | a terminal with an empty chart, or one kept from an earlier connection, served the history after event j and sent everything from an earlier event on, ends with the core's history |
| ReadModel.LaterHistoryWins | crates/terminal/src/feed.rs:256-270 | folding a later history over an earlier one gives the later one |
| Store.Connection.CommitJobs | crates/storage/src/store.rs:311-333 | all of a batch's writes become visible or none does, whatever fails |
| Store.Writer.Drain | crates/storage/src/store.rs:252-307 | with no sender left the writer takes everything accepted in order, 512 jobs at a time, commits each batch as far as the weather allows, answers each job with its batch's outcome, and counts the committed rows and batches |
| Store.RoundsTakeAll | crates/storage/src/store.rs:252-264 | those rounds hold the queue's jobs in order, every batch but the last full |
| Store.FairRounds | crates/storage/src/store.rs:252-293 | in fair weather all of them commit if and only if the environment can perform all writes in order, and the database is then what that gives |
| Store.SerialEquivalence | crates/storage/src/store.rs:218-307 | in every interleaving the database is the serial execution of exactly the committed batches in queue order; nothing is lost, repeated or reordered; answers follow; the queue stays within its bound; after the writer exits all accepted jobs are answered |
| Store.DueAnswers | crates/storage/src/store.rs:284-293 | the answer at each position is the outcome of the batch that holds that position |
| Store.InOneBatch | crates/storage/src/store.rs:252-293 | no position is in two batches |
| Store.CommitsExactlyWhen | crates/storage/src/store.rs:311-333 | exactly when a batch commits, and exactly when it leaves a transaction open; uncommitted, the data is as before |
| Store.RunAllPerforms | crates/storage/src/store.rs:313-331 | a serial run leads through one state for each statement: a text without parameters by its script, one with parameters by the single statement, each on the state before |
| Store.PerformedIsRun | crates/storage/src/store.rs:313-331 | and any such sequence of states is the serial run |
| Store.CommitPerforms | crates/storage/src/store.rs:311-333 | in fair weather a batch commits with a result if and only if its writes, in job order, perform from the old state to it |
| Store.OneWriteReaches | crates/storage/src/store.rs:319-333 | one write alone reaches the database, or is refused and leaves it, exactly as the environment answers it |
| Store.TwoWritesReach | crates/storage/src/store.rs:313-333 | two writes, in one job or two, reach it in order, a statement and then a script |
| Store.SentWriteReaches | crates/storage/src/store.rs:218-293 | through a whole run of producer and writer a single write is in the database when its job is answered Ok, and is not when it is refused |
| Store.WriterCanMove | crates/storage/src/store.rs:252-307 | in every reachable state the writer has a step to take, unless it has exited or waits for producers on an empty queue |
| Store.SendsExactly | crates/storage/src/store.rs:218-231 | a job is taken exactly while the store is open and fewer than 16384 are queued |
| Store.LeftOpenStaysStuck | crates/storage/src/store.rs:311-333 | a transaction left open stops every later batch, every later job is refused and the data stands still |
| Store.GetsStuck | crates/storage/src/store.rs:252-333 | from any start, two jobs: the first leaves its transaction open, the second is accepted and refused in calm weather |
| Limits.Window.Roll | crates/exchange/src/limits.rs:47-56 | whole spans are jumped, with the 32-bit truncation of their number |
| Limits.RolledLands | crates/exchange/src/limits.rs:47-56 | a roll lands in the aligned window that holds the present |
| Limits.RateLimiter.Check | crates/exchange/src/limits.rs:178-207 | refuses with the longest wait and its budget, or charges every budget |
| Limits.RateLimiter.ObserveUsed | crates/exchange/src/limits.rs:213-218 | rolls, then adopts the venue's count if it is higher |
| Limits.RateLimiter.ObserveRejection | crates/exchange/src/limits.rs:226-233 | gives up the weight window and moves its end to the venue's hint, or to a whole window from now where the clock cannot express the start |
| Limits.CheckedWaits | crates/exchange/src/limits.rs:178-199 | a check waits exactly if some budget it draws on is short, for the longest of their waits, and names the last budget that has it |
| Limits.ExactWait | crates/exchange/src/limits.rs:178-207 | an identical check is refused at any earlier time and goes out when the wait is over, if and only if it fits empty budgets |
| Limits.ObservedIsHonoured | crates/exchange/src/limits.rs:209-218 | the venue's count only raises ours, and within its window nothing goes out that it leaves no room for |
| Limits.RejectionHolds | crates/exchange/src/limits.rs:220-233 | after a rejection a request or an order goes out exactly if the given-up window has ended, it fits an empty one and the order budgets have room; never before the hint |
| Limits.RejectionForgotten | crates/exchange/src/limits.rs:226-233 | a run in which a rejection without a hint stops nothing |
| Limits.BudgetsKept | crates/exchange/src/limits.rs:47-218 | on every run without a rejection the weight and the orders let through in each aligned window stay within the limits, the weight less the headroom |
| Limits.AdmitsExactly | crates/exchange/src/limits.rs:178-207 | on every run of checks, one goes out if and only if what was sent in its aligned minute, with its weight and the headroom, is within the weight limit, and for an order the orders sent in each of the three windows leave room for one more |
| Limits.TwoThatFitGoOut | crates/exchange/src/limits.rs:66-68 | two requests that fit together into a fresh window both go out |
| Limits.EveryCheckCounted | crates/exchange/src/limits.rs:178-207 | every check is either sent or counted as deferred |
| Idempotency.ReqRing.Admit | crates/wire/src/idempotency.rs:90-110 | claims a new id, replays or reports a known one, refuses one below the floor |
| Idempotency.ReqRing.Complete | crates/wire/src/idempotency.rs:116-127 | records a final answer for a tracked id and ignores everything else |
| Idempotency.PlayIsSound | crates/wire/src/idempotency.rs:60-70 | on every run order and records hold the same ids, each once: the last 4096 executed; the floor is just above the id forgotten last |
| Idempotency.HighWaterIsLargest | crates/wire/src/idempotency.rs:107-132 | the high-water mark is the largest id ever let through |
| Idempotency.AtMostOnce | crates/wire/src/idempotency.rs:84-110 | if first-time ids arrive in increasing order no id is let through twice, and memory stays within capacity |
| Idempotency.ForgottenAreRefused | crates/wire/src/idempotency.rs:134-143 | on any run every forgotten id is refused if and only if none is above the one forgotten last and that is not the largest id of all |
| Idempotency.ExecutedTwice | crates/wire/src/idempotency.rs:134-143 | a concrete run in which an id executes twice |
| Idempotency.ReplaysTheAnswer | crates/wire/src/idempotency.rs:90-127 | once answered, and until forgotten, a retry gets exactly that answer and changes nothing |
| Idempotency.RetryIsInFlight | crates/wire/src/idempotency.rs:84-94 | until a final answer comes, and as long as it is remembered, every retry of an id that was let through is reported in flight and changes nothing |
| Idempotency.RetryAtOnce | crates/wire/src/idempotency.rs:84-94 | and in any case the retry that follows at once |
| Idempotency.TooOldExactly | crates/wire/src/idempotency.rs:97-102 | exactly when an id is refused as too old, and the refusal carries the floor: one above the id forgotten last, with the wrap-around |
| Idempotency.AnsweredExactly | crates/wire/src/idempotency.rs:116-127 | an answer changes the record of its id only, and only if it is final; an acceptance is not |
| Catalogue.Catalogue.Replace | crates/wire/src/catalogue.rs:93-126 | stores the normalised list, reports the difference to the old one, and raises the revision exactly if there is one |
| Catalogue.NormalIsFaithful | crates/wire/src/catalogue.rs:99-100 | the stored list is strictly ordered by name and holds for each name the item the venue listed first |
| Catalogue.BeforeIsLexicographic | crates/wire/src/catalogue.rs:99-100 | the order of the names is the lexicographic one |
| Catalogue.UnlistedExactly | crates/wire/src/catalogue.rs:106-121 | added and removed name exactly the items the other list lacks |
| Catalogue.AlteredExactly | crates/wire/src/catalogue.rs:107-113 | altered names exactly the items listed before on other terms |
| Catalogue.ReportIsExact | crates/wire/src/catalogue.rs:105-121 | the report of a replacement: added are the names new to the list, removed the ones gone from it, altered those still listed on other terms, and nothing else is named |
| Catalogue.TermsAreEverything | crates/wire/src/catalogue.rs:168-177 | items are on the same terms exactly if they differ in nothing but the symbol |
| Catalogue.EmptyDiffMeansSame | crates/wire/src/catalogue.rs:105-177 | nothing is reported if and only if names and terms are the same |
| Catalogue.LookupFinds | crates/wire/src/catalogue.rs:148-151 | the binary search in a stored list finds what a scan finds |
| Catalogue.WalkIncreases | crates/wire/src/catalogue.rs:132-146 | whatever happens to the list between pages, delivered names strictly increase |
| Catalogue.NothingSkipped | crates/wire/src/catalogue.rs:132-146 | a name listed at every page of a finished walk is delivered |
| Catalogue.WholeList | crates/wire/src/catalogue.rs:132-146 | a finished walk over an unchanged list delivers all of it from the cursor on |
| Catalogue.WalkEnds | crates/wire/src/catalogue.rs:132-146 | a walk over a finite universe of names ends within that many full pages and one |
| Catalogue.AnswersFromList | crates/wire/src/catalogue.rs:132-151 | a page holds the first 2000 names of the market's stored list behind its cursor, says where to go on exactly if there are more, and carries the revision of the moment; a lookup finds what a scan of that list finds |
| Catalogue.SameRevisionSamePage | crates/wire/src/catalogue.rs:56-58 | pages for one cursor that carry the same revision agree in names, terms and next cursor |
| Catalogue.SameRevisionSameList | crates/wire/src/catalogue.rs:56-58 | two pages of one revision were cut from the same listing, and the revision never goes back |
| Catalogue.RevisionSteps | crates/wire/src/catalogue.rs:93-126 | a refresh leaves the revision alone if it brings the same names and terms, and raises it by one otherwise |
| Batching.MsgpackArray | crates/wire/src/batch.rs:169-189 | the loop builds the array header for the count followed by the parts |
| Batching.ArrayRoundTrip | crates/wire/src/batch.rs:164-189 | the body reads back as its parts if and only if their number fits 32 bits |
| Batching.HeaderIsShortest | crates/wire/src/batch.rs:169-184 | no shorter MessagePack array header announces that count |
| Batching.Batcher.Push | crates/wire/src/batch.rs:108-134 | urgent messages go out alone, others when they complete a bound; an encoding error changes nothing |
| Batching.Batcher.FlushDue | crates/wire/src/batch.rs:137-140 | sends what is pending once its deadline has passed |
| Batching.Batcher.Flush | crates/wire/src/batch.rs:143-145 | sends whatever is pending |
| Batching.PushConserves | crates/wire/src/batch.rs:108-134 | an ordinary message joins what is pending, or completes a bound and is read back behind it; the reason given is a bound that was reached |
| Batching.NothingLostOrReordered | crates/wire/src/batch.rs:108-162 | over any run the frames read back, in order, as the ordinary messages up to those pending, and as the urgent ones, each alone in its frame and sent by the operation that brought it; the pending size is exact and below both bounds |
| Batching.SendsFor | crates/wire/src/batch.rs:120-134 | exactly when an ordinary message completes a frame, and for which bound: items before bytes before the oldest message's deadline |
| Batching.OldestSetsTheClock | crates/wire/src/batch.rs:115-117 | on every run the deadline counts from the push of the oldest pending message |
| Batching.FlushesExactly | crates/wire/src/batch.rs:137-145 | exactly when a flush sends, and that it leaves nothing pending |
| Batching.FrameShape | crates/wire/src/batch.rs:147-162 | a lone message is sent bare, several as an array, with their number and the reason |
| Retention.Database.Sweep | crates/storage/src/retention.rs:78-119 | a sweep succeeds if and only if every statement it tries does; success means exactly the rows past their own horizon are gone, with the exact counts and number of transactions; failure means nothing else is gone |
| Retention.ExpiredByAge | crates/storage/src/retention.rs:52-60 | which bars are expired, by their age and the length of their timeframe |
| Retention.OldByAge | crates/storage/src/retention.rs:62-64 | which audit records are, by their age |
| Retention.Database.SweepTimeframe | crates/storage/src/retention.rs:84-101 | one timeframe's expired bars, in full batches and a short last one, whatever rows each LIMIT picks, if and only if every statement succeeds |
| Retention.Database.DeleteCandles | crates/storage/src/retention.rs:125-130 | at most one batch of matching rows goes, and as many are reported |
| Retention.Database.WouldSweep | crates/storage/src/retention.rs:149-168 | the dry run gives the row counts of the sweep and removes nothing, and succeeds if and only if its queries do |

## Left out

- Limits.ExactWait: assumes, like the other limiter results, that no 32-bit sum wraps and no window was idle for 2^32 spans.
- Truth.TruthUnderAnyDelivery: keeps to one venue numbering; renumbering after a reconnect is covered by the lossless replica results only.
- Session.SessionConverges: does not model the handshake, and messages that end the session.
- Store.SerialEquivalence: takes a refused COMMIT to leave nothing visible, and a script with no parameters to be one step.
- Lagging.TerminalShowsExactly: covers a connector between two reconnects; after one the venue may number afresh, and what an overflow costs then is not said.
- The trade tape, the log and the connection notes of the terminal: no catch-up is promised for them.
- Order of the served lists (`snapshots_for`, `candles_for`), checkpoints and statistics other than committed rows and batches: reads and counters.
- Sockets, HTTP, TLS, keys, signatures, token checks, scheduling: I/O and foreign cryptography.
- Drawing, panels and the chart's layout: floats and pixels.
- Instrument parsing, rounding to the tick grid, order status ranks, scaled integers, heartbeat, symbol registry, command and event tables: small self-contained members.
