# Verified model of the live stock-trade pipeline

The pipeline takes trades off a WebSocket, stores them in Postgres (`raw_trades`),
keeps one Redis hash per symbol with the day's figures, stamps price alerts,
rolls trades up into one-minute candles and shows a live board. This project
models that data path and proves what it keeps over whole runs.

| file | what it holds |
|---|---|
| `Trades.dfy`, `Sorting.dfy` | trades, WHERE clauses, aggregates; the stable sort and the order of symbols |
| `LivePrices.dfy` | the hash of a symbol, `merge`, and the SQL day aggregate it is a running form of |
| `Alerts.dfy`, `AlertRuns.dfy` | which alerts a batch sets off; what is stamped over a whole run |
| `StreamMachine.dfy` | the stream as a state machine: two threads, Postgres, Redis, failures, restarts |
| `SocketThread.dfy` | what the socket thread leaves over a session: the trades it received, what its events add up to, what the session row shows |
| `CacheSafety.dfy`, `CacheTheorems.dfy`, `Reseed.dfy` | the invariant of the Redis cache, the results about it, and what one pass of the loop repairs |
| `Accounting.dfy` | where every trade goes and what the session counters say |
| `Board.dfy` | the dashboard's board from Redis, and the SQL query it stands in for |
| `Stream.dfy`, `FlushLoop.dfy` | the objects and methods of the stream; the flush loop as a run of the machine |
| `Reconnect.dfy` | backoff and the reconnect loop |
| `StreamConfig.dfy` | `parse_symbols` |
| `Candles.dfy`, `Rollup.dfy`, `RollupLoop.dfy` | `build_candles`; the trailing-window runs; the tables and loop that run them |

`dafny verify dfyconfig.toml` checks everything.

## How the stream is modelled

`StreamMachine.Next` takes one step at a time: the socket thread receives a
message, puts its trades one by one and then counts them; the flush thread
drains, loads, reads the counter, commits, writes Redis, checks alerts and tests
the closed flag. The load, the transaction and the alert check may each fail; a
Redis write may fail with or without having been applied; a new session may start
at any point (after the loop ended, or after a crash); keys may vanish from Redis
and alerts may be created or deleted between any two steps. A theorem about `Run`
is about every interleaving of these. `FlushLoop.Process.FlushLoop` and
`FlushLoop.RunOnce` are the loops themselves, over mutable objects, with the other
steps happening between their own; what they leave behind is proved to be such a run.

The state carries a log no step reads. Its `trust` says, per hash, whether it
equals the day's aggregate (`Exact`), misses committed trades (`Short`) or was
merged with trades of another day (`Mixed`); `CacheIsSafe` proves the log right.
`lagging` lists the hashes not rewritten since a batch with their symbol was
committed, and `ordered` says that no committed trade was older than a stored one
of its symbol; both are conditions of `BoardRefinesSql`. `BoardAfterRun` says the same
of a run without them.

Prices and volumes are `real`, times whole microseconds, `//` and `.date()` are
floor divisions. Postgres leaves open which of several rows with one time comes
first, so the SQL side is stated as relations (`IsOpen`, `IsLatest`, `IsSqlBoard`)
that any such choice satisfies; Python and pandas take input order.

## Where the code and its documentation disagree

The model follows the code. Line numbers without a directory are those of the
repository's own README.md.

- Line 267 says a failed Redis write makes the next flush rebuild. The flag is one
  for all symbols and a rebuild covers only the symbols of its batch, so another
  symbol's hash can stay short (`FlagDownDoesNotMeanExact`). `ReseedRepairsItsBatch`
  says which hashes a rebuild leaves exact, and `FlagMeansExactIff` in which runs a
  lowered flag can be relied on; both are equivalences.
- Line 208 says a batch whose insert failed is tried again. It was already taken off
  the queue, and it is not (`FailedInsertIsNotRetried`).
- Lines 273 and 290 say later runs pick up what was missed and a re-run of a minute
  gives the same row. The window's start is not floored to the minute, so a complete
  candle is later rebuilt from part of its trades (`WholeCandleIsOverwritten`);
  `LeftWholeIff` says exactly which rows are whole, as of any later table.
- Line 214 says the reconnect wait doubles. A session only ends on a closed event,
  which also counts as a message and resets the backoff, so it never does
  (`WaitNeverGrows`).
- stream/main.py:79-90 uses one day for a whole batch. `FlushExactIffOneDay` shows
  this is right for every table exactly when the batch lies within one UTC day.

Two promises the code keeps need a closer reading. Line 416 calls the merge rules for
high, low and open idempotent, and they are; the count is not (`MergedTwiceCountsTwice`),
so that a crash never counts twice rests on the loop never merging a batch twice
(`CacheIsSafe`). And rollup/config.py:41-48 makes the window reach back over the
interval so that every minute is rolled up at all, which it gives
(`ConfigCheckReadsAll`); that some run has the whole minute in its window takes more
(`LateTradeBound`, `ConfigCheckIsNotEnough`).

## Model

| member | source | states |
|---|---|---|
| Trades.CalendarFloors | rollup/candles.py:27 | A minute starts on a whole minute and a day on a whole day, each holds exactly the times up to the next, and a minute lies within one day |
| Sorting.BelowIsDictionary | dashboard/live_prices.py:71-75 | Symbols are ordered as in a dictionary: the lesser ends first or has the smaller character where they part |
| LivePrices.ReadDayStats | stream/db.py:65-87 | One symbol's day statistics: none exactly when the table has no row of that symbol and day, otherwise their count, highest, lowest and a first price by time |
| LivePrices.Merge | stream/live_prices.py:24-65 | The merged hash shows a newest trade of the batch, whatever order the batch is in |
| LivePrices.MergeExtends | stream/live_prices.py:46-63 | Merging a batch onto the statistics of any rows (or onto nothing, for no rows) gives the count, high and low of rows and batch together |
| LivePrices.MergeRunSummarises | stream/live_prices.py:24-65 | The same for any number of batches merged one after the other |
| LivePrices.MergeOpen | stream/live_prices.py:46-47 | The kept open is right when the batch starts no earlier than the rows; when it starts earlier, exactly if the batch's own first price is the same |
| LivePrices.MergeLatest | stream/live_prices.py:39-44 | The price, volume and time shown are the newest of rows and batch exactly when no earlier row is newer than the batch |
| LivePrices.MergedTwiceCountsTwice | stream/live_prices.py:46-63 | Merging a batch a second time changes the count, by the size of the batch, and nothing else |
| LivePrices.FlushExactIffOneDay | stream/main.py:79-90 | A flush seeded from Postgres is exact for every possible table if and only if its batch lies within one UTC day |
| CacheSafety.RunKeepsCache | stream/main.py:118-176 | Every step of either thread, failed or not, keeps the invariant tying each hash, and what a load returned, to the rows of `raw_trades` |
| CacheTheorems.TrustIsTruth | stream/main.py:99-115 | In every state with the invariant a hash of trust Exact equals the day aggregate and one of trust Short is the aggregate of strictly fewer committed rows |
| CacheTheorems.CacheIsSafe | stream/main.py:118-176 | In every reachable state each hash is the aggregate of committed trades of its symbol and day, count and high never above and low never below the table's; the exception is a hash merged off its day, and single-day batches make none |
| CacheTheorems.ExactUntilLost | stream/main.py:72-115 | From an exact hash, or from the commit of a batch that was seeded from Postgres, until a committed batch with the symbol fails to reach Redis, the hash is absent, or equals DAY_STATS_SQL and was rewritten since the last commit of the symbol, at every step but those between a commit of the symbol and its write |
| CacheTheorems.FlagMeansExactIff | stream/main.py:155-161 | In any run of single-day batches a lowered flag means at every point that all hashes are exact, a batch on its way apart, if and only if every write that lowers the flag after a reseed holds a trade of each symbol whose hash is not exact |
| Reseed.ReseedRepairsItsBatch | stream/main.py:82-161 | After a reseeding pass, with any steps of the socket, the api and Redis between its own, the flag is down and a hash is exact if and only if its symbol was in the batch or it was exact before; so all are exact if and only if the batch covered every hash left that was behind |
| Reseed.PassExtendsHash | stream/main.py:82-90 | With the flag down, a pass whose batch holds the symbol merges its trades onto what Redis holds for the day, without the table: the count grows by their number, and the hash is exact afterwards if and only if it was before |
| Reseed.PassRebuildsHash | stream/main.py:82-90 | With the flag up, or nothing in Redis for the day, the pass leaves the symbol's hash equal to DAY_STATS_SQL, whatever was there |
| Reseed.EvictedHashHeals | stream/main.py:82-90 | A hash Redis evicted is exact again after the next pass with a trade of its symbol, whatever it was before |
| Reseed.SeedingLoadTrusts | stream/main.py:82-90 | A load that takes a symbol from Postgres, once its batch commits and whatever happens in between, leaves the symbol where its exactness can start, whatever Redis held |
| Reseed.FlagDownDoesNotMeanExact | stream/main.py:124-161 | A run that ends at rest with the flag down and a hash one trade short |
| SocketThread.RunReceives | stream/socket_client.py:66-72 | Over any steps of a session, what is put on the queue and what is left of the message in progress are together exactly the trades of the messages taken up, in order |
| SocketThread.MessageIsSteps | stream/socket_client.py:66-72 | A message handled undisturbed, as FinnhubSocket.OnMessage does it, is the matching run of the machine |
| SocketThread.EventsTell | stream/main.py:35-45 | At any time of a session: closed if and only if a "closed" event was reported, the error that of the last "failed" one, the message time of the last event, the trade time of the last with trades, and the count of all trades reported |
| SocketThread.SessionEndsOnClosed | stream/main.py:175-176 | A session has ended only if a "closed" event was reported, and ends at the first test of the flag after one |
| SocketThread.RowShowsGreatest | stream/writer.py:36-51 | The session row shows the greatest message time and the greatest trade time its heartbeats found, and the rows of earlier sessions stay as they were |
| Accounting.TradesConserved | stream/main.py:128-153 | Over any session the trades received are the drained batches in order, the queue, and the rest of the message in progress; no batch is over the limit; the session's rows are the committed batches in order; nothing is stored more often than received |
| Accounting.CountersAgree | stream/socket_client.py:66-72 | For every interleaving the counter is the trades enqueued less those of the message in flight, and rows written never exceed trades received plus those in flight at the reported read |
| Accounting.HeartbeatsTelescope | stream/writer.py:36-51 | Whatever flushes fail, trades_received is the count last reported and rows_written the rows of the session; over all sessions the rows written are the rows of the table |
| Accounting.SessionNeverGoesBack | stream/writer.py:36-51 | last_message_at, last_trade_at and rows_written of any session row never decrease, even if the clock does |
| Accounting.FailedInsertIsNotRetried | stream/main.py:131-155 | Once a flush is over, the session's rows are for the rest of the session those of the batches committed by then followed by rows of later batches only, and those hold nothing but what was still queued then or put on later: a lost batch stays lost |
| Alerts.TriggerIsEarliest | stream/alerts.py:14-22 | The trade chosen for an alert crosses it and no other crossing is earlier by time (or by place, at equal times); none is chosen only if none crosses |
| Alerts.TriggerByExtreme | stream/alerts.py:4-22 | A rising alert is set off exactly when the highest price of its symbol in the batch is at its threshold or above, a falling one when the lowest is at it or below; the stamp is of a trade there, and every earlier trade of the symbol was short of it |
| Alerts.TriggeredPermuted | stream/alerts.py:14-30 | With distinct times what fires does not depend on the order of the batch |
| Alerts.TriggeredSelects | stream/alerts.py:14-30 | Exactly the crossed alerts come back, once each, in alert order, each with the price and time of its earliest crossing, in terms of prices and thresholds |
| Alerts.FindTriggered | stream/alerts.py:14-30 | The loop returns that list |
| AlertRuns.StampIsFirstCrossing | stream/main.py:59-69 | Over any run a pending alert is stamped with the earliest crossing of the first drained batch that crosses it and whose check commits, whether or not that batch was stored, and stays pending while there is none |
| AlertRuns.PassChecksItsBatch | stream/main.py:131-163 | Every pass checks the batch it drained, stored or not, written or not: an alert pending before it takes the stamp the batch gives it, or none if the check fails |
| AlertRuns.DeletedStaysGone | stream/main.py:59-69 | A deleted alert is not brought back by any step of the stream, and a created one is pending as given |
| AlertRuns.FiredForGood | stream/writer.py:77-85 | A fired alert keeps its time and price for the rest of any run |
| Board.ReadLiveBoard | dashboard/live_prices.py:50-69 | There is a board exactly when Redis answers and holds every listed symbol |
| Board.BoardRefinesSql | dashboard/queries.py:15-45 | After any run with exact, up-to-date hashes, batches in time order and nothing dated after today, the board is a result of LATEST_SQL, blank day figures included, and the only one when trade times differ |
| Board.BoardAfterRun | dashboard/live_prices.py:50-75 | The same of any run from the start in which batches lie within a day and come in time order and none with a listed symbol fails to reach Redis, whatever else fails, restarts or is evicted, as long as the listed hashes are there |
| Board.SqlBoardIsUnique | dashboard/queries.py:22-43 | With distinct times the query has one answer |
| Stream.DrainInto | stream/buffer.py:4-15 | The loop takes the oldest trades, at most the limit and fewer only when the queue runs empty, and leaves the rest in order |
| Stream.SocketEvents.Record | stream/main.py:35-45 | The callback updates the counters as the state machine says |
| Stream.FinnhubSocket.OnMessage | stream/socket_client.py:66-72 | Undisturbed, all trades of a message are on the queue in order and counted once |
| Stream.Postgres.InsertTrades | stream/writer.py:13-19 | The batch is appended and its size returned |
| Stream.Postgres.Heartbeat | stream/writer.py:36-51 | The last session row takes the sums and greatest times |
| Stream.Postgres.ReadPendingAlerts | stream/db.py:11-17 | A listing, in some order, of exactly the alerts not fired |
| Stream.MarkedIsCheck | stream/writer.py:77-93 | Stamping the triggered alerts one guarded update at a time, in whatever order they were read, settles every alert of the table |
| Stream.CheckAlerts | stream/main.py:59-69 | A check stamps as the alert table's step says, or nothing when its transaction fails |
| Stream.Redis.ReadLivePrices | stream/live_prices.py:93-102 | Each symbol's stored figures, nothing where nothing is stored |
| Stream.Redis.WriteLivePrices | stream/live_prices.py:105-110 | The given hashes replace those of their symbols and touch no other |
| Stream.LoadLivePrices | stream/main.py:72-96 | The branches over empty batch, reseed, stale symbols and failure give what the state machine's load gives |
| Stream.SaveLivePrices | stream/main.py:99-115 | True only when Redis holds the merged batch; a failed write left it all or nothing |
| FlushLoop.Process.Pass | stream/main.py:128-176 | One pass of the loop, with other threads between its steps, is the corresponding run of the machine |
| FlushLoop.Process.FlushLoop | stream/main.py:118-176 | The loop is a run of the machine and stops early only on the closed event |
| FlushLoop.RunOnce | stream/main.py:178-205 | A session starts with a fresh queue, fresh counters and the flag up, and runs the loop |
| Reconnect.DelayWithinBounds | stream/backoff.py:14-19 | Every wait lies in the upper half of the cap and the cap within the configured bounds |
| Reconnect.CapGrows | stream/backoff.py:14-19 | The cap never shrinks, and is the maximum from attempt k on exactly when k doublings, 32 at most, reach it |
| Reconnect.CapDoubles | stream/backoff.py:14-23 | The cap starts at the minimum and doubles with each attempt, up to the maximum, through the 32nd, and then stays |
| Reconnect.DrawsAreEven | stream/backoff.py:18 | The jitter runs evenly from half the cap to the cap |
| Reconnect.AttemptsCounted | stream/main.py:226-229 | The attempts counted are the sessions since the last that had a message, or since the first |
| Reconnect.ReconnectLoop | stream/main.py:223-232 | Each wait is drawn from the cap of the attempts since the last session that had a message |
| Reconnect.EndsWithMessage | stream/main.py:175-176 | However a session ends, a "closed" event was reported in it, so it ends with the flag set and a last message time |
| Reconnect.WaitNeverGrows | stream/main.py:226-229 | A session can only end having had a message, so every wait lies between half the minimum and the minimum |
| StreamConfig.ParsedIsNormal | stream/config.py:22-30 | For any trimming and upper-casing with the four laws of Python's: on success the symbols are non-empty, trimmed, upper-case, free of repeats, and exactly the usable pieces in the order first seen |
| StreamConfig.JoinOfSplit | stream/config.py:24 | The pieces hold no comma and join back to the setting |
| StreamConfig.CleanTrims | stream/config.py:24 | A piece is cleaned to its text without the whitespace around it, in upper case |
| StreamConfig.UpperAllAppend | stream/config.py:24 | Upper-casing works on each character where it stands |
| StreamConfig.RefusedIffBlank | stream/config.py:27-28 | The setting is refused if and only if every piece is empty or all whitespace |
| StreamConfig.ParseOfJoin | stream/writer.py:29-34 | Any list in that form comes back from parsing its comma-join |
| StreamConfig.ParseIsStable | stream/config.py:22-30 | Parsing what a session row stores gives the session's symbols |
| StreamConfig.LatinIsLawful | stream/config.py:24 | Python's trimming and upper-casing of Latin-1, where a letter may become two, has those laws |
| Candles.CandlesPartition | rollup/candles.py:8-48 | One candle for exactly each symbol and minute that occurs, strictly ordered by minute then symbol, each the OHLCV by time of all its trades; counts and volumes add up to the input's |
| Candles.OneMoreTrade | rollup/candles.py:22-42 | One more row adds one to the count and its own volume, nothing when NULL, to the candle of its symbol and minute, starting it if there was none, and changes no other count or volume |
| Candles.OneTradeCandle | rollup/candles.py:22-42 | One trade makes one candle, of its price and its volume |
| Candles.CandleIsOrdered | rollup/candles.py:35-42 | A candle's low and high enclose its open and close |
| Candles.CandlesIgnoreRowOrder | rollup/candles.py:30-48 | With distinct times any permutation of the rows gives the same candles |
| Rollup.ReadRecent | rollup/db.py:9-17 | The window's rows, all of them when the LIMIT is not hit |
| Rollup.LimitCutsTheLast | rollup/db.py:9-17 | At the LIMIT a run reads the first rows of the window by symbol and time; it leaves some only when full, and none of them is listed before one it reads |
| Rollup.LogTellsTheTruth | rollup/main.py:14-37 | A run's log row has its window and says Ok exactly when the run committed and could say so, with the rows read and the minutes they fall in; Failed, or no row, means no candle changed |
| Rollup.UpsertIgnoresOrder | rollup/writer.py:3-18 | An upsert with one candle per key does not depend on row order, and repeating it changes nothing |
| Rollup.RerunChangesNoCandle | rollup/main.py:21-24 | With distinct times, rolling up the same trades and window again changes no candle, in whatever order the table lists its rows and even when the LIMIT cuts them |
| Rollup.LastSightingWins | rollup/main.py:11-37 | After any runs, failed ones included, a key holds the candle of its trades as read by the last committed run that read any |
| Rollup.NeverSeenUnchanged | rollup/main.py:25-32 | A key no committed run read keeps what it held |
| Rollup.LeftWholeIff | rollup/main.py:14-15 | The row a minute is left with is its whole candle as of any later table if and only if the last run that read any of it found all its trades already stored and none before its window |
| Rollup.WholeCandleIsOverwritten | rollup/main.py:14-24 | With the default window a complete candle is replaced by a partial one |
| Rollup.LateTradeBound | rollup/main.py:52-65 | Trades stored at most L late, with committed runs at most G apart, are always caught in a whole minute if and only if L + G + one minute (less two microseconds) fits the window |
| Rollup.LateTradeReachesItsCandle | rollup/main.py:52-65 | Under that bound some run leaves the trade's exact whole-minute candle in the table, however many runs fail in between |
| Rollup.ReadBound | rollup/main.py:52-65 | Trades stored at most L late, with committed runs at most G apart, are always read by some run, whole minute or not, if and only if L + G (less one microsecond) fits the window |
| Rollup.ConfigCheckReadsAll | rollup/config.py:41-48 | Every accepted configuration, with runs an interval apart, leaves no trade that is stored at once unread, and none stored late exactly up to the lag the window has over the interval |
| Rollup.ConfigCheckIsNotEnough | rollup/config.py:41-48 | The check is for minutes being read at all and does not give the stronger whole-minute property: for every window the widest accepted interval breaks LateTradeBound even with no lag and instant runs |
| RollupLoop.Store.UpsertCandles | rollup/writer.py:38-44 | The row-by-row upsert is the table-level one |
| RollupLoop.Store.RunOnce | rollup/main.py:11-37 | Candles, run log and returned count for every way a run can fail or succeed |
| RollupLoop.Store.Loop | rollup/main.py:52-65 | The loop survives every failed run and leaves the table the other results speak of |

## Left out

- CacheIsSafe: says nothing of a hash merged with trades off its batch's UTC day beyond naming it; FlushExactIffOneDay shows such hashes do go wrong.
- ReseedRepairsItsBatch: for batches within one UTC day, as are ExactUntilLost and FlagMeansExactIff; FlushExactIffOneDay shows what other batches do.
- BoardRefinesSql: symbols are ordered by code point on both sides; a Postgres collation that orders them otherwise is not modelled.
- LatinIsLawful: Python's tables beyond Latin-1 are not written out; the results about parse_symbols hold for any with the four laws.
- LeftWholeIff: assumes the run did not hit ROLLUP_MAX_ROWS; LastSightingWins does not, and speaks of the rows actually read.
- Stream.SocketEvents.Record: one callback is atomic; a read between its two assignments is not modelled.
- Stream.DrainInto: in the state machine a drain is one step; puts during it have the effect of puts before its last take.
- Stream.SaveLivePrices: a Redis pipeline applies all of its writes or none, and never after a later one.
- Transactions whose outcome stays unknown to the client, and several stream processes at once.
- Floating-point rounding, NaN prices, and the text formats in `to_redis`, `from_redis` and the JSON parser.
- `candles.updated_at`, row ids, session status and error text, market status, logging and sleeping.
- The bounds in `load_config` other than those backoff and the rollup window rely on: they only restate themselves.
- The api service, the Streamlit pages and `dashboard/status.py`: alert creation and deletion appear as steps of the environment.
