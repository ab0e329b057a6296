# TickStream windowing: model and proofs

TickStream computes one definition of tumbling-window market metrics three times: a batch reference
(`processing/metrics.py`), a streaming processor (`processing/app.py`) and a SQL mart (`dbt/`). This
project models the three programs and proves that they agree on every arrival order, together with
the counters, the normalizer, the replay and the live producer around them.

| file | subject |
|---|---|
| `Basics`, `Time`, `Schema` | sequences, instants and windows, the event and its contract |
| `Metrics`, `MetricLaws` | the batch reference, its accumulating loops, its laws |
| `Stream`, `StreamKeys`, `Refinement`, `StreamSafety`, `Pipeline` | the streaming operator, its invariant, refinement of the reference, safety and lateness, the registered pipeline |
| `Ordering` | the out-of-order counter |
| `Mart`, `Silver`, `MartReference`, `WindowKeyText`, `EndToEnd` | the SQL models, deduplication, gold against the reference, the surrogate key, stream against mart |
| `Sla` | expected windows and violations |
| `Normalize`, `Messages` | normalization record by record, and what whole messages yield in raw fields |
| `Service`, `Outcomes`, `Routing`, `Replay` | reconnect loop and backoff, how a run ends, what is sent where, replay |

The statistics of a window form a commutative monoid (`Metrics.Stats`, `Plus`), and each of the three
programs is proved to accumulate exactly the sum of its events' contributions. The heart of the
streaming proof is `StreamKeys.KeyRunInv`, an invariant of one symbol's run; `RunProjects` lifts it to
any interleaving of symbols.

## Main results

- Streaming refines the reference: `Refinement.StreamRefinesReference`, `OutputIsReference`, and for the code itself `StreamSafety.StreamAgainstReference`.
- Exactly-once, immutable emission and exact lateness: `Pipeline.RunProcessor`, `OutputKeysDistinct`, `StreamSafety.OutputOnlyGrows`, `OpenAndEmittedApart`, `LateIffStraggles`, `DropsAtMostOutOfOrder`.
- The mart is the reference, for any bronze table, any bronze order and any tie-breaking: `MartReference.MartIsReference`, `GoldOrderIndependent`.
- Stream and mart agree, and disagree on keys exactly where windows are open or empty: `EndToEnd.EmittedIsInGold`, `UnemittedGold`.
- Order independence, conservation and roll-up of the metrics: `Metrics.OrderIndependent`, `MetricLaws.WindowsConserveTotals`, `WindowsRollUp`.
- What the quality counters really count: `Sla.Shortfall`, `CompleteIffMinutesSurvive`, `NoViolationsIff`, `Ordering.CountOutOfOrder`.
- Whole runs of the live producer: `Service.SleepsBounded`, `MessageLimit`, `Outcomes.RaisesIff`, `ReconnectsExactly`, `Routing.LiveRouting`, and replay against it: `Replay.ReplayAgainstLive`.
- Normalization accounts for every record of a message, field by field: `Messages.TradeMessageYields`, `TickMessageYields`, `BinanceMessageYields`.

## How the source is read

- Instants are whole microseconds at or after the epoch. `Time.BatchAgreesWithSql` is about all
  integers and says exactly when the truncating and the flooring formula part company before it.
- Prices and sizes are reals. Permutation results are results about exact arithmetic.
- Quix Streams is not part of the repository. The operator is modelled by what `app.py` and the tests
  rely on: the watermark of a key is the largest event time seen for it; a window expires when the
  watermark reaches its end plus the grace; a record for an expired window is dropped; expired windows
  of the record's key are emitted once, oldest first, and removed.
- A topic carries events of its own type with the fields the aggregation reads (`Stream.Feed`); on an
  event without them the engine's arithmetic would raise, while the reference keeps a row that counts
  nothing (`MetricLaws.EmptyRowIff`). `Normalize.TickPublishedIff` and `BinanceTickPublishedIff` say
  when such a tick is published.
- A SQL table is a sequence whose order carries no meaning; results compare as multisets. Silver rows
  keep all columns of the event; spread and mid are computed where gold reads them.
- `row_number` leaves ties on all its ordering columns to the engine. `Silver.IsDedup` admits every
  choice, and `GoldOrderIndependent` shows that gold cannot tell them apart.
- `WindowStart` is defined by alignment; the code's own formulas (`BatchStart`, `SqlStart`,
  `StreamStart`) are proved equal to it, and the batch and streaming methods and the SQL grouping call
  them.
- The random draws of the backoff, ingest times, delivery results and the messages a connection
  delivers are parameters. How a connection ends, by a transport error or a clean close, is not: both
  take the same path.
- Live quarantine records all carry sequence number zero, replayed ones that of the recorded message.

## Where the documentation promises more than the code keeps

- "0 contract violations reaching gold" fails on valid data: a window whose trades all have size zero
  has no vwap and counts as a violation (`ZeroSizeTradeViolates`; exact condition in `NoViolationsIff`).
- "At least 99 percent of expected windows produced" fails on valid data, because the baseline is not
  deduplicated (`RepeatedIdIncomplete`; exact condition in `Shortfall`).
- That a malformed record is skipped without dropping its siblings or stopping the stream fails on
  errors that are not among those caught per record: a time that is not a string, a date that leaves
  the calendar when moved to UTC, a number or a millisecond count too large to convert
  (`Normalize.NullTimeLosesSibling`, `Outcomes.MalformedMessageEndsRun`; exact conditions in
  `Normalize.SiblingsUnaffected`, `Outcomes.DeliverRaisesIff` and `Outcomes.RaisesIff`).
- The window macro is described as identical to the batch formula; before the epoch it is not
  (`BatchAndSqlCanDisagree`; exact condition in `BatchAgreesWithSql`).

## Model

| member | source | states |
|---|---|---|
| `Time.FormulasNameTheWindow` | src/tickstream/processing/metrics.py:49-56 | From the epoch on, the batch formula and the SQL macro both name the tumbling window of an instant, for every whole-second width |
| `Time.BatchAgreesWithSql` | dbt/macros/window_start.sql:1-5 | Over all instants, truncating toward zero and flooring name the same window if and only if the instant is not before the epoch, is a whole second, or does not truncate to a window boundary |
| `Time.BatchAndSqlCanDisagree` | src/tickstream/processing/metrics.py:51-52 | Half a second before the epoch the two formulas name different windows |
| `Time.StreamNamesTheWindow` | src/tickstream/processing/app.py:35-37 | The engine, windowing on milliseconds, finds the window of the microsecond instant |
| `Time.TruncationKeepsWindow` | src/tickstream/producer/normalize.py:28-39 | Cutting nanoseconds to micro-, milli- or seconds never changes the window, whatever the width |
| `Time.TruncationKeepsDeadline` | src/tickstream/processing/metrics.py:146 | A whole-second deadline is met at every resolution or at none |
| `Time.FractionIsFloor` | src/tickstream/producer/normalize.py:35 | Keeping six fractional digits rounds the exact fraction down to a microsecond, for digit strings of any length |
| `Time.DigitsOfParts` | src/tickstream/producer/normalize.py:35 | A digit string denotes its digits in decimal: a digit is itself, and appending digits shifts what precedes them |
| `Schema.BasicContract` | src/tickstream/schema.py:61-82 | The validator raises nothing exactly for events with positive price, non-negative sizes and quotes and an uncrossed book |
| `Schema.ReportedViolation` | src/tickstream/schema.py:61-82 | The violation reported is one the event has, and a crossed book only when nothing else is wrong |
| `Metrics.Acc.Add` | src/tickstream/processing/metrics.py:85-96 | One event folded into an accumulator in place adds exactly its contribution, and nothing when its fields are missing |
| `Metrics.WindowBounds` | src/tickstream/processing/metrics.py:49-56 | The bounds are the tumbling window holding the instant |
| `Metrics.ComputeWindows` | src/tickstream/processing/metrics.py:73-117 | The accumulating loops and the sort return the reference table: one row per occupied window, in order of symbol, compared as text, and start |
| `Metrics.WindowTableSorted` | src/tickstream/processing/metrics.py:116 | The result is strictly ordered by (symbol, window start), so no key repeats |
| `Metrics.WindowTableOrder` | src/tickstream/processing/metrics.py:116 | Row by row the symbols increase as texts, compared character by character, and for one symbol the starts increase |
| `Metrics.WindowTableRow` | src/tickstream/processing/metrics.py:98-115 | A row is present exactly when its window holds an event, with every field determined by that window's events |
| `Metrics.LoneEventRow` | src/tickstream/processing/metrics.py:98-115 | The row of a lone event in raw fields: its aligned window, vwap the price, volume the size, spread and mid of its quotes, all counts |
| `Metrics.OrderIndependent` | src/tickstream/processing/metrics.py:7-9 | Every permutation of the events gives the identical list |
| `Metrics.MaxEventTsBySymbol` | src/tickstream/processing/metrics.py:120-127 | The loop computes each symbol's watermark |
| `Metrics.MaxTsIsLatest` | src/tickstream/processing/metrics.py:120-127 | A symbol has a watermark when it has an event, and it is the latest of its event times |
| `Metrics.ClosedWindows` | src/tickstream/processing/metrics.py:130-148 | The loop keeps, in order, the rows whose end plus grace the symbol's watermark has reached |
| `Stream.WindowOperator.Process` | src/tickstream/processing/app.py:150-160 | One record advances the watermark, is folded or logged as late, then closes what has expired: the in-place update is the step of the state machine |
| `Stream.WindowOperator.Expire` | src/tickstream/processing/app.py:155-158 | Expired windows are emitted oldest first and forgotten |
| `Stream.Consume` | src/tickstream/processing/app.py:149-160 | An operator fed a sequence ends in the state of the run over it |
| `StreamKeys.FinalizeIsRow` | src/tickstream/processing/app.py:74-112 | Both finalizers turn a faithful aggregate into the reference row of its statistics, field by field |
| `StreamKeys.RunProjects` | src/tickstream/processing/app.py:155-157 | Non-interference: state, emissions, accepted and dropped records of a symbol are those of its own records alone |
| `StreamKeys.KeyRunInv` | src/tickstream/processing/app.py:150-158 | After every arrival sequence the watermark is the latest time, open windows are unexpired and faithful, emitted ones expired and faithful, and together they are the windows of the accepted records |
| `Refinement.StreamRefinesReference` | src/tickstream/processing/app.py:134-160 | For every arrival sequence and grace, a symbol's emissions are the reference's closed windows of that symbol, in order and equal in every field |
| `Refinement.OutputIsReference` | src/tickstream/processing/app.py:14 | The whole output of an aggregation is a permutation of the closed windows of the reference over accepted records |
| `StreamSafety.EmittedOnce` | src/tickstream/processing/app.py:155-158 | No window is emitted twice in any run |
| `StreamSafety.OutputOnlyGrows` | src/tickstream/processing/app.py:59-64 | Later records only append to the output and the late log |
| `StreamSafety.OpenAndEmittedApart` | src/tickstream/processing/app.py:155-158 | In every reachable state open windows are past the watermark less grace, emitted ones are not, and no emitted window is open |
| `StreamSafety.NothingLost` | src/tickstream/processing/app.py:59-64 | The windows open or emitted are exactly those of accepted records |
| `StreamSafety.LatestWindowStaysOpen` | src/tickstream/processing/metrics.py:139-140 | The window holding a symbol's latest event is never emitted |
| `StreamSafety.EmittedIffPassed` | src/tickstream/processing/metrics.py:130-148 | A window of accepted records is emitted exactly when some record of its symbol is at or past its end plus the grace, on exact times |
| `StreamSafety.LateIffStraggles` | src/tickstream/processing/app.py:48-71 | A record is dropped if and only if an earlier record of its symbol is at or past its window end plus grace, on exact times |
| `StreamSafety.LateRecordChangesNothing` | src/tickstream/processing/app.py:61-64 | A dropped record changes no window, emission or watermark, only the log |
| `StreamSafety.AcceptedOrLate` | src/tickstream/processing/app.py:61-64 | Every record is accepted or logged as late, exactly once |
| `StreamSafety.LongerGraceAcceptsMore` | src/tickstream/processing/app.py:139-143 | A longer grace accepts a superset of the records |
| `StreamSafety.DropsAtMostOutOfOrder` | src/tickstream/quality/contract.py:131-143 | Drops never exceed the out-of-order count of the same stream |
| `StreamSafety.InOrderNeverDrops` | src/tickstream/quality/contract.py:131-143 | Zero out-of-order records means zero drops |
| `StreamSafety.NothingLateMeansReference` | src/tickstream/processing/app.py:14 | When nothing is late the output is a permutation of the reference's closed windows over all records |
| `StreamSafety.StreamAgainstReference` | tests/test_processing.py:49-124 | The acceptance comparison over every input: unless a record was logged as late, operator and reference code return the same windows, in every field and per symbol in order |
| `StreamSafety.EmptyLogAcceptsAll` | src/tickstream/processing/app.py:66-70 | An empty late log means that every record was accepted |
| `StreamSafety.InterleavingsAgree` | src/tickstream/processing/app.py:155-157 | Arrival sequences with the same records for a symbol give it the same state, emissions and drops |
| `Pipeline.BuildPipeline` | src/tickstream/processing/app.py:134-178 | One aggregation per topic and size, trades first |
| `Pipeline.RunProcessor` | src/tickstream/processing/app.py:134-200 | For each size and topic exactly one aggregation: it drops exactly the records that come later than that size and the configured grace allow, and emits a permutation of the closed windows over the others, whatever the interleaving of the topics |
| `Pipeline.OutputKeysDistinct` | src/tickstream/processing/app.py:142-178 | No two records of the output topic share symbol, size, start and source |
| `Ordering.CountOutOfOrder` | src/tickstream/quality/contract.py:131-143 | The greedy per-symbol loop counts exactly the records overtaken by an earlier one of their symbol |
| `Ordering.CountInGroup` | src/tickstream/quality/contract.py:137-142 | Within a group, falling below the running value is being overtaken |
| `Ordering.OutOfOrderZero` | src/tickstream/quality/contract.py:131-143 | The count is zero exactly when every symbol's records arrive in event-time order |
| `Silver.RowNumberDedups` | dbt/models/silver/silver_trades.sql:16-37 | Row number one keeps exactly one row per (symbol, trade id), a least one in the declared order |
| `Silver.SilverTradesAreUsable` | dbt/models/silver/silver_trades.sql:4-14 | Every row of the silver trades is a bronze trade with an id, a positive price and a non-negative size |
| `Silver.UsableTradeKept` | dbt/models/silver/silver_trades.sql:16-37 | Every such bronze trade has exactly one row with its symbol and id, at or before it by event time, ingest time, price and size |
| `Silver.SurvivorIsEarliest` | dbt/models/silver/silver_trades.sql:22 | The surviving row is at or before every usable trade with its symbol and trade id, in all four columns |
| `Silver.SilverTickerRows` | dbt/models/silver/silver_ticker.sql:4-14 | The silver ticker holds each two-sided, uncrossed bronze tick as often as bronze does, and nothing else |
| `Silver.DedupDetermined` | dbt/models/silver/silver_trades.sql:21-22 | Input order and tie-breaking cannot change the partitioning and ordering columns of the result |
| `Silver.DedupIdempotent` | dbt/models/silver/silver_trades.sql:16-37 | Deduplicating again keeps every row |
| `Silver.DistinctIdsKept` | dbt/models/silver/silver_trades.sql:20 | With ids distinct per symbol, deduplication keeps every row |
| `MartReference.GroupsAreWindows` | dbt/macros/window_start.sql:3-5 | Grouping by the symbol and the macro's start makes the reference's windows: the same keys and the same rows in each |
| `MartReference.TradeSums` | dbt/models/gold/gold_window_metrics.sql:15-17 | sum(price * size), sum(size) and count(*) are the reference statistics of valid trades |
| `MartReference.TickerSums` | dbt/models/gold/gold_window_metrics.sql:30-32 | avg(spread), avg(mid) and count(*) rest on the reference statistics of valid ticks |
| `MartReference.TradeWindowsMember` | dbt/models/gold/gold_window_metrics.sql:9-22 | Group-by at both sizes and union all give a row for exactly the keys that occur |
| `MartReference.TickerWindowsMember` | dbt/models/gold/gold_window_metrics.sql:24-37 | The same for the ticker side |
| `MartReference.JoinIsOneToOne` | dbt/models/gold/gold_window_metrics.sql:39-55 | The full outer join gives each key one row, made of that key's rows on both sides |
| `MartReference.JoinKeepsKeys` | dbt/models/gold/gold_window_metrics.sql:50-54 | The join has a row for exactly the keys of either side |
| `MartReference.JoinedRowIsReference` | dbt/models/gold/gold_window_metrics.sql:57-73 | Coalescing and projecting a joined row gives the reference row of its key |
| `MartReference.GoldKeysDistinct` | dbt/models/gold/gold_window_metrics.sql:39-55 | Gold has one row per (symbol, size, start) |
| `MartReference.GoldIsReference` | dbt/models/gold/gold_window_metrics.sql:1-5 | Gold over any silver tables is a permutation of the reference at both sizes over all their rows |
| `MartReference.MartIsReference` | dbt/models/gold/gold_window_metrics.sql:9-73 | The same from any bronze table, valid or not |
| `MartReference.GoldRowIsReference` | dbt/models/gold/gold_window_metrics.sql:57-73 | Each gold row is, in every field, the reference row of a window that holds a silver row |
| `MartReference.GoldOrderIndependent` | dbt/models/silver/silver_trades.sql:16-37 | Gold does not depend on the order of bronze nor on how numbering ties are broken |
| `WindowKeyText.WindowKeyInjective` | dbt/models/gold/gold_window_metrics.sql:72 | Equal key strings name equal windows, even when a symbol contains the separator |
| `WindowKeyText.WindowKeyParts` | dbt/models/gold/gold_window_metrics.sql:72 | A key is the symbol, the size and digits that read back as the start in epoch seconds, joined by bars |
| `WindowKeyText.GoldKeyStringsDistinct` | dbt/models/gold/gold_window_metrics.sql:72 | No two gold rows have the same key string |
| `EndToEnd.SilverIsTopics` | dbt/models/silver/silver_ticker.sql:4-14 | On clean data each silver table is a permutation of its raw topic |
| `EndToEnd.EmittedIsInGold` | dbt/models/gold/gold_window_metrics.sql:4-5 | Every emitted window equals, in every field, its source's side of the gold row with its key |
| `EndToEnd.UnemittedGold` | src/tickstream/processing/metrics.py:139-140 | Gold keys an aggregation has not emitted are exactly those still open in it or without a record of its source |
| `MetricLaws.VwapAbsentIffNoVolume` | src/tickstream/processing/metrics.py:107 | On schema-valid events the vwap is absent exactly when the volume is zero |
| `MetricLaws.VwapBetweenPrices` | src/tickstream/processing/metrics.py:78 | The vwap lies between the prices of two positive-size trades of its window |
| `MetricLaws.QuotesBounded` | src/tickstream/processing/metrics.py:110-111 | The mean spread is not negative and the mean mid lies between a bid and an ask of its window |
| `MetricLaws.EmptyRowIff` | src/tickstream/processing/metrics.py:82-96 | A row counts no event exactly when its window holds only incomplete events |
| `MetricLaws.WindowsConserveTotals` | src/tickstream/processing/metrics.py:82-96 | All windows together hold every event's contribution once |
| `MetricLaws.WindowsRollUp` | src/tickstream/processing/metrics.py:22 | A coarse window is the merge of the finer windows inside it, for any width and multiple |
| `MetricLaws.MinutesRollUp` | src/tickstream/processing/metrics.py:22 | Each 5m row is the merge of its 1m rows: counts and volumes add, vwap, spread and mid are weighted means |
| `Sla.DropDuplicates` | src/tickstream/quality/sla.py:83-87 | The distinct (symbol, bucket) pairs are the windows of the valid rows |
| `Sla.ExpectedWindowsBySymbol` | src/tickstream/quality/sla.py:72-90 | The nested loops count each symbol's distinct windows over both sizes |
| `Sla.ProducedAtMostExpected` | src/tickstream/quality/sla.py:115-120 | Gold never holds more windows of a symbol than are expected, and as many exactly when each expected window of either size is filled |
| `Sla.Shortfall` | src/tickstream/quality/sla.py:58-90 | What gold lacks of a symbol's expected windows are exactly those in which no row survives deduplication, so its 99 percent target is met exactly when they are at most one percent of the expected |
| `Sla.CompleteIffMinutesSurvive` | src/tickstream/quality/sla.py:58-90 | A symbol is fully complete exactly when each of its occupied minutes keeps a row through deduplication |
| `Sla.SharedMinutesComplete` | dbt/models/silver/silver_trades.sql:16-37 | It is fully complete when rows sharing a trade id share a minute |
| `Sla.RepeatedIdIncomplete` | src/tickstream/quality/sla.py:7-8 | Two schema-valid, silver-valid trades that share an id a minute apart miss the 99 percent target |
| `Sla.RowCounts` | src/tickstream/quality/sla.py:93-100 | On any gold table each row adds one to the count unless its spread is not negative, its vwap positive where it has trades, and its event count consistent |
| `Sla.ViolationsAreEmptyVolumes` | src/tickstream/quality/sla.py:93-100 | On any gold no spread is negative and every event count adds up, so those two checks never fire; the violation count is the number of windows that have trades but no volume |
| `Sla.NoViolationsIff` | src/tickstream/quality/sla.py:9-10 | No violation reaches gold exactly when every minute with a least valid trade of its id has one of positive size |
| `Sla.ZeroSizeTradeViolates` | src/tickstream/quality/sla.py:98 | A lone valid trade of size zero is a violation |
| `Normalize.NormalizeCoinbase` | src/tickstream/producer/normalize.py:62-130 | The nested loops compute the specification that the message results below describe in raw fields |
| `Normalize.TradePublishedIff` | src/tickstream/producer/normalize.py:82-100 | Exactly which trades are published, with a symbol map or without, and what every field of the event is |
| `Normalize.SideRead` | src/tickstream/producer/normalize.py:93 | A side is read from buy and sell in any case, the long s included, and from nothing else |
| `Normalize.TickPublishedIff` | src/tickstream/producer/normalize.py:109-128 | Exactly which ticks are published, with a symbol map or without, what every field of the event is, and that it lacks a side of the book exactly when the tick did |
| `Messages.TradeMessageYields` | src/tickstream/producer/normalize.py:75-100 | A message of trades that does not raise gives, in order, an event with every field for each publishable trade outside snapshots, and a reject with its fault for each refused one |
| `Messages.TickMessageYields` | src/tickstream/producer/normalize.py:102-130 | A message of ticks gives, in order, an event at the envelope time and the ingest time for each publishable tick and a reject with its fault for each refused one; one reject if the envelope time does not read; nothing if something raises |
| `Messages.NewTradesAreUpdates` | src/tickstream/producer/normalize.py:76-80 | New trades are the trades of the envelopes that are no snapshots, in order |
| `Messages.TickInPlace` | src/tickstream/producer/normalize.py:107-108 | The ticks of a message stand envelope by envelope, each in its place |
| `Messages.CoinbaseMessage` | src/tickstream/producer/normalize.py:213-216 | Coinbase messages are read with each configured symbol under its own name |
| `Messages.BinanceMessageYields` | src/tickstream/producer/normalize.py:136-178 | A Binance.US message that does not raise gives an event with every field for a publishable trade or tick, a reject with its fault for another one of a listed symbol, and nothing else |
| `Messages.NativeSpelling` | src/tickstream/config.py:77-81 | A dash-style name is the symbol, a concat-style name the symbol without its dashes |
| `Normalize.TradeMessageAccounted` | src/tickstream/producer/normalize.py:75-100 | Every trade of a message is an event, a reject, a skipped snapshot or an unconfigured drop, unless one raises |
| `Normalize.TickMessageAccounted` | src/tickstream/producer/normalize.py:102-128 | Every tick likewise, or one reject when the envelope timestamp is unreadable |
| `Normalize.SiblingsUnaffected` | src/tickstream/producer/normalize.py:65-69 | A trade does not affect what its siblings yield, exactly as long as none of them raises |
| `Normalize.NullTimeLosesSibling` | src/tickstream/producer/normalize.py:98-100 | A trade with a null time loses the valid trade next to it |
| `Normalize.BinanceTradePublishedIff` | src/tickstream/producer/normalize.py:147-161 | Of the records of type trade or with all four trade fields, exactly which are published, and what every field is |
| `Normalize.BinanceTickPublishedIff` | src/tickstream/producer/normalize.py:162-174 | Of the other records that name both quotes, exactly which are published, what every field is, and when a side of the book is missing |
| `Normalize.BinanceMeetsContract` | src/tickstream/producer/normalize.py:136-178 | Every Binance.US event meets the row contract of the configured symbols |
| `Normalize.RowContractIff` | src/tickstream/quality/contract.py:58-80 | The row contract is the schema contract, a configured symbol, and price and size on trades |
| `Normalize.OnlyContractEventsPass` | src/tickstream/quality/contract.py:58-80 | Under the configured symbol map only events that meet the row contract are passed on |
| `Normalize.SymbolMapSound` | src/tickstream/producer/normalize.py:213-216 | The symbol map answers with configured symbols under their own native names |
| `Normalize.SymbolRoundTrip` | src/tickstream/producer/normalize.py:213-216 | Every configured symbol maps back to itself exactly when no two share a native name |
| `Service.BackoffDelays.Next` | src/tickstream/producer/backoff.py:28-33 | Each delay lies between zero and the ceiling of its attempt, reaching them for draws zero and one, and is the ceiling without jitter |
| `Service.BoundGrows` | src/tickstream/producer/backoff.py:31 | The next ceiling is the smaller of the cap and the factor times the current one |
| `Service.BoundSchedule` | src/tickstream/producer/backoff.py:24-26 | The ceilings rise from half a second and stay at thirty from the seventh attempt |
| `Service.Stream` | src/tickstream/producer/service.py:71-100 | One connection is consumed up to and including the message that hits the limit |
| `Service.RunProducer` | src/tickstream/producer/service.py:65-117 | The reconnect loop computes the run of the state machine over the connections |
| `Routing.LiveRouting` | src/tickstream/producer/service.py:75-94 | Over every run each event goes to the topic of its type; each raw topic receives the events of its type and quarantine the rejects of the first messages delivered, in order, and of all while it runs or is not limited |
| `Routing.SentInBlocks` | src/tickstream/producer/service.py:75-94 | Each message is sent as a block: its rejects, then its events, each to the topic of its type, after the blocks before it |
| `Service.ReturnsWithin` | src/tickstream/producer/service.py:107-111 | With m reconnects allowed the producer returns after at most m + 1 connections and m sleeps |
| `Service.DelaysFollowResets` | src/tickstream/producer/service.py:112-115 | Every delay is set by the sleeps since the last reset, and the resets follow exactly the connections that publish something |
| `Service.ProductivePublishes` | src/tickstream/producer/service.py:69-94 | A connection is productive exactly when the published count grows over it |
| `Service.OpenedInOrder` | src/tickstream/producer/service.py:66-117 | The connections opened are a prefix, and what comes after them changes nothing |
| `Service.SleepsBounded` | src/tickstream/producer/service.py:112-117 | Every sleep lies between zero and the bound of its place since the last connection that published something |
| `Outcomes.SleepAfterProductive` | src/tickstream/producer/service.py:112-117 | The n-th unproductive reconnect in a row, after a connection over which the published count grew, sleeps for the n-th delay of the schedule |
| `Outcomes.ReconnectsExactly` | src/tickstream/producer/service.py:107-111 | With m reconnects allowed and nothing else to stop it, the producer opens exactly m + 1 connections and takes m sleeps |
| `Service.CountersMatchMessages` | src/tickstream/producer/service.py:75-94 | Published and quarantined count the messages sent to the raw and quarantine topics |
| `Service.MessageLimit` | src/tickstream/producer/service.py:95-100 | Under a positive limit a run that has not stopped on it is short of it; one that has overshoots by less than the events of the last message consumed from its last connection |
| `Outcomes.NoLimitNoStop` | src/tickstream/producer/service.py:95 | No limit, or zero, never stops the producer |
| `Outcomes.NegativeLimit` | src/tickstream/producer/service.py:95 | A negative limit stops the producer on its first message |
| `Outcomes.RunningIff` | src/tickstream/producer/service.py:66-117 | The producer still runs after its connections exactly when none of them raises, the reconnects allow for them all and their messages do not hit the message limit |
| `Outcomes.RaisesIff` | src/tickstream/producer/service.py:101-105 | The producer raises exactly when one of its connections delivers a message that raises, may be opened, and publishes too little up to there, with those before it, to hit the message limit |
| `Outcomes.ReachesLimitIff` | src/tickstream/producer/service.py:95-100 | The producer stops on its message limit exactly when it still runs before some connection and the messages up to its end hit the limit |
| `Outcomes.DeliverRaisesIff` | src/tickstream/producer/service.py:70-74 | A connection raises exactly when normalizing one of the raw messages it delivers does |
| `Outcomes.MalformedMessageEndsRun` | src/tickstream/producer/service.py:10-11 | One trade with a null time ends the run, unpublished with its valid sibling, whatever the limits |
| `Replay.RunReplay` | src/tickstream/producer/replay.py:74-142 | The loop sends every message's rejects and events in order and reports their tallies, failing on a message that raises and on incomplete delivery |
| `Replay.ReplayRouting` | src/tickstream/producer/replay.py:91-123 | A replay normalizes the first recorded messages, each at its own time, and sends the events of each type to its topic and the rejects to quarantine, in order |
| `Replay.LimitedIsFirst` | src/tickstream/producer/replay.py:74-77 | A limit k lets through the first k messages, or all there are |
| `Replay.TallyCounts` | src/tickstream/producer/replay.py:119-123 | The tallies are the numbers of events by type and by symbol |
| `Replay.TotalsAgree` | src/tickstream/producer/replay.py:125-140 | Events are trades plus tickers, the sum over symbols, and what was sent to the raw topics |
| `Replay.LiveSendsDelivered` | src/tickstream/producer/service.py:71-94 | A live producer without a message limit sends everything its connections deliver, in order, however it is spread over them |
| `Replay.ReplayAgainstLive` | src/tickstream/producer/replay.py:3-5 | On the same messages replay and the live producer send the raw topics the same events in the same order, and the quarantine topic the same records exactly when every message with a reject has sequence number zero |

## Left out

- Floating-point rounding, NaN and infinities; the overflow of `factor**attempt` as a float after about a thousand unproductive reconnects; the rounding in `int(timestamp * 1000)`.
- Quix internals (state stores, changelog topics, partitions, recovery), Kafka clients, WebSockets, topic administration, consumer drain loops and flushing, and the message keys, which are the events' symbols.
- pyiceberg, DuckDB, dbt, pandas and Pandera machinery: the SQL and the predicates are modelled as mathematical operators, and the Pandera frame split of `apply_contract` only as its row predicate `Normalize.RowContract`.
- The other columns of silver and the two Iceberg appends, which copy gold rows unchanged.
- ISO 8601 and JSON syntax: a raw field is its value or the kind of failure reading it. Messages whose JSON has the wrong shape around the records (an object where a list is expected) are not modelled; they too would raise outside the per-record handling. A side and a trade id are their text.
- The wording of rejection reasons: the model names the field or the violation.
- Latency percentiles, the two-decimal rounding of completeness and the `SLAReport` gates, which are comparisons with constants.
- Replay pacing, logging, signal handling, CLI, dashboard and configuration loading.
- EndToEnd.EmittedIsInGold: requires clean raw data (valid, complete, trade ids present and distinct per symbol) and no late record, as the two sides filter and drop different records otherwise.
- Replay.ReplayAgainstLive: takes both sides to stamp a message with the same ingest time, and leaves out the time of quarantine.
- Service.RunProducer: takes the connections as a finite sequence, so an unlimited run is modelled by its finite prefixes.
