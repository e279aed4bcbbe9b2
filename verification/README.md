# Website monitor pipeline — a Dafny model

This project models the sequential logic of a website monitor. Website pollers
probe HTTP endpoints on a period and turn each probe into a monitoring result.
They publish the result, without waiting, to one shared bounded queue. A batch
writer drains that queue on its own period and writes what it took to PostgreSQL
as one bulk `INSERT`. Both kinds of worker run on the same self-correcting periodic
loop. The website settings are validated before any worker starts.

Modules, one per source file or component:

- `Wrappers` (`wrappers.dfy`): `Option` and `Result`.
- `Serializers` (`serializers.dfy`): website-setting validation (`settings.py`) and the `MonitoringResult` record.
- `AsyncQueue` (`async_queue.dfy`): the shared `asyncio.Queue` as a class. The same module holds the value-level specification of publishes and drains.
- `BaseWorker` (`worker.py`, `worker.dfy`): the `Worker` class and its `run` loop. A run is a finite list of task outcomes; the list running out stands for cancellation.
- `WebsiteWorkers` (`website_worker.dfy`): probe outcome to record, the tri-state regexp result, and the non-blocking publish.
- `DbWorkers` (`db_worker.dfy`): the bounded FIFO drain, row rendering, and assembly of the single `INSERT` statement.

Time is a `real` number of seconds, as in the source. The HTTP outcome and
`datetime.now()` are parameters. So is every clock reading of the periodic loop:
the first one directly, and each later one through the cycle's `overshoot`, the
time by which the reading comes later than the loop asked for (a sleep that wakes
late, or scheduling delay). So are the regex search
(`search(pattern, text)`), URL validity (`isUrl`) and the text rendering of
timestamps and floats (`Renderers`). The writer returns the statement it would
execute instead of executing it.

Where the files disagree with each other or with the intended behaviour, the model
follows the code:

- A failing bulk write is not caught in `DbWorker.task` (`src/monitor/worker/db_worker.py:82-84`). It therefore propagates out of `Worker.run`, which catches only cancellation. The intended behaviour is that such a failure is logged and the writer carries on. In the model, that failure is a `Raised` task outcome, and the run ends `Propagated`.
- `MonitoringResult` (`src/monitor/serializers/monitoring_result.py:6-10`) has no `url` field and types `timestamp` as a string. The writer reads `entry.url`, and the poller passes a datetime. The model's record carries `url` (the poller's configured URL) and a numeric timestamp.
- `DbWorkerSettings` is imported but not defined. The model uses `DbWorkerSettings(period, maxBatchSize: nat)` without validation. A batch size of 0 means the writer never takes anything.
- As in asyncio, a queue `maxsize` of 0 or less means "unbounded". So the coordinator's capacity `2 × len(websites)` gives an unbounded queue when there are no websites.

## Model

| member | source | states |
|---|---|---|
| `Serializers.ParseWebsiteSetting` | src/monitor/serializers/settings.py:6-9 | Accepts exactly when the URL is valid and 5 <= period <= 300, giving the input with its defaults filled in. On rejection, lists each violated constraint and only those. |
| `Serializers.WithDefaults` | src/monitor/serializers/settings.py:7-9 | The validated setting keeps url and period; an omitted regexp becomes "" and a given one is kept. |
| `Serializers.FailingPositions` | src/monitor/serializers/settings.py:12-13 | A position is reported iff it is a position of the list whose entry fails validation. |
| `Serializers.ParseMonitorSettings` | src/monitor/serializers/settings.py:12-13 | The website list is accepted iff every entry is. Order is kept, and entry i is input i with its defaults filled in. On rejection, reports exactly the positions of the failing entries. |
| `Serializers.PeriodOutOfRangeRejected` | src/monitor/serializers/settings.py:8 | A period of 4 is rejected as too low, and 301 as too high. |
| `Serializers.PeriodBoundsInclusive` | src/monitor/serializers/settings.py:8 | Periods 5, 5.5, 10 and 300 are accepted for a valid URL. |
| `Serializers.OmittedRegexpDefaultsToEmpty` | src/monitor/serializers/settings.py:9 | An omitted regexp is "", and a given regexp is kept verbatim. |
| `AsyncQueue.Put` | src/monitor/worker/website_worker.py:24-27 | A full queue is unchanged. Otherwise the item is appended at the back and the length grows by one. |
| `AsyncQueue.TakeUpTo` | src/monitor/worker/db_worker.py:57-61 | The batch has exactly min(n, queue length) items. Batch followed by the remainder is the original queue, so the batch is the FIFO prefix. |
| `AsyncQueue.ApplyWithinCapacity` | src/monitor/worker/website_worker.py:24-27 | No sequence of publishes and drains takes a bounded queue beyond its maxsize. |
| `AsyncQueue.PublishAllAcceptsPrefix` | src/monitor/worker/website_worker.py:24-27 | A run of publishes keeps the queued items and accepts exactly the first items that fit. Once the queue is full, every later item is dropped and nothing is evicted. |
| `AsyncQueue.PublishAllIsApply` | src/monitor/worker/website_worker.py:24-27 | A run of publishes is the general publish/drain sequence restricted to publishes: the two formulations agree. |
| `AsyncQueue.FifoRoundTrip` | src/monitor/worker/db_worker.py:57-61 | Items published to an unbounded queue are all drained, in publish order. |
| `AsyncQueue.OverflowWithCapacityOne` | src/tests/test_website_worker.py:229-260 | With maxsize 1, the second of two publishes is dropped and only the first stays. |
| `AsyncQueue.Queue.constructor` | src/monitor/monitor.py:12 | A new queue is empty, has the given maxsize and satisfies the capacity invariant. |
| `AsyncQueue.Queue.Empty` | src/monitor/worker/db_worker.py:58 | True iff the queue holds no item. |
| `AsyncQueue.Queue.Full` | src/monitor/worker/website_worker.py:25 | True iff the queue is bounded and holds maxsize or more items; under the capacity invariant a full queue holds exactly maxsize. |
| `AsyncQueue.Queue.PutNowait` | src/monitor/worker/website_worker.py:24-27 | Accepted iff the queue was not full. Accepted means appended at the back; rejected leaves the contents unchanged. The capacity invariant is kept. |
| `AsyncQueue.Queue.Get` | src/monitor/worker/db_worker.py:60 | Removes and returns the front item. |
| `BaseWorker.Worker.constructor` | src/monitor/worker/worker.py:9-11 | Stores period and name; the name defaults to "BaseWorker". |
| `BaseWorker.Worker.Run` | src/monitor/worker/worker.py:13-24 | The loop's events are exactly the specified trace, and it ends `Propagated` iff some task raised, otherwise `Cancelled`. |
| `BaseWorker.Trace` | src/monitor/worker/worker.py:16-22 | A run has events iff it has cycles, the first event is the task call at the initial clock reading, and there are at most two events per cycle. |
| `BaseWorker.CycleEvents` | src/monitor/worker/worker.py:17-22 | A finished cycle is its task call, followed by a sleep of period - d iff d <= period. |
| `BaseWorker.TraceStep` | src/monitor/worker/worker.py:15-24 | A raising first task gives one call and a propagated error; a finished one gives that cycle's events, then the run from the next clock reading, with the same ending. |
| `BaseWorker.Ending` | src/monitor/worker/worker.py:15-24 | A run ends with a propagated error iff some task call raised; otherwise it ends cleanly on cancellation. |
| `BaseWorker.OneTaskCallPerCycle` | src/monitor/worker/worker.py:16-18 | The number of task calls equals the number of cycles run (up to and including a raising one). |
| `BaseWorker.FirstCallStart` | src/monitor/worker/worker.py:17-18 | A run with at least one cycle calls the task first at the initial clock reading. |
| `BaseWorker.CycleSpacing` | src/monitor/worker/worker.py:17-22 | Every cycle before the last finished its task. The next cycle starts max(period, duration) after the previous start, plus that cycle's overshoot. |
| `BaseWorker.CycleSpacingAtLeast` | src/monitor/worker/worker.py:17-22 | When the clock reading is not early, consecutive cycles start at least max(period, duration) apart. |
| `BaseWorker.SleepsAreNonNegative` | src/monitor/worker/worker.py:19-22 | Every sleep in a run is for a non-negative amount. |
| `BaseWorker.NoConsecutiveSleeps` | src/monitor/worker/worker.py:16-22 | A run starts with a task call, and a sleep is never followed by another sleep. |
| `BaseWorker.OverrunStartsNextCycleAtOnce` | src/monitor/worker/worker.py:20-22 | A task longer than the period is followed, with no sleep and no extra call, by the next task call at its end time plus the overshoot. |
| `BaseWorker.ShortTaskSleepsRemainder` | src/monitor/worker/worker.py:20-22 | A task of duration d <= period is followed by a sleep of period - d, and the next cycle starts one period after the previous one, plus the overshoot. |
| `WebsiteWorkers.GetUrlStatus` | src/monitor/worker/website_worker.py:42-53 | A transport failure gives status 500 and an empty body. A completed exchange passes the status and body through unchanged. Any other error is not caught: there is no result iff one was raised. |
| `WebsiteWorkers.PollerOutcome` | src/monitor/worker/website_worker.py:21-22 | The poller's task raises iff the probe raised an uncaught error; otherwise it finishes with the cycle's duration and overshoot. |
| `WebsiteWorkers.PollerStopsOnUnhandledError` | src/monitor/worker/worker.py:15-24 | A poller's run ends by propagating an error iff one of its probes raised an uncaught error; otherwise it ends only by cancellation. |
| `WebsiteWorkers.SentinelMatchesServerError` | src/monitor/worker/website_worker.py:50-53 | A transport failure is indistinguishable from a real 500 response with an empty body. |
| `WebsiteWorkers.ConfiguredPattern` | src/monitor/worker/website_worker.py:18 | A pattern is configured iff the regexp setting is non-empty, and it is that regexp. |
| `WebsiteWorkers.ParseByRegexp` | src/monitor/worker/website_worker.py:55-64 | No pattern gives None. With a pattern, the result is never None and is true iff the search finds the pattern in the text. |
| `WebsiteWorkers.CheckWebsiteStatus` | src/monitor/worker/website_worker.py:29-40 | There is no record iff the probe raised an uncaught error. Otherwise the record carries the url and timestamp, response time end - start, and the passed-through or sentinel status. It carries a match result iff a pattern is configured, computed on the body (or "" after a failure). |
| `WebsiteWorkers.MatchPresentIffRegexpConfigured` | src/monitor/worker/website_worker.py:55-57 | For every probe that yields a record, the record's match result is present iff the website's regexp setting is non-empty. |
| `WebsiteWorkers.ProbeWithoutPatternScenarios` | src/tests/test_website_worker.py:161-226 | Without a pattern, 200 and 404 are recorded as-is, an unreachable endpoint as 500, and none has a match result. |
| `WebsiteWorkers.Occurs` | src/monitor/worker/website_worker.py:61 | For a pattern with no special characters, search succeeds iff the pattern occurs at some position of the text. |
| `WebsiteWorkers.LiteralPatternScenarios` | src/tests/test_website_worker.py:122-158 | Body "Dummy data" gives a match of true for pattern "Dummy data" and false for "Data dummy". |
| `WebsiteWorkers.WebsiteWorker.constructor` | src/monitor/worker/website_worker.py:15-19 | Stores period, name, url and queue. A pattern is set only for a non-empty regexp. |
| `WebsiteWorkers.WebsiteWorker.Task` | src/monitor/worker/website_worker.py:21-27 | Builds the probe's record and makes one publish attempt. The record is at the back if the queue was not full. Otherwise it is dropped, the queue is unchanged and nothing is raised. A probe with an uncaught error publishes nothing. |
| `DbWorkers.JoinComma` | src/monitor/worker/db_worker.py:75 | Joining no strings gives ""; otherwise the result begins with the first string. |
| `DbWorkers.JoinCommaConcat` | src/monitor/worker/db_worker.py:75 | Joining two non-empty lists puts exactly one comma between the two joined halves. |
| `DbWorkers.ColumnListIsDeclarationOrder` | src/monitor/worker/db_worker.py:13-18 | `ColumnList`, the INSERT column list, is url,time_stamp,status_code,response_time,regexp_match, in enum order. |
| `DbWorkers.InsertHeaderText` | src/monitor/worker/db_worker.py:76-80 | The header inserts into the monitoring table, listing url,time_stamp,status_code,response_time,regexp_match, followed by VALUES. |
| `DbWorkers.RenderMatch` | src/monitor/worker/db_worker.py:68-69 | None renders as NULL, true as TRUE and false as FALSE. |
| `DbWorkers.RenderMatchRoundTrip` | src/monitor/worker/db_worker.py:68-69 | The rendered literal reads back as the same tri-state value. |
| `DbWorkers.RenderMatchInjective` | src/monitor/worker/db_worker.py:68-69 | Two tri-state values with the same literal are equal, so None is never written as FALSE. |
| `DbWorkers.IntToString` | src/monitor/worker/db_worker.py:72 | The status code is written with a minus sign iff it is negative, then only decimal digits. |
| `DbWorkers.IntToStringRoundTrip` | src/monitor/worker/db_worker.py:72 | The status code written in a row reads back as the same integer. |
| `DbWorkers.RowFollowsColumnOrder` | src/monitor/worker/db_worker.py:71-78 | In `RenderRow`, the i-th value of a row tuple is the record's literal for the i-th column of the column list. |
| `DbWorkers.BuildRows` | src/monitor/worker/db_worker.py:66-73 | The row loop produces exactly one rendered row per record, in batch order. |
| `DbWorkers.RenderRows` | src/monitor/worker/db_worker.py:66-73 | One row per record, in batch order. |
| `DbWorkers.InsertStatement` | src/monitor/worker/db_worker.py:64-81 | There is no statement iff the batch is empty. |
| `DbWorkers.StatementOfOne` | src/monitor/worker/db_worker.py:75-81 | The statement for one record is the header followed by that record's row. |
| `DbWorkers.StatementExtends` | src/monitor/worker/db_worker.py:75-81 | The statement for a + b is the statement for a, a comma, then b's rows, so each row appears once, in batch order. |
| `DbWorkers.DrainCyclesPartition` | src/monitor/worker/db_worker.py:57-61 | Across successive cycles with no new publishes, each batch has at most max_batch_size records. The batches together are the first min(cycles × n, length) queued records in FIFO order: nothing is duplicated or reordered. |
| `DbWorkers.DrainCyclesIsApply` | src/monitor/worker/db_worker.py:57-61 | The batches that successive drains take, followed by what the queue then holds, are the queue's original contents. |
| `DbWorkers.FiveRecordsInBatchesOfTwo` | src/monitor/worker/db_worker.py:54-84 | Five queued records with a batch size of 2 go out as batches of 2, 2 and 1 in three statements. The fourth cycle issues none. |
| `DbWorkers.DbWorker.constructor` | src/monitor/worker/db_worker.py:22-32 | Stores period, name (default "DBWorker"), queue, DSN and batch size. |
| `DbWorkers.DbWorker.Task` | src/monitor/worker/db_worker.py:54-84 | Takes exactly the FIFO prefix of min(max_batch_size, length) records and leaves the rest queued, with nothing put back. Returns the single statement for them, or none when it took none. |

## Left out

- HTTP I/O (`aiohttp.ClientSession`, `session.get` with a timeout equal to the period): the probe is given as its outcome: `Response(status, body)`, `TransportFailure` (a connection error or timeout, which is caught), or `UnhandledError`. The last stands for every other exception `session.get` or `response.text()` can raise (`ClientResponseError`, `TooManyRedirects`, `ClientPayloadError`, `UnicodeDecodeError`, …), which `_get_url_status` does not catch. Which of these occurs is not distinguished, since all of them propagate out of `task` and end the poller's run.
- Database I/O: `DbWorker._setup_db` (the `CREATE TABLE IF NOT EXISTS`), `aiopg.connect` and `cursor.execute`, and `DbWorker.run`, which runs that setup before the loop. The writer returns the statement instead of executing it.
- The regular-expression engine: `search` is a parameter, so `re.compile` failing on an invalid regexp is not modelled. `Occurs` models search only for patterns without special characters.
- The `run_in_executor` offload of the search, and all asyncio scheduling: `Monitor._run`/`stop`, `gather`, and cancellation of tasks. Cancellation in the middle of a task is not modelled separately; a run just ends after its last listed outcome.
- `Queue.Get` on an empty queue would wait for a producer. The writer only calls it after checking that the queue is not empty, so the model requires a non-empty queue.
- Wall-clock time and floating point: `datetime.now()`, the probe's start and end readings and the loop's first reading are parameters; the loop's later readings are fixed by the durations and overshoots in its outcome list. The text of floats and timestamps comes from the given renderers.
- URL parsing and normalisation by `pydantic.AnyUrl`: URL validity is the `isUrl` parameter, and a valid URL is kept verbatim.
- SQL escaping: the rows interpolate the URL unescaped, as the source does.
- Logging, `src/monitor/main.py` (argument parsing, YAML and environment loading, signal wiring) and `src/monitor/utils/logger.py`.
