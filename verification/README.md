# Verified model of market-foundry's state machines

market-foundry moves market data from venues through samplers, indicators and evaluators to orders,
and stores it. This project models those of its parts that are state machines, protocols or numeric
folds, and proves what they keep over whole runs. `dafny verify dfyconfig.toml` checks all of it.

Code that updates state in the repository is a class or a loop here, proved against a function on
values; the laws are lemmas about those functions. A sampler class also carries, as ghost state, the
whole stream it has seen, and its invariant says that its few fields are the batch result for that
stream.

| files | what they model |
|---|---|
| `Text`, `Splitter`, `SplitterLaws`, `LexemeLaws`, `SplitRules` | the migration statement splitter: a six-state scanner, a second comment scanner, a reference lexer and a printer |
| `Catalog`, `Runner`, `RunnerLaws` | the migration catalog and the forward-only runner, on a database where every outside operation can fail with or without effect |
| `Venue`, `Retry`, `Reconciler`, `PipelineLaws` | the order pipeline: adapter, bounded retries, lost-response reconciliation, against a venue that refuses duplicate client order ids |
| `ProblemLaws`, `ReasonLaws`, `RetryDelays` | what a problem that the pipeline returns tells and what it leaves open, and how long the retries wait |
| `RateLimiter` | the token bucket as steps of callers, ticks and Close in any interleaving |
| `Supervisor`, `SupervisorLaws` | restarts with backoff by self-sent timer messages |
| `Inserter`, `InserterLaws` | the bounded batch buffer with eviction, retry and drop |
| `Windows`, `Candle`, `Volume`, `TradeBurst`, `IntervalLaws` | window arithmetic and the streaming samplers |
| `Levels`, `VolumeProfile`, `Tpo` | price levels, the overload policy and the two bounded profiles |
| `Fusion` | the cross-venue fusion of many instruments |
| `Bollinger`, `Rsi`, `Ema`, `Macd`, `TrendLaws` | the indicators, over exact reals |
| `Decimals`, `Decision`, `Strategy`, `Risk`, `PaperOrder`, `OrderChain` | from an RSI value to a paper order |
| `Golden` | the golden snapshot comparison of the code generator |
| `Products`, `Wrappers` | products of numbers, options and results |

## How the outside appears

- Database, venue, network and kill switch are oracles: a function from the number of the operation,
  or a record for each attempt, decides what happens; the factor that jitter draws for a delay is part
  of that record. All laws hold for every oracle.
- Migrations are create-if-absent statements, which is what the runner's own comment
  (cmd/migrate/engine/runner.go:99-105) relies on for safe retries; any statement that creates one
  named object is covered.
- Prices, quantities and averages are exact reals, times integers in nanoseconds. A price text is a
  number or is marked as none; a quantity text is a number.
- Where the evaluators exchange four-decimal texts, the model has a rounding function of which only
  two things are asked: it is monotone and leaves four-decimal numbers alone.
  `Decimals.Round4IsRounding` shows that there is one. The square root of the Bollinger bands is a
  function of which only the defining equation is asked.
- The SHA-256 of the client order id and the checksums are opaque functions.

## What is not as one might expect

Each of these is a lemma with the exact condition or a witness.

- The splitter takes slash, star, slash for a complete comment, its second scanner does not. The two
  agree on every position exactly when no comment starts that way (`SplitterLaws.ScannerIsExact`).
- The comment at internal/application/execution/binance_futures_testnet_adapter.go:121-122 says that
  a body read failure follows HTTP 200, but the body is read before the status is looked at: the flag
  is set whatever the status (`PipelineLaws.SubmitEffect`). Nothing of at-most-once depends on it.
- A problem returned by the pipeline does not mean that the venue has no order, under no policy
  (`ProblemLaws.ProblemMayHideAnOrder`). It leaves that open exactly if the order was there before, or a
  request was sent and the venue has not denied having the order (`ProblemLaws.DoubtIff`).
- The restart handler does not look whether the family is restarting. That is safe only because of an
  invariant over reachable states (`SupervisorLaws.PendingMeansRestarting`,
  `SupervisorLaws.StrayRestartLeaks`).
- Rows can be evicted if and only if the pending limit is below the batch size
  (`Inserter.EvictionIffLimitBelowBatch`).
- Instants before 1970 can lie outside their own window, because Go's division truncates
  (`Windows.WindowContains`); the period clamp of the TPO sampler is reached by those only
  (`Tpo.ClampNeverMerges`).
- A window closes one timeframe after it opens, but the next one opens after the whole seconds of the
  timeframe: windows overlap by its fraction of a second (`Windows.NeighboursOverlap`), and candles
  hold the trades up to that much before their closing (`IntervalLaws.CandlesAreOfTheirIntervals`).
- The reflection law of the RSI fails for flat streams and only for them (`Rsi.Reflection`).
- The cap on retry delays does not cap what is slept: it is applied before jitter, which adds up to a
  quarter, and not at all to the first delay (`RetryDelays.SleepBounds`). Some run sleeps longer than
  the cap exactly if some delay of the policy before its last attempt is one that jitter takes past it
  (`RetryDelays.OversleepsIff`, `RetryDelays.CapHoldsIff`); for the shipped delays that takes seven
  attempts, and three are shipped (`RetryDelays.ShippedPolicy`).
- The comment at internal/application/decision/rsi_oversold_evaluator.go:69 puts the confidence at an
  RSI of 100 at about 0.85; the code gives 1 (`Decision.ConfidenceIsDistance`).
- In the exposure evaluator the comparison with the position limit never decides
  (`Risk.Dispositions`), and with the shipped limits no order is ever "modified"
  (`OrderChain.BuysIffOversold`).

## Model

| member | source | states |
|---|---|---|
| Splitter.SplitStatements | cmd/migrate/engine/splitter.go:18-93 | the scanning loop returns, for every text, the statements that the six-state scanner defines on whole texts |
| Splitter.AppendExecutable | cmd/migrate/engine/splitter.go:97-103 | the list grows by the trimmed segment if it has executable content, and not otherwise |
| Splitter.HasExecutableContent | cmd/migrate/engine/splitter.go:107-133 | the second scanner says yes exactly when an independently defined lexer finds a lexeme other than blanks and comments |
| SplitterLaws.SegmentsJoinToText | cmd/migrate/engine/splitter.go:40-91 | nothing is lost: the raw segments joined by `;` are the text, rune for rune, from every scanner state |
| SplitterLaws.ScannerIsExact | cmd/migrate/engine/splitter.go:40-91 | the scanner puts every position outside quotations and comments exactly as the reference lexer does if and only if no block comment of the text starts with slash, star, slash |
| SplitterLaws.NoTightComment | cmd/migrate/engine/splitter.go:45-68 | texts that do not contain these three runes in a row meet the condition |
| SplitterLaws.TightCommentDiffers | cmd/migrate/engine/splitter.go:45-68 | after slash, star, slash the scanner is outside the comment and the reference lexer is not |
| SplitterLaws.TightCommentSplitsDifferently | cmd/migrate/engine/splitter.go:40-91 | a text on which the two disagree about a separator |
| SplitterLaws.SegmentsAreCuts | cmd/migrate/engine/splitter.go:40-91 | the segments are the text cut at exactly those semicolons at which the scanner is in its code state |
| SplitterLaws.StatementsFollowLexer | cmd/migrate/engine/splitter.go:18-133 | under the condition the whole of SplitStatements is: cut at the semicolons that the reference lexer puts outside quotations and comments, trim, keep what that lexer finds executable |
| LexemeLaws.TextsAreCuts | cmd/migrate/engine/splitter.go:18-93 | one pass of the reference lexer over the whole text, cut at its semicolons, gives the text cut at the semicolons outside quotations and comments |
| LexemeLaws.PiecesLexAlike | cmd/migrate/engine/splitter.go:107-133 | lexing a piece afresh finds content in it exactly when the lexemes of the whole text inside it have some |
| LexemeLaws.DroppedIffNoContent | cmd/migrate/engine/splitter.go:18-133 | without a tight comment, a segment is dropped if the lexemes of the whole text inside it are only blanks and comments, and if it has no white space but spaces, tabs and line ends, only then |
| LexemeLaws.ContentByRules | cmd/migrate/engine/splitter.go:107-133 | executable content by rules on texts: blanks and whole comments in front of a text add none, everything else in front of it is content |
| SplitRules.SplitByRules | cmd/migrate/engine/splitter.go:40-91 | splitting by rules on texts, without states: only a semicolon separates; a quotation of any kind and a comment of either kind are passed over whole with the semicolons in them |
| SplitRules.Escaped | cmd/migrate/engine/splitter.go:69-80 | inside a string literal a backslash hides the next rune, a quote included |
| SplitterLaws.StatementsArePrintable | cmd/migrate/engine/splitter.go:18-103 | every returned statement is trimmed, executable, free of separators, and all but the last end outside quotations |
| SplitterLaws.SplitPrintRoundTrip | cmd/migrate/engine/splitter.go:18-103 | for every text, joining the statements with a semicolon on a line of its own and splitting again gives the same statements |
| SplitterLaws.StatementSplitsToItself | cmd/migrate/engine/splitter.go:18-103 | each returned statement splits into exactly itself |
| SplitterLaws.BareSemicolonDoesNotSeparate | cmd/migrate/engine/splitter.go:97-103 | a text for which joining with a bare semicolon does not round-trip, because trimming removed the newline that ended a line comment |
| Text.TrimSpaceSplits | cmd/migrate/engine/splitter.go:98-98 | trimming removes white space at both ends, all of it and nothing else |
| Text.SpacesAreWhiteSpace | cmd/migrate/engine/splitter.go:98-98 | white space is the twenty-five code points of the Unicode property |
| Catalog.ReadCatalog | cmd/migrate/engine/catalog.go:16-63 | succeeds exactly when every name matches the pattern and no version repeats, and then returns the sorted catalog; otherwise reports what is wrong with the first bad name |
| Catalog.WellNamedIffPattern | cmd/migrate/engine/catalog.go:12-12 | the names accepted are three digits, an underscore, at least one rune on one line, and .sql |
| Catalog.VersionIsWritten | cmd/migrate/engine/catalog.go:32-50 | a version is below 1000 and, written with three digits, is the beginning of the file name; the name with .sql is the file name |
| Catalog.OrderOfNames | cmd/migrate/engine/catalog.go:52-60 | of two migrations of a catalog the one comes first whose three digits, and whose whole file name, are lexicographically smaller |
| Catalog.Sorted | cmd/migrate/engine/catalog.go:52-60 | strictly ascending versions, the same migrations |
| Catalog.LoadIsCatalog | cmd/migrate/engine/catalog.go:16-63 | one migration for each file name, no other, strictly ascending |
| Catalog.CatalogIsUnique | cmd/migrate/engine/catalog.go:52-60 | a strictly ascending catalog is determined by its contents, so the sorting algorithm is immaterial |
| Runner.Runner.Applied | cmd/migrate/engine/runner.go:39-57 | the map has exactly the recorded versions as keys, each with a record of that version; an error if the query fails or the metadata table is missing |
| Runner.Runner.ApplyOne | cmd/migrate/engine/runner.go:84-122 | one pending migration: checksum, file, statements in order up to the first failure, then the record; only the checksum in a dry run |
| Runner.Runner.Up | cmd/migrate/engine/runner.go:62-132 | the loops leave the database and return the error that the run function defines, in normal and dry runs |
| RunnerLaws.ExecFromKeeps | cmd/migrate/engine/runner.go:106-112 | executing the statements of a pending migration, cut short anywhere, keeps the database at a prefix of all statements of the catalog |
| RunnerLaws.ApplyKeeps | cmd/migrate/engine/runner.go:78-123 | one pending migration is recorded only after all its statements have taken effect |
| RunnerLaws.UpKeeps | cmd/migrate/engine/runner.go:62-132 | one run, whatever fails in it, leaves recorded versions that are a prefix of the catalog and executed statements that are a prefix of its statements; a run without error records all |
| RunnerLaws.RunsKeep | cmd/migrate/engine/runner.go:62-132 | the same for any number of runs, dry or not, each cut short anywhere |
| RunnerLaws.RecordedIsPrefix | cmd/migrate/engine/runner.go:62-132 | from an unrecorded database the recorded versions are always a prefix of the sorted catalog, and the statements of each have taken effect in order |
| RunnerLaws.CrashConvergence | cmd/migrate/engine/runner.go:62-132 | any runs cut short, then one that returns no error: the schema is that of the whole catalog, and every version is recorded with its name and the checksum of its file |
| RunnerLaws.FilesAreThere | cmd/migrate/engine/runner.go:84-122 | after any runs cut short and one without error, every migration's file is known to be there, because a version is recorded only after its file was read |
| RunnerLaws.UpAttempts | cmd/migrate/engine/runner.go:62-132 | one run, whatever fails in it, attempts the statements of the pending migrations in order, from the first one on and without a gap; all of them if it returns no error, none in a dry run |
| RunnerLaws.ExecAttempts | cmd/migrate/engine/runner.go:106-112 | the same for one file; an error names the position of the last statement attempted |
| RunnerLaws.SucceedsIff | cmd/migrate/engine/runner.go:62-132 | a run returns no error if and only if every outside operation it made succeeded, the file names are acceptable, and the files of the unrecorded migrations are there |
| RunnerLaws.SameAsCleanRun | cmd/migrate/engine/runner.go:62-132 | in a world without failures a single run from the same start succeeds, and its schema is the one any runs cut short followed by one without error leave |
| RunnerLaws.NothingLeftToDo | cmd/migrate/engine/runner.go:76-82 | a further run executes no statement and changes neither schema nor records |
| RunnerLaws.DryRunChangesNothing | cmd/migrate/engine/runner.go:60-92 | a dry run executes no statement and changes neither schema nor records, whatever fails in it |
| Venue.Adapter.SubmitOrder | internal/application/execution/binance_futures_testnet_adapter.go:65-135 | the adapter's request and its reading of the response are the ones of the submit function, for every fate of the request |
| Venue.Adapter.QueryOrder | internal/application/execution/binance_futures_testnet_adapter.go:357-417 | the same for queries |
| PipelineLaws.ClassificationIsExact | internal/application/execution/binance_futures_testnet_adapter.go:163-276 | an HTTP error is retryable exactly if it is transient: rate limits, server errors and the venue codes that say so in the ambiguous 4xx range; then and only then its code is Unavailable |
| PipelineLaws.ErrorsAreTold | internal/application/execution/binance_futures_testnet_adapter.go:163-276 | the details of an HTTP error carry the status, the venue's code if there is one, and the class of the three transient codes in the ambiguous 4xx range |
| PipelineLaws.ParseIsFaithful | internal/application/execution/binance_futures_testnet_adapter.go:278-348 | a response is a receipt if and only if it is legible and its status one of the venue's seven words; the receipt then has the status for that word and the reported quantity, and one fill, with price, quantity and cost as reported, exactly for FILLED and PARTIALLY_FILLED; anything else is a problem that is not retryable |
| PipelineLaws.SubmitEffect | internal/application/execution/binance_futures_testnet_adapter.go:65-135 | a request sends one message and adds at most its own order; it succeeds if and only if the answer is a legible 200 and the venue has the order in a state it has a word for, and then says what was reported; a lost body is flagged with the client order id and not retryable |
| PipelineLaws.QueryEffect | internal/application/execution/binance_futures_testnet_adapter.go:357-417 | a query sends one message and adds no order; it succeeds under the same condition, its receipt is what the venue has, and its problems are retryable exactly if transient |
| Retry.RetrySubmitter.SubmitOrder | internal/application/execution/retry_submitter.go:133-222 | the attempt loop sends and returns what the retry function defines, for every schedule of outcomes, clocks, halts and contexts |
| PipelineLaws.RetryGuarantees | internal/application/execution/retry_submitter.go:133-222 | from every attempt on: the remaining budget is respected, only the identical request is sent, each attempt after a live context and within the deadline, and none after a success, a refusal, a lost response or a halt; a success stands for an order as reported |
| PipelineLaws.RetriesAllAttempts | internal/application/execution/retry_submitter.go:151-222 | with nothing but transient failures every attempt is made and the exhaustion is annotated |
| ProblemLaws.SendsIffFirstAttemptCan | internal/application/execution/retry_submitter.go:78-170 | under every policy, a limit of attempts below 1 included, a request is sent if and only if the first attempt can send one: a buy or sell, a live context, a clock within the deadline, and a request that can be built |
| RetryDelays.SleepsAreJittered | internal/application/execution/retry_submitter.go:133-222 | the sleeps of every run are, in order, the nominal delays times the jitter drawn for each; one for every attempt but the last when all attempts are transient failures |
| RetryDelays.JitterBound | internal/application/execution/retry_submitter.go:289-292 | no draw of jitter makes more of a delay than the stated longest sleep, less than a quarter more than the delay |
| RetryDelays.LongestIsAttained | internal/application/execution/retry_submitter.go:289-292 | and some draw makes exactly that |
| RetryDelays.SleepBounds | internal/application/execution/retry_submitter.go:133-222 | in every run the first sleep is at most the longest of the base delay, whatever the cap, and every later one at most the longest of the cap; there are fewer sleeps than attempts |
| RetryDelays.OversleepsIff | internal/application/execution/retry_submitter.go:133-222 | some schedule makes a run sleep longer than the cap if and only if some nominal delay before the last attempt is one that jitter takes past the cap |
| RetryDelays.CapHoldsIff | internal/application/execution/retry_submitter.go:133-222 | that in closed form for delays that do not shrink: only the base delay and the last delay matter, and each holds the cap exactly if five times it is at most four times the cap plus 4 nanoseconds |
| RetryDelays.ShippedPolicy | internal/application/execution/retry_submitter.go:34-42 | with the shipped delays, factor and cap, sleeps can pass the cap if and only if seven attempts or more are configured |
| Reconciler.Post200Reconciler.SubmitOrder | internal/application/execution/post200_reconciler.go:46-87 | the reconciled answer is the one of the pipeline function: at most one query, no second submit |
| PipelineLaws.RecoveredIsFaithful | internal/application/execution/post200_reconciler.go:61-87 | a recovered receipt carries the original intent with the status and fills of the query |
| PipelineLaws.AtMostOnce | internal/application/execution/post200_reconciler.go:46-87 | over every fault schedule: the same request at most maxAttempts times (once for a limit below 1), each after a live context and, for a positive deadline, a clock within it; after a lost response no submit and at most one query; the venue ends with at most one order more; a buy or sell without a problem is exactly one order with the status and fills that the venue's words say |
| PipelineLaws.OkIffVenueConfirms | internal/application/execution/post200_reconciler.go:46-87 | a buy or sell comes back without a problem if and only if the last message of the run was answered legibly and the venue then has the order in a state it has a word for |
| PipelineLaws.NoSideNoMessage | internal/application/execution/binance_futures_testnet_adapter.go:76-82 | an intent without a side is accepted as it is, without a message, unless context or deadline stop it first |
| PipelineLaws.JobsAreAtMostOnce | internal/application/execution/client_order_id.go:19-23 | over any sequence of intents, repetitions included, no client order id has two orders and every new order is one of the requests |
| ProblemLaws.UnsentChangesNothing | internal/application/execution/post200_reconciler.go:46-87 | a run that sent no request leaves the venue's book as it was |
| ProblemLaws.RunsAlike | internal/application/execution/retry_submitter.go:133-222 | a retry loop that leaves no order of its id behind gives the same events and the same reply when the venue takes every request |
| ProblemLaws.DenialIsProof | internal/application/execution/post200_reconciler.go:46-87 | when the response was lost and the venue denied having the order, no schedule that looks the same to the caller leaves an order |
| ProblemLaws.DoubtIff | internal/application/execution/post200_reconciler.go:46-87 | for every schedule that ends in a problem: some schedule that differs only in which requests were taken, with the same events and reply, leaves the order at the venue if and only if it was there before, or a request was sent and the venue has not denied having it |
| ProblemLaws.ProblemMayHideAnOrder | internal/application/execution/retry_submitter.go:133-222 | under every policy and query fate there is a schedule under which a problem comes back and the venue holds the order |
| ReasonLaws.DetailsTellTheEnd | internal/application/execution/retry_submitter.go:133-266 | for every schedule the details of a problem tell how the run ended: halted exactly after a halt, deadline exceeded exactly after a late clock, exhausted exactly when attempts were used up or a context cut them off, each with the number of requests sent; retryable exactly if a transient failure ended it |
| ReasonLaws.UnresolvedSaysSo | internal/application/execution/post200_reconciler.go:46-87 | a problem says that reconciliation failed if and only if a lost response was queried; it then keeps the flag, names the order and is not retryable |
| RateLimiter.Limiter.constructor | internal/application/execution/rate_limiter.go:38-54 | a new limiter is full, with room for at least one token |
| RateLimiter.Limiter.SubmitOrder | internal/application/execution/rate_limiter.go:58-69 | a token is taken exactly when the caller is admitted |
| RateLimiter.Limiter.RefillTurn | internal/application/execution/rate_limiter.go:71-86 | a tick adds a token unless the bucket is full; the loop ends after Close |
| RateLimiter.TokensConserved | internal/application/execution/rate_limiter.go:38-86 | in every interleaving the tokens stay within the capacity, and initial tokens plus accepted refills are admissions plus tokens left |
| RateLimiter.AdmissionsAreLimited | internal/application/execution/rate_limiter.go:58-86 | any contiguous part of any run admits at most the capacity plus its ticks |
| RateLimiter.BurstIsExact | internal/application/execution/rate_limiter.go:58-69 | without ticks a bucket admits exactly as many as it has tokens |
| RateLimiter.NoRefillAfterLoopEnd | internal/application/execution/rate_limiter.go:71-91 | after the refill loop has ended, the tokens left are all that is ever admitted |
| RateLimiter.ClosedStaysClosed | internal/application/execution/rate_limiter.go:71-91 | a limiter is closed exactly from its first Close on, and its refill loop can end only then, and has ended exactly if that step was taken |
| Supervisor.WriterSupervisor.Start | cmd/writer/supervisor.go:120-153 | spawns one pair for each enabled family; fails exactly when there is none |
| Supervisor.WriterSupervisor.PoisonPipeline | cmd/writer/supervisor.go:267-276 | poisons the pair that is recorded, and forgets it |
| Supervisor.WriterSupervisor.HandlePipelineFailure | cmd/writer/supervisor.go:196-246 | new table, poisoned pairs and scheduled timer of a failure, in all four branches |
| Supervisor.WriterSupervisor.HandlePipelineRestart | cmd/writer/supervisor.go:249-264 | new table and pair of a restart message |
| Supervisor.WriterSupervisor.CalcBackoff | cmd/writer/supervisor.go:281-290 | the doubling loop is the capped power of two |
| SupervisorLaws.StartIsSafe | cmd/writer/supervisor.go:120-153 | the state after the start is safe |
| SupervisorLaws.StepIsSafe | cmd/writer/supervisor.go:196-264 | every event keeps safety (timer pending iff restarting, handles iff active, every pair recorded or poisoned, counters within bounds) and leaves other families alone |
| SupervisorLaws.RunsAreSafe | cmd/writer/supervisor.go:196-276 | safety over every run |
| SupervisorLaws.PendingMeansRestarting | cmd/writer/supervisor.go:249-264 | a timer is pending only for a family that is restarting and has no pair, which is why the handler need not look |
| SupervisorLaws.TimerIsSafe | cmd/writer/supervisor.go:249-264 | a timer makes its family active again with the same restart count and last error |
| SupervisorLaws.RestartBudget | cmd/writer/supervisor.go:196-290 | a family is spawned once and respawned at most five times, after 2, 4, 8, 16 and 30 seconds |
| SupervisorLaws.DegradedIsAbsorbing | cmd/writer/supervisor.go:196-246 | nothing that happens later changes a degraded family, not even a restart message that no timer sent |
| SupervisorLaws.FamiliesAreIndependent | cmd/writer/supervisor.go:196-276 | events of other families do not touch a family |
| SupervisorLaws.StrayRestartLeaks | cmd/writer/supervisor.go:249-264 | without the invariant the handler loses a running pair |
| Inserter.InserterActor.Receive | cmd/writer/inserter.go:66-110 | new buffer, counters and actions for every message and every outcome of the inserts, as the message function defines |
| Inserter.InserterActor.FlushBuffer | cmd/writer/inserter.go:114-192 | the retry loop tries the whole batch with capped backoff, then flushes or drops it |
| Inserter.InserterActor.EnforceMaxPending | cmd/writer/inserter.go:197-212 | the oldest rows above the limit are evicted and counted |
| Inserter.TriesAreBounded | cmd/writer/inserter.go:123-172 | a flush tries the whole batch at most maxRetries times, at least once, and stops at the first success |
| Inserter.HandleKeeps | cmd/writer/inserter.go:66-110 | one message conserves rows, counters and the bounds of the buffer |
| Inserter.RowsConserved | cmd/writer/inserter.go:84-212 | for every message sequence and every outcome oracle: rows received are, in order, those flushed, dropped and evicted, followed by the buffer, and the counters tell them |
| Inserter.RowsConservedFromStart | cmd/writer/inserter.go:57-212 | the same from the start of the actor |
| Inserter.NoEviction | cmd/writer/inserter.go:197-212 | with room for a batch no row is ever evicted |
| Inserter.EvictionHappens | cmd/writer/inserter.go:84-100 | with less room, filling the buffer evicts a row before any flush |
| Inserter.EvictionIffLimitBelowBatch | cmd/writer/inserter.go:84-212 | evictions are possible if and only if maxPending is below max(1, batchSize) |
| InserterLaws.StopAndTickDrain | cmd/writer/inserter.go:84-101 | for every message sequence and oracle: after a final stop or tick the buffer is empty, and every row received was flushed, dropped or evicted, in order |
| InserterLaws.AttemptedExactly | cmd/writer/inserter.go:84-192 | in every state: after a row inserts are attempted if and only if the rows that eviction leaves have reached the batch size, after a stop or tick always, never for no rows; then the whole batch leaves the buffer, as written exactly when one attempt succeeded |
| InserterLaws.WrittenIsInserted | cmd/writer/inserter.go:123-192 | over every run the rows counted as written are those of the inserts that succeeded, once each and in order |
| InserterLaws.WaitsDouble | cmd/writer/inserter.go:122-172 | attempts alternate with waits: the first as configured, each later one the double of the one before, capped at thirty seconds |
| Windows.WindowContains | internal/application/derive/sampler.go:47-53 | a window contains the instant it was computed for if and only if the instant is not before 1970 or lies in a second a window starts with |
| Windows.WindowsAreOrdered | internal/application/derive/sampler.go:47-53 | windows are aligned, keep the order of instants, and different ones do not overlap in whole seconds |
| Windows.SameWindowIffBetween | internal/application/derive/sampler.go:47-53 | from 1970 on two instants have the same window if and only if one lies between opening and closing of the other's; for timeframes with a fraction of a second, to that much before the closing |
| Windows.NeighboursOverlap | internal/application/derive/sampler.go:47-53 | a window closes one timeframe after it opens; it reaches into a later one by at most the fraction of a second of the timeframe, by all of it exactly if the two are neighbours |
| Windows.StreamFindsRuns | internal/application/derive/sampler.go:58-97 | finalizing on the next trade finds the maximal same-window runs of every stream |
| Windows.MaximalRunsAreUnique | internal/application/derive/sampler.go:58-97 | a stream has one cut into maximal runs |
| Windows.StreamingEqualsBatch | internal/application/derive/sampler.go:58-97 | what a stream finalizes are its maximal runs but the last, which is open |
| Windows.OrderedRunsAreWindows | internal/application/derive/sampler.go:47-97 | for timestamps from 1970 on that never go back, the runs are in strictly increasing, disjoint windows, each of which contains its trades |
| Windows.CountsConserved | internal/application/derive/sampler.go:58-97 | each trade of a stream is in exactly one closed run or in the open one: the counts add up, and no closed run is empty |
| Candle.CandleSampler.AddTrade | internal/application/derive/sampler.go:58-97 | the fields are the candle of the open run, and the finalized candles those of the closed runs of the whole stream |
| Candle.HighAndLow | internal/application/derive/sampler.go:83-89 | high and low are the greatest and least price of the window, and attained |
| Candle.CandleGrows | internal/application/derive/sampler.go:71-94 | how the candle of a run changes with one more trade |
| Candle.NothingLost | internal/application/derive/sampler.go:58-122 | over every stream the trade counts and volumes of the finalized candles, with the open run, are those of the stream |
| IntervalLaws.RunsAreIntervals | internal/application/derive/sampler.go:47-97 | in an ordered stream each run is made of exactly the trades between opening and closing of its window |
| IntervalLaws.CandlesAreOfTheirIntervals | internal/application/derive/sampler.go:47-122 | each finalized candle of an ordered stream sums up exactly the trades between its opening and its closing: first and last price, attained extremes, notional and count |
| IntervalLaws.CandlesDoNotOverlap | internal/application/derive/sampler.go:47-122 | of two finalized candles the earlier closes by the time the later opens, but for the fraction of a second of the timeframe; that late exactly when their windows are neighbours |
| Volume.VolumeSampler.AddTrade | internal/application/derive/volume_sampler.go:46-79 | the accumulators are the sums over the open run, and the finalized records those of the closed runs |
| Volume.SidesAddUp | internal/application/derive/volume_sampler.go:85-106 | buy plus sell notional is the notional of the window |
| Volume.VwapBetweenLowAndHigh | internal/application/derive/volume_sampler.go:85-106 | low of the candle <= VWAP <= high, for non-negative quantities with a positive sum |
| IntervalLaws.RecordsAreOfTheirIntervals | internal/application/derive/volume_sampler.go:46-106 | each finalized volume record of an ordered stream is made of exactly the trades of its interval: buy volume from those with the buyer as maker, sell volume from the others, VWAP times quantity the total |
| TradeBurst.TradeBurstSampler.AddTrade | internal/application/derive/trade_burst_sampler.go:58-91 | the state is that of the open run with the count of the run closed before as its baseline |
| TradeBurst.FlaggedIffDoubled | internal/application/derive/trade_burst_sampler.go:98-116 | a window is flagged exactly when it has more than twice the trades of the window emitted before it, the first never; buy and sell volume are the notional of its trades with the buyer as maker and of the others |
| Levels.BucketContains | internal/domain/insights/binning.go:23-48 | the bucket of a price is the interval of one width that starts at its level and contains it |
| Levels.BucketsAreAGrid | internal/domain/insights/binning.go:23-48 | levels are whole multiples of the width, so buckets do not overlap |
| Levels.OverloadIsMonotone | internal/domain/insights/overload.go:37-68 | pressure does not fall while levels are added; a new level is refused exactly at the cap; the stages change at one half, four fifths and all of it |
| Levels.AdmittedAreFirst | internal/application/derive/volume_profile_sampler.go:91-105 | the admitted levels are the first distinct levels of the window, as many as the cap allows, each once |
| Levels.CountedIffAmongFirst | internal/application/derive/volume_profile_sampler.go:91-116 | a trade is counted if and only if its price is well formed and its level is among the first cap distinct levels of its window |
| Levels.CountedLevels | internal/application/derive/volume_profile_sampler.go:91-116 | the counted trades have admitted levels, and every admitted level has a counted trade |
| VolumeProfile.VolumeProfileSampler.constructor | internal/application/derive/volume_profile_sampler.go:43-53 | a cap that is not positive becomes 512 |
| VolumeProfile.VolumeProfileSampler.AddTrade | internal/application/derive/volume_profile_sampler.go:66-86 | buckets and count are those of the open run, and the finalized profiles those of the closed runs; a malformed price still opens and closes windows |
| VolumeProfile.VolumeProfileSampler.AdmitTrade | internal/application/derive/volume_profile_sampler.go:91-116 | binning one trade turns the buckets of a run into those of the run with that trade |
| VolumeProfile.LevelCount | internal/application/derive/volume_profile_sampler.go:97-105 | one bucket for each admitted level, never more than the cap |
| VolumeProfile.VolumeConserved | internal/application/derive/volume_profile_sampler.go:107-162 | over any listing of its buckets, buy plus sell volume of a profile is the notional of exactly the counted trades, and the trade count is their number; the last stage of pressure is reported exactly when the buckets are used up |
| VolumeProfile.BucketMeaning | internal/application/derive/volume_profile_sampler.go:91-116 | a level has a bucket if and only if it is among the first cap distinct levels; the bucket holds the notional of its trades with the buyer as maker and of the others |
| Tpo.TpoSampler.constructor | internal/application/derive/tpo_sampler.go:49-74 | the period width is the corrected one |
| Tpo.WidthFitsWindow | internal/application/derive/tpo_sampler.go:49-87 | the corrected width is positive and fits a window into 24 periods, for every timeframe and request |
| Tpo.WidthIsLeast | internal/application/derive/tpo_sampler.go:49-87 | it is the least width that fits and is not below the requested one, or a twelfth of the timeframe if none is |
| Tpo.ElapsedBelowWindow | internal/application/derive/tpo_sampler.go:100-113 | the time since the opening of its window is below the window's length for every instant, and negative exactly outside the window |
| Tpo.ClampNeverMerges | internal/application/derive/tpo_sampler.go:100-113 | for every timeframe and requested width, an instant of its window has the index of the one period that contains it, below 24 without clamping; only instants before their window (before 1970) are clamped, to period 0 |
| Tpo.TpoSampler.AddTrade | internal/application/derive/tpo_sampler.go:117-138 | the state is the batch profile of the open run, coherent after every trade, and the finalized profiles are those of the closed runs |
| Tpo.TpoSampler.AdmitTrade | internal/application/derive/tpo_sampler.go:143-173 | marking one trade turns levels, periods and count of a run into those of the run with that trade |
| Tpo.MarksMeaning | internal/application/derive/tpo_sampler.go:143-159 | a level carries a period exactly when a counted trade of that level came in it |
| Tpo.RangeMeaning | internal/application/derive/tpo_sampler.go:161-171 | the range of a period is there exactly when it has a counted trade, bounds their prices, and is attained at both ends |
| Tpo.ProfilesAreCoherent | internal/application/derive/tpo_sampler.go:143-173 | the periods are exactly the union of those marked on levels, high and low of each period fall in levels that carry it, low <= high, levels within the cap |
| Tpo.ProfileTells | internal/application/derive/tpo_sampler.go:185-260 | a profile spans one timeframe, has a level for each of the first cap distinct ones and counts their trades; the last stage of pressure is reported exactly when the levels are used up |
| Fusion.CrossVenueFusion.AddTrade | internal/application/derive/cross_venue_fusion.go:61-83 | after every trade each instrument has the window of its own open run and the emissions are those of the whole stream |
| Fusion.NonInterference | internal/application/derive/cross_venue_fusion.go:61-83 | on any interleaved stream the snapshots emitted for one instrument are those its substream alone makes the fusion emit |
| Fusion.EmissionsAreBatch | internal/application/derive/cross_venue_fusion.go:61-83 | for one instrument the emissions are the snapshots of its maximal closed runs |
| Fusion.WindowGrows | internal/application/derive/cross_venue_fusion.go:85-105 | one trade changes the row of its venue and the count, and no other row |
| Fusion.RowMeaning | internal/application/derive/cross_venue_fusion.go:85-105 | the row of a venue has the count and notional of its trades in the window, its newest price, and extremes that bound its prices and are attained |
| Fusion.SnapshotTells | internal/application/derive/cross_venue_fusion.go:107-141 | a snapshot has a row for exactly the venues with trades, counts all trades of the window and spans one timeframe |
| Fusion.InterleavingIsIrrelevant | internal/application/derive/cross_venue_fusion.go:85-141 | two runs of a window with the same substream for each venue give the same snapshot |
| Fusion.CountsAddUp | internal/application/derive/cross_venue_fusion.go:85-141 | over any listing of the venues their trade counts add up to the window's |
| Bollinger.BollingerSampler.constructor | internal/application/signal/bollinger_sampler.go:30-38 | period 20, k 2.0 |
| Bollinger.BollingerSampler.AddClose | internal/application/signal/bollinger_sampler.go:42-89 | the state is always the last min(n, period) parseable prices; a signal comes from price number `period` on and describes exactly that window |
| Bollinger.BollingerSampler.ComputeSMA | internal/application/signal/bollinger_sampler.go:91-97 | the loop computes the mean |
| Bollinger.BollingerSampler.ComputeStdDev | internal/application/signal/bollinger_sampler.go:99-106 | the loop computes the root of the population variance |
| Bollinger.CauchySchwarz | internal/application/signal/bollinger_sampler.go:99-106 | the squared sum of deviations is at most their number times the sum of their squares |
| Bollinger.Samuelson | internal/application/signal/bollinger_sampler.go:91-106 | (price - SMA)^2 <= (period - 1) * variance for the newest price of every window |
| Bollinger.SamuelsonIsTight | internal/application/signal/bollinger_sampler.go:91-106 | equality for a window that is flat but for its newest price |
| Bollinger.CollapsedIffFlat | internal/application/signal/bollinger_sampler.go:60-70 | the bands collapse if and only if all prices of the window are equal, and then the price is where the bands are |
| Bollinger.PercentBPlaces | internal/application/signal/bollinger_sampler.go:60-70 | %B is above 1 exactly above the upper band, below 0 exactly below the lower one, and one half exactly at the mean |
| Bollinger.PercentBIsBounded | internal/application/signal/bollinger_sampler.go:60-70 | 4 k^2 (%B - 1/2)^2 <= period - 1 for every emission, collapsed bands included |
| Bollinger.PercentBBoundIsAttained | internal/application/signal/bollinger_sampler.go:60-70 | the bound is attained |
| Bollinger.ShippedBound | internal/application/signal/bollinger_sampler.go:30-89 | (%B - 1/2)^2 <= 19/16 for every emission of the shipped sampler |
| Rsi.RsiSampler.AddClose | internal/application/signal/rsi_sampler.go:45-91 | the smoothed state is the recursive average over all parseable prices ever seen; a signal from price number period + 1 on |
| Rsi.RsiSampler.SumMoves | internal/application/signal/rsi_sampler.go:58-66 | the warm-up loop sums rises and falls |
| Rsi.AverageBounds | internal/application/signal/rsi_sampler.go:67-89 | an average is never negative, and zero exactly when no move in its direction was ever made |
| Rsi.WilderWeights | internal/application/signal/rsi_sampler.go:67-89 | n times the next average is n - 1 times the last one plus the move; the first average is that of the first n moves |
| Rsi.AveragesFade | internal/application/signal/rsi_sampler.go:72-89 | while the price stands still an average fades by the factor (n - 1) / n at each price |
| Rsi.IndexRange | internal/application/signal/rsi_sampler.go:111-117 | the index is in [0, 100], 100 exactly without falls, 0 exactly with falls and no rises |
| Rsi.Share | internal/application/signal/rsi_sampler.go:111-117 | the index is the share of the average rise in the sum of both averages, in per cent |
| Rsi.RsiRange | internal/application/signal/rsi_sampler.go:45-117 | for every stream the same in terms of its prices |
| Rsi.AffineInvariance | internal/application/signal/rsi_sampler.go:45-117 | unchanged by p -> a p + b with a > 0 |
| Rsi.Reflection | internal/application/signal/rsi_sampler.go:45-117 | p -> c - p turns RSI into 100 - RSI if and only if the prices were not all the same; a flat stream has 100 and so has its reflection |
| Rsi.MonotoneInLastPrice | internal/application/signal/rsi_sampler.go:72-117 | a higher last price never lowers the index, from the first signal on |
| Ema.Sma | internal/application/signal/ema_crossover_sampler.go:118-127 | the loop computes the mean, 0 for no values |
| Ema.EmaCrossoverSampler.AddClose | internal/application/signal/ema_crossover_sampler.go:51-80 | both averages are the recursive ones over all parseable prices; the first signal comes with the 21st, then one with each |
| Ema.EmaWithin | internal/application/signal/ema_crossover_sampler.go:57-80 | an average stays within all bounds of the prices seen |
| Ema.SpreadWithin | internal/application/signal/ema_crossover_sampler.go:72-102 | two averages are no further apart than the prices |
| Ema.EmaAffine | internal/application/signal/ema_crossover_sampler.go:57-80 | an average follows every change of unit and origin, and every reflection |
| Ema.CrossoverMirrors | internal/application/signal/ema_crossover_sampler.go:106-115 | reflected prices cross over the other way, shifted ones the same way |
| TrendLaws.RisingAverages | internal/application/signal/ema_crossover_sampler.go:51-80 | for prices that never fall the faster average is at or above the slower one and at or below the last price, for all periods |
| TrendLaws.TrendsAreNotReversed | internal/application/signal/ema_crossover_sampler.go:51-115 | prices that never fall are never called bearish, prices that never rise never bullish |
| TrendLaws.JumpCrosses | internal/application/signal/ema_crossover_sampler.go:51-115 | after prices that were all the same a jump d moves the averages by d/5 and d/11, and is called bullish or bearish exactly when their distance reaches the tolerance |
| Macd.MacdSampler.AddClose | internal/application/signal/macd_sampler.go:66-108 | averages, MACD line and signal line are the recursive ones over all parseable prices; the first signal comes with the 34th, then one with each |
| Macd.MacdSampler.AccumulateSignalEMA | internal/application/signal/macd_sampler.go:112-125 | collects the lines until the ninth and seeds the signal line with their mean |
| Macd.MacdWithin | internal/application/signal/macd_sampler.go:84-107 | abs(MACD line) and abs(signal line) <= max - min, abs(histogram) <= 2 (max - min) |
| Macd.HistogramIsLinear | internal/application/signal/macd_sampler.go:66-125 | the histogram scales with the unit of the prices, ignores their origin and changes sign with a reflection |
| TrendLaws.MacdFollowsTrend | internal/application/signal/macd_sampler.go:66-108 | the MACD line is not negative for prices that never fall and not positive for prices that never rise |
| TrendLaws.JumpMovesMacd | internal/application/signal/macd_sampler.go:66-125 | after prices that were all the same a jump d makes the line d (2/13 - 2/27), the signal line a fifth of that and the histogram the rest |
| Decimals.NormalizedLabel | internal/application/strategy/severity_scaling.go:57-63 | a lower-case label without blanks is looked up as it is |
| Decimals.LabelsAreRecognised | internal/application/strategy/severity_scaling.go:57-63 | white space around a label and the case of its letters do not matter |
| Decision.ConfidenceIsDistance | internal/application/decision/rsi_oversold_evaluator.go:53-76 | the confidence is 1 at an RSI of 0 or less and of 100 or more, 1/2 at the threshold, and linear between, for every rounding |
| Strategy.ScalingIsMonotone | internal/application/strategy/severity_scaling.go:22-40 | the scaled confidence is in [0, 1] and grows with confidence and factor, for every monotone rounding |
| Risk.Dispositions | internal/application/risk/position_exposure_evaluator.go:108-162 | for all limits: rejected iff the confidence is not positive, modified iff the request exceeds the portfolio limit, and the size is the smaller of the two; the check against the position limit never decides |
| Risk.SizeIsMonotone | internal/application/risk/position_exposure_evaluator.go:132-162 | for all limits, size and risk confidence grow with confidence and severity factor; the size exceeds neither limit and the risk confidence not the strategy's own |
| OrderChain.Factors | internal/application/risk/risk_scaling.go:34-38 | the severity factors in terms of the RSI |
| OrderChain.DecisionIsMonotone | internal/application/decision/rsi_oversold_evaluator.go:53-117 | below the threshold the confidence is in [1/2, 1] and does not fall with the RSI |
| OrderChain.StrategyIsMonotone | internal/application/strategy/mean_reversion_entry_resolver.go:86-105 | the entry is long with confidence at least 0.4, not less for a lower RSI |
| OrderChain.EntriesTaken | internal/application/strategy/mean_reversion_entry_resolver.go:75-162 | entry, risk and order together, for all outcomes, confidences and severities: the three known outcomes are answered, a trigger only with a confidence, which its severity scales; a buy exactly for a trigger with positive confidence, never a sell |
| OrderChain.RiskIsMonotone | internal/application/risk/position_exposure_evaluator.go:132-149 | the position is approved with a size between 0.0064 and 0.023 and a risk confidence of at most 0.9, neither smaller for a lower RSI |
| OrderChain.PositionsTaken | internal/application/execution/paper_order_evaluator.go:57-78 | risk and order together, for all limits and texts: which inputs are answered; a buy exactly for a long strategy with positive confidence, a sell exactly for a short one; the quantity the smallest of the share asked for, the severity's limit and the portfolio limit; the risk confidence of each strategy type |
| OrderChain.ClosedForm | internal/application/execution/paper_order_evaluator.go:46-108 | for every RSI and rounding the four stages give the quantity of one directly stated expression: limit times share times confidence, with one rounding for each stage |
| OrderChain.BuysIffOversold | internal/application/execution/paper_order_evaluator.go:57-78 | for every RSI: below 30 a buy between 0.0064 and 0.023, from 30 on side none with quantity 0; no sell and no modified disposition |
| OrderChain.LowerRsiNeverShrinksOrder | internal/application/execution/paper_order_evaluator.go:46-108 | end to end, for all RSI values and every monotone rounding between the stages, a lower RSI never yields a smaller order and none exceeds 0.023 |
| OrderChain.LargestOrder | internal/application/risk/risk_scaling.go:34-38 | an RSI of 0 gets 0.023 |
| OrderChain.LowerPriceNeverShrinksOrder | internal/application/signal/rsi_sampler.go:45-117 | from prices to orders, from the first signal on: lowering the last price never makes the order smaller |
| OrderChain.ExtremeStreams | internal/application/decision/rsi_oversold_evaluator.go:42-103 | prices that only fell get the largest order, prices that never fell get none |
| Golden.NormalizeForComparison | codegen/compare.go:74-93 | the loop computes the normal form |
| Golden.CompareWithGolden | codegen/compare.go:27-67 | passes iff the normal forms are equal; the differences are listed by line, both texts padded |
| Golden.LinesOfJoin | codegen/compare.go:36-37 | splitting undoes joining for lines without line feeds |
| Golden.NormalFormIsNormal | codegen/compare.go:74-93 | no line of a normal form is blank, untrimmed, tabbed or holds a comment |
| Golden.Idempotent | codegen/compare.go:74-93 | normalising twice is normalising once |
| Golden.CommentLinesAreInvisible | codegen/compare.go:77-90 | a line of blanks and a comment can be put in anywhere without changing the normal form |
| Golden.TrailingCommentsAreInvisible | codegen/compare.go:77-90 | a comment after code can be put in anywhere without changing the normal form, and of the code without tabs the trimmed text is kept |
| Golden.DiffsAreListed | codegen/compare.go:46-61 | the differences are listed in the order of the lines, each with its number and both sides, and none left out |
| Golden.PassesIffSameNormalForm | codegen/compare.go:33-66 | no difference is found if and only if the normal forms are equal, although missing lines are padded with the empty line |
| Golden.PassingIsAnEquivalence | codegen/compare.go:33-66 | passing is reflexive, symmetric and transitive, and a text passes against its own normal form |
| Golden.PaddingAloneWouldNotDo | codegen/compare.go:46-61 | without normalisation the padding lets texts of different lengths pass |

## Left out

- HTTP, request signing, NATS, ClickHouse connections, file reads, logging, health counters for display and the spawning of actors: only the outcomes they can have appear.
- Status and Validate of the migration runner: they report and change nothing.
- Migrations that are not create-if-absent, and two runners at once: the runner has no lock and its comment asks for idempotent statements.
- The query timeout of the reconciler and the submit timeout of the adapter: they appear as requests that fail.
- Adapters for other venues, credentials, dry-run and paper adapters, the segment router, the safety gate and the staleness guard.
- The distinctness of client order ids: two intents with the same deduplication key, or two keys with the same hash, are one order to the venue.
- RateLimiter: a waiting caller takes no step, so fairness and waiting times are not modelled.
- Supervisor: timers fire once and in any order; their delays are recorded but no clock runs.
- Inserter: the flush timer, the insert timeout and the duration counter are not modelled; rows are of any type.
- Inserter.InserterActor.Receive: does not model a negative pending limit, with which the source slices out of range.
- A timeframe below one second, for which the source divides by zero.
- Windows: overflow of Go's 64-bit times.
- Trades with malformed prices in the candle, volume, burst and fusion samplers, which do not expect them; validation upstream only asks that the text is not empty (internal/domain/observation/trade.go:61-66). The two profiles do model them.
- VolumeProfile.VolumeProfileSampler.AdmitTrade: does not model a price text that one parser takes and another refuses, such as one with blanks around it: the binning trims it (internal/domain/insights/binning.go:24) and the parse for the notional does not (internal/application/derive/volume_profile_sampler.go:108), so the source multiplies by the result of a failed parse. A trade has one flag for being a number here.
- Tpo.TpoSampler.AdmitTrade: the same, where the comparison does not trim (internal/application/derive/tpo_sampler.go:274-284) and such a price does not widen the range of its period.
- The text of price levels: a level is its number, so widths in exponent notation, whose levels the source formats with too few decimals, are not captured.
- The order in which snapshots list levels, periods and venues, and what is derived from these lists (point of control, value area, initial balance, price range, consolidated spread, dominant venue): snapshots hold maps here, and the laws hold for every listing.
- Fusion: windows and accumulators are values in the map, where the source reaches them through pointers.
- IEEE rounding, the precision of big.Float, NaN and infinities in parsed prices: arithmetic is exact.
- Ema.CrossoverMirrors: speaks of shifts and reflections only, because the fixed tolerance of 1e-8 makes the direction depend on the unit of the prices.
- Rationale texts, metadata, and the target and stop offsets with their parameters: no later stage of the chain reads them.
- Decimals.Normalized: lower-casing of letters outside ASCII.
- ATR and rolling VWAP samplers, the drawdown evaluator, the other resolvers and evaluators: they have the shapes of those modelled.
- Golden: the reading of the snapshot file and the report text.
- Configuration, analytics, triage, readers, query builders, mappers and gateways.
