# A verified model of the scraper's completion protocol and its data paths

The project models the parts of a Google Maps scraper where a mistake loses results, leaves a
rented machine running or corrupts a file, and proves what those parts promise.

**The completion protocol** (`Exiter`, `Deduper`, `ScrapeJobs`, `CentralWriter`, `ScrapePipeline`,
`ScrapeWork`, `ScrapeRun`). A River worker registers one job with the central writer, submits a seed,
starts an exit monitor and waits for a done signal, a timeout or a cancellation. `ScrapePipeline` is the
pipeline under one monitor as a labelled step system: each section under the monitor's mutex is one step,
and the send or cancel call that a goroutine owes after unlocking is a later step of its own. `ScrapeWork`
adds the writer's slot, the one-slot result channel, the save call and the worker's `Work`, for any number
of jobs one after the other; pipelines and monitors of earlier jobs go on while later jobs run. One
inductive invariant is carried over all runs. `Exiter`, `ScrapeJobs`, `CentralWriter` and `Deduper` hold the
objects themselves as classes, each method proved against the functions that the step systems use, and
`ScrapeRun` exhibits a run that ends well, so the statements about all runs are not about none.

**The cloud-worker lifecycle** (`WorkerLifecycle`). One row, one machine, a provisioning job, any number of
delete requests and health checks; every SQL statement is one atomic step and its WHERE clause is the only
synchronisation.

**Self-contained cores.** The request limiter with its pruned map (`RateLimiter`), greedy wrapping
(`TextWrap`), grid generation and its estimate over the reals (`Grid`), seed jobs and their ids
(`SeedJobs`), the paged export and its escapers (`ExportStream`, `Escaping`), the Server-Sent-Events
parser (`ServerSentEvents`), statistics and rounding (`Statistics`), the best and worst yields
(`DashboardYield`) and the FIFO bridge with close (`Provider`). `Wrappers`, `Folds`, `Tables` and `Decimal`
hold shared vocabulary.

`dafny verify dfyconfig.toml` checks the whole project.

## Assumptions

- The scraper library calls `Process` once per job and hands each usable result to the writer once; a child
  reaches it only when its parent's `Process` has returned.
- Each id is registered once. A retry of a River job reuses its id, so nothing is stated across attempts.
- Jobs have names, as their validation demands (web/job.go:51-53).
- Provider and SQL calls of the worker lifecycle succeed, except for the failures listed in that file's header.
- The result set of an export is stable while it is exported.
- Hash functions, JSON decoding and encoding, rune widths, the cosine of the middle latitude and the square
  root are parameters; what is proved holds for all of them, or states what it needs.

## Where the code and its comments differ

- `EstimateCellCount` is documented as the number of cells that would be generated. The code counts a last
  partial cell on each axis that generation may skip; `Grid.EstimateIsExactIff` says exactly when they agree.
- The yield comparison is documented as using the numbers that the operator sees. The code compares the new
  job's exact share with the stored, printed one; the result is still right (`DashboardYield.BestAndWorstAreExtreme`).
- A finalising update that hits no row is taken for a deletion during provisioning. A health check that sets the row
  active first has the same effect, and the live machine is destroyed; `WorkerLifecycle.CleansUpExactly` and
  `WorkerLifecycle.HealedWorkerIsDestroyedExactly` say exactly when.
- A delete request whose handler read the row before the machine's id was stored, and marked it after
  provisioning had finished, deletes the row and leaves the machine (`WorkerLifecycle.OvertakenHandlerLeavesMachine`).

## Model

| member | source | states |
|---|---|---|
| `Exiter.ExitMonitor.constructor` | exiter/exiter.go:35-64 | a fresh monitor has zero counters, no token, no cancel function, and a place limit only if a positive one was asked for |
| `Exiter.ExitMonitor.SetSeedCount` | exiter/exiter.go:67-72 | only the seed count changes |
| `Exiter.ExitMonitor.SetCancelFunc` | exiter/exiter.go:74-82 | an uninterrupted call is the section that the step system uses, then its action: a limit that was reached before makes it cancel at once |
| `Exiter.ExitMonitor.IncrSeedCompleted` | exiter/exiter.go:84-96 | is the seed section followed by its action: a token if everything is complete |
| `Exiter.ExitMonitor.IncrPlacesFound` | exiter/exiter.go:98-103 | only the found count changes; it never signals |
| `Exiter.ExitMonitor.IncrPlacesCompleted` | exiter/exiter.go:105-127 | is the completion section followed by its action: a reached limit with a cancel function cancels instead of signalling |
| `Exiter.ExitMonitor.Run` | exiter/exiter.go:150-162 | consumes the token and calls the cancel function if there is one; does nothing on a done context |
| `Deduper.Hashmap.AddIfNotExists` | deduper/hashmap.go:16-35 | answers true exactly if the key's hash was new, and afterwards it is in the set and nothing else has changed |
| `Deduper.EveryHistoryIsLinearizable` | deduper/hashmap.go:16-35 | for every interleaving of calls split at the read lock and the write lock there is an order of atomic set inserts that gives every call its answer and respects real time |
| `Deduper.ExactlyOneCallWins` | deduper/hashmap.go:16-42 | of all finished calls with one hash value, exactly one was answered true |
| `ScrapeJobs.PlaceJob.Process` | gmaps/place.go:74-154 | result, child and completion count of every branch: a failure is counted here, a result is counted here unless the writer counts, a hand-off is not counted and gives up the job's own result |
| `ScrapeJobs.EmailExtractJob.Process` | gmaps/emailjob.go:65-99 | always returns the entry, with addresses when a page was parsed, and counts once unless the writer counts |
| `ScrapeJobs.ProcessGmapJob` | gmaps/job.go:119-190 | one child per new link, found places reported before the seed is, a failed feed completes only the seed |
| `ScrapeJobs.FeedChildren` | gmaps/job.go:145-180 | the children are exactly the links that the deduper lets through, in order, and the deduper has seen all of them afterwards |
| `ScrapeJobs.FreshLinksAreUnique` | gmaps/job.go:145-180 | no two children of a feed share a hash, none repeats an earlier one, and no unseen hash is dropped |
| `ScrapeJobs.KeptExactlyIfFresh` | gmaps/job.go:162-180 | the kept links are, in order, exactly the non-empty ones whose hash is neither seen nor that of an earlier link |
| `ScrapeJobs.ProcessSearchJob` | gmaps/searchjob.go:84-133 | in fast mode the batch is found, then the seed completed, then the batch completed unless the writer counts; failures complete only the seed |
| `CentralWriter.AddAllAppends` | scraper/centralwriter.go:196-210 | a batch is buffered whole and in order behind what is there, or dropped whole if another job is tracked |
| `CentralWriter.Writer.RegisterJob` | scraper/centralwriter.go:59-75 | the slot tracks the new job with no entries and a fresh channel with room |
| `CentralWriter.Completion.Send` | scraper/centralwriter.go:159-159 | a send that requires the slot to be empty, as it would block otherwise, and fills it |
| `CentralWriter.Writer.AddResult` | scraper/centralwriter.go:78-87 | appends the entry exactly if its job is the tracked one |
| `CentralWriter.Writer.Flush` | scraper/centralwriter.go:128-168 | a flush of the tracked job saves its entries once, answers once on an empty channel, notifies only after a successful save of rows and frees the slot; any other flush changes nothing |
| `CentralWriter.Writer.Discard` | scraper/centralwriter.go:100-107 | frees the slot exactly if it tracks this job, without saving or answering |
| `CentralWriter.Writer.TrackedJobs` | scraper/centralwriter.go:110-119 | one job or none is tracked |
| `CentralWriter.Writer.ProcessResult` | scraper/centralwriter.go:187-213 | offers every row of a result to the tracked job under the right id, in order, and only then reports the places of the result completed; rows of a job that is not tracked are dropped and counted all the same |
| `CentralWriter.Writer.AddBatch` | scraper/centralwriter.go:196-210 | the rows of a batch are offered in order, each under the carrier's id |
| `CentralWriter.Writer.MarkCompleted` | scraper/centralwriter.go:215-234 | counts only for jobs whose completion the writer manages, and only a positive number |
| `ScrapePipeline.DoneMeansAllComplete` | exiter/exiter.go:84-127 | the monitor's comparison of its counters holds exactly when every seed is counted and every found place has been reported completed |
| `ScrapePipeline.StepKeepsInv` | exiter/exiter.go:67-162 | every step of seeds, places, email jobs, writer, monitor and pending actions keeps the invariant that ties counters, signal and limit to the pipeline |
| `ScrapePipeline.SignalIsNeverEarly` | exiter/exiter.go:84-127 | in every run a done signal in any form (owed, pending, taken) exists only when all seeds and all found places have completed, and that cannot be undone later |
| `ScrapePipeline.SignalIsNeverLost` | exiter/exiter.go:84-162 | without a place limit the signal exists exactly when there was a seed and all is complete; with one, the alternative is that cancelling is under way |
| `ScrapePipeline.LimitCancels` | exiter/exiter.go:74-82 | once the limit is reached and a cancel function is set, in either order, cancel has been called or is about to be; and it is never called for another reason than the limit or completion |
| `ScrapePipeline.PlacesAreCountedOnce` | gmaps/place.go:81-153 | every found place is reported completed at most once, and exactly once when its path has ended, on every path and under both counting disciplines |
| `ScrapePipeline.CompleteMeansBuffered` | scraper/centralwriter.go:187-234 | when the writer counts and all is complete, the buffered rows are exactly the entries that the scraping produced, those of a batch under the job's id, one for each found place that did not fail |
| `ScrapePipeline.HarvestIsRight` | gmaps/place.go:106-153 | what each unit of a pipeline has produced is determined by the responses in the run's labels: the completed entry of a parsed place, with the addresses of its email page, and the batches as they came |
| `ScrapeWork.StepKeepsInv` | rqueue/rqueue.go:144-335 | every step of every job, of late pipelines and of the worker keeps the protocol's invariant |
| `ScrapeWork.SlotIsFreeBetweenJobs` | rqueue/rqueue.go:144-335 | on every return path the slot is free, so the next registration never overwrites a tracked job |
| `ScrapeWork.FlushedAtMostOnce` | scraper/centralwriter.go:128-168 | under every race of done signal, timeout and cancellation a registration is saved at most once and answered at most once, the send never finds a full channel, and the save holds this job's own entries |
| `ScrapeWork.SuccessMeansSaved` | rqueue/rqueue.go:215-351 | `Work` returns nil exactly if the one save succeeded and its result was received either before a timeout or cancellation, or after a timeout with at least one row; once it has returned the job has been flushed |
| `ScrapeWork.WorkCanReturn` | rqueue/rqueue.go:215-351 | in every reachable state a busy `Work` has a continuation in which it receives its one result and returns, without a wait running out |
| `ScrapeWork.NothingIsLost` | scraper/centralwriter.go:128-234 | a flush caused by the done signal saves exactly the harvest of the run: the entries that the job's own responses yield, unchanged but for the job's id on a batch, as many as places found minus places whose processing failed |
| `ScrapeWork.PipeHoldsItsHarvest` | gmaps/emailjob.go:65-99 | in every run of the whole system each registration's pipeline has produced what the run's labels for that registration yield, and nothing of another job |
| `ScrapeWork.CompletionReachesTheWriter` | exiter/exiter.go:150-162 | once all is complete the signal is owed, pending or with the monitor's goroutine, or the job has been flushed |
| `ScrapeRun.APlaceCanBeSaved` | rqueue/rqueue.go:144-335 | for every parsed place there is a run that saves it as the job's one entry and returns nil |
| `WorkerLifecycle.NothingRestoresProvisioning` | rqueue/worker_jobs.go:211-267 | no statement of any participant sets the status back to provisioning |
| `WorkerLifecycle.NoOrphanMachine` | rqueue/worker_jobs.go:252-267 | if provisioning went through its finalising update and a delete job completed whose request marked the row while the id it had read was current, no machine is left |
| `WorkerLifecycle.AtomicHandlersLeaveNoOrphan` | admin/handlers_workers.go:438-488 | with the handler's read and mark taken as one step, a completed delete job and a finalised provisioning leave no machine, in every run |
| `WorkerLifecycle.ActionsAreRuns` | admin/handlers_workers.go:438-488 | runs with atomic handlers are runs of the finer system |
| `WorkerLifecycle.OrphanExactly` | rqueue/worker_jobs.go:360-411 | exactly when a machine is left although deletion has completed: every completed request was overtaken by the whole of provisioning, or provisioning timed out and none had read a real id |
| `WorkerLifecycle.OvertakenHandlerLeavesMachine` | admin/handlers_workers.go:438-488 | a run in which the handler is overtaken and a machine outlives its deleted row |
| `WorkerLifecycle.TimeoutLeavesMachine` | rqueue/worker_jobs.go:160-216 | a run in which provisioning times out without an address and the machine outlives its deleted row, even with an atomic handler |
| `WorkerLifecycle.HealedWorkerIsDestroyed` | rqueue/worker_jobs.go:523-610 | a run in which a health check heals the row first and the live machine is destroyed while its row says active |
| `WorkerLifecycle.CleansUpExactly` | rqueue/worker_jobs.go:252-270 | in every run provisioning destroys its own, ready machine if and only if, before the finalising update, a delete request marked the row or a health check that had read it as not active reached the worker and wrote |
| `WorkerLifecycle.HealedWorkerIsDestroyedExactly` | rqueue/worker_jobs.go:523-605 | without delete requests that happens if and only if a health check read the row after the address was stored, reached the worker, and wrote before the finalising update; no other machine is ever destroyed |
| `Provider.DeliversInOrder` | scraper/provider.go:67-105 | delivered, output buffer, item in hand and input buffer make up the accepted jobs in order until close; afterwards at most one job in hand is missing, and deliveries stay a prefix |
| `Provider.CallersAreToldTheTruth` | scraper/provider.go:67-88 | a caller is told accepted exactly if its job went in, each call's job goes in once, and calls that begin after the flag are refused |
| `Provider.NothingIsSentAfterClose` | scraper/provider.go:90-117 | once the output channel is closed nothing is put on it: the consumer drains what is buffered |
| `Provider.ChannelsAreClosedOnce` | scraper/provider.go:108-117 | for any number of overlapping calls of `Close`, at most one is in the body at a time, each channel is closed at most once, and a call that has returned finds both channels closed and the goroutine gone |
| `Provider.OneCallRunsTheBody` | scraper/provider.go:109-116 | one call at most runs the body in the whole run |
| `Provider.CloseCanReturn` | scraper/provider.go:90-117 | in every reachable state each call of `Close` has a continuation in which it returns |
| `RateLimiter.Limiter.Allow` | web/api_access.go:297-330 | decides and updates the pruned map as the step function does, and reports what is left of the quota |
| `RateLimiter.Limiter.Prune` | web/api_access.go:322-328 | deletes exactly the buckets of earlier windows |
| `RateLimiter.PruningIsInvisible` | web/api_access.go:297-330 | for requests in clock order the pruned map decides every request as a never-pruned one does, and both decide by counting the identity's requests in the window |
| `RateLimiter.QuotaPerWindow` | web/api_access.go:297-330 | at most `limit` requests of an identity get through in an aligned minute |
| `RateLimiter.QuotaIsGranted` | web/api_access.go:297-330 | with a fixed limit exactly the smaller of the limit and the number of requests get through |
| `RateLimiter.QuotaPerSpan` | web/api_access.go:297-330 | at most twice the limit gets through in any span of a minute or less |
| `RateLimiter.ClockOrderIsNeeded` | web/api_access.go:302-312 | three requests that reach the lock against their clock order and exceed the quota of a window |
| `RateLimiter.QuotaByBlocks` | web/api_access.go:297-330 | for requests in any order and a fixed limit, with and without pruning, what gets through is the sum over blocks of the smaller of limit and block size; a block ends when the identity asks in another window, or when a later window prunes the map |
| `RateLimiter.QuotaIsExceededExactly` | web/api_access.go:297-330 | the quota of a window is exceeded if and only if there are more requests than the limit and they fall into more than one block |
| `RateLimiter.OneBlockInClockOrder` | web/api_access.go:302-312 | in clock order there is at most one block |
| `RateLimiter.PruningOnlySplits` | web/api_access.go:322-328 | out of order, pruning can split blocks further and does nothing else |
| `RateLimiter.PruningRefusesNothing` | web/api_access.go:322-328 | in any order the pruned map lets through whatever the never-pruned one does |
| `TextWrap.WrapText` | runner/runner.go:275-298 | the loop computes the greedy lines |
| `TextWrap.WrappingIsOptimal` | runner/runner.go:275-298 | if every rune fits, the lines concatenate to the text, each fits, none is empty, and no division into fitting chunks has fewer |
| `TextWrap.GreedyStaysAhead` | runner/runner.go:275-298 | no division has fewer chunks than greedy has begun, and one with as many began its last chunk no later |
| `TextWrap.LinesFitExactlyIfRunesDo` | runner/runner.go:275-298 | the lines always make up the text, and they all fit exactly if every rune does |
| `TextWrap.DrawBanner` | runner/runner.go:300-340 | the rows show the wrapped lines in order, and a row is as wide as the banner exactly if its line leaves room for the frame |
| `TextWrap.BannerLinesFit` | runner/runner.go:314-335 | when no rune is wider than the content and no string is displayed wider than its runes are, every row's line leaves room for the frame |
| `TextWrap.EveryRowIsAsWide` | runner/runner.go:314-338 | under the same two conditions every row is exactly as wide as the banner |
| `Grid.GenerateCells` | grid/grid.go:101-120 | the loops generate the closed-form table of cells |
| `Grid.CentreIsBelow` | grid/grid.go:113-117 | on an axis the centres inside the box are exactly the first max(0, ceil(span/step - 1/2)) |
| `Grid.CellAt` | grid/grid.go:101-120 | the number of cells is rows times columns, and each cell stands at its place, row by row |
| `Grid.EstimateIsCountOrOneMore` | grid/grid.go:124-142 | on an axis the estimate is the count or one more, and which of the two depends on the last partial cell |
| `Grid.EstimateBounds` | grid/grid.go:122-142 | the estimate of the grid is never too low and at most one row and one column too high |
| `Grid.EstimateIsExactIff` | grid/grid.go:122-142 | for a non-empty box the estimate is exact if and only if on both axes the last partial cell is absent or more than half a cell |
| `Grid.EstimateCanExceed` | grid/grid.go:122-142 | a box with one generated cell that is estimated at four |
| `Grid.GridCovers` | grid/grid.go:101-120 | every point before the end of the last row and column is within half a step of a generated cell's centre |
| `Grid.CoveredExactly` | grid/grid.go:101-120 | a point at or beyond the lower corner is within half a step of a generated cell's centre on both axes if and only if there are cells and it is not beyond the end of the last row or column |
| `Grid.GridLeavesNarrowStrips` | grid/grid.go:101-120 | what is left uncovered on either axis is a strip at most half a step wide |
| `SeedJobs.ReadQueries` | runner/jobs.go:296-315 | the queries of the non-blank lines in order, or the first error |
| `SeedJobs.ParsedQueryIsNormal` | runner/jobs.go:317-337 | a parsed query has a trimmed, non-empty text without the delimiter and a trimmed id |
| `SeedJobs.QueryReadsBack` | runner/jobs.go:317-337 | every query of that form is read back from its line |
| `SeedJobs.CreateGridSeedJobs` | runner/jobs.go:158-241 | refuses a bad zoom, an empty grid, bad input and no queries, in this order; otherwise gives every query with every cell |
| `SeedJobs.JobsAreQueriesTimesCells` | runner/jobs.go:193-238 | the jobs are queries times cells, each pair once, in lexicographic order |
| `SeedJobs.SeedTextDeterminesPosition` | runner/jobs.go:284-286 | whatever the query texts contain, equal texts to be hashed come from the same query index and the same cell index |
| `SeedJobs.IdsCollideOnlyIfHashesDo` | runner/jobs.go:200-212 | two jobs of a grid share an id only if the hash collides on two different texts, custom query ids included |
| `ExportStream.WriteExportRow` | web/app_exports.go:427-491 | writes a separator before every row but the first, also before a row that then fails |
| `ExportStream.StreamExportRows` | web/app_exports.go:347-377 | for any page lengths terminates, writes every row exactly once and in order between opening and closing text with separators only in between, and counts them; refuses a set above the cap before its first row; stops at the first row that cannot be written, with exactly the rows before it |
| `ExportStream.JoinedReadsBack` | web/app_exports.go:437-467 | rows without line feeds are recovered from their joined text, so there are exactly rows minus one separators |
| `ExportStream.ListExportReadsBack` | web/app_exports.go:379-467 | the rows of a JSON or GeoJSON file are recovered from between its opening and its closing text |
| `ExportStream.VcardExportReadsBack` | web/app_exports.go:470-474 | no value breaks out of its card: an export is nine lines a row, and each line is where it belongs |
| `ExportStream.TxtLinesAreRowsIff` | web/app_exports.go:475-478 | a text export has one line per row if and only if no printed field holds a line feed, as this format escapes nothing |
| `ExportStream.InsertReadsBack` | web/app_exports.go:479-488 | the text columns of an inserted row read back from its statement, as PostgreSQL reads literals |
| `ExportStream.MysqlInsertReadsBackExactly` | web/app_exports.go:479-488 | as MySQL reads them, the text columns of an inserted row read back if and only if each backslash in them stands before a percent sign or an underscore |
| `Escaping.VcardEscapesEachCharacter` | web/app_exports.go:560-567 | the five whole-string replacements are one escape per character: none touches what an earlier one put in |
| `Escaping.VcardRoundTrip` | web/app_exports.go:560-567 | an escaped text has no line break, reads back by section 3.4 of RFC 6350 to the input without carriage returns, and to the input itself exactly if it has none |
| `Escaping.EscapedIsOneComponent` | web/app_exports.go:471-473 | an escaped value in a structured field ends at its own separator, whatever it contains |
| `Escaping.AddressIsThirdComponent` | web/app_exports.go:471-473 | the address line splits into seven components, the third the escaped address and the others empty |
| `Escaping.LiteralReadsBack` | web/app_exports.go:520-522 | as PostgreSQL reads it, a quoted literal gives back its value and ends where it should |
| `Escaping.RowReadsBack` | web/app_exports.go:479-488 | as PostgreSQL reads it, every literal of a value list gives back its own value |
| `Escaping.MysqlLiteralReadsBackExactly` | web/app_exports.go:520-522 | as MySQL reads it by default, a literal gives back its value and ends where it should if and only if each backslash in the value stands before a percent sign or an underscore; so it does for every value without a backslash |
| `Escaping.MysqlRowReadsBackExactly` | web/app_exports.go:479-488 | as MySQL reads it, a value list gives back its values if and only if each of them would come back alone |
| `ServerSentEvents.ParseSSE` | acceptance/events.go:192-238 | delivers, in order, the decodable typed events of the payloads between blank lines, up to the point where the context ends |
| `ServerSentEvents.StreamIsParsed` | acceptance/events.go:217-237 | any stream of encoded frames, with skipped lines anywhere in between, is parsed to what its payloads deliver |
| `ServerSentEvents.DeliveredExactlyIfPlain` | acceptance/events.go:225-232 | a payload comes through unchanged if and only if it is not empty, does not begin with a newline and has no line that ends in a carriage return |
| `ServerSentEvents.RoundTrip` | acceptance/events.go:192-238 | a list of payloads is reassembled exactly, in order, if and only if each of them is of that form |
| `ServerSentEvents.LastFrameNeedsNoBlankLine` | acceptance/events.go:237-237 | the last frame is delivered without its blank line, and without its last newline |
| `Statistics.Summarise` | acceptance/store.go:222-254 | the loops compute minimum, maximum, rounded mean, deviation and coefficient by the exact formulas, zeroes for an empty list |
| `Statistics.MeanIsInRange` | acceptance/store.go:228-240 | the mean lies between minimum and maximum |
| `Statistics.VarianceIsBounded` | acceptance/store.go:242-247 | the population variance is not negative and at most (max - mean)(mean - min) |
| `Statistics.VarianceIsAtMostHalfRangeSquared` | acceptance/store.go:242-247 | and so at most the square of half the range |
| `Statistics.RoundRatioIsClose` | acceptance/metrics.go:58-60 | rounding moves a value by at most half a unit of its grid |
| `Statistics.RoundRatioIsMonotone` | acceptance/metrics.go:58-60 | rounding keeps the order |
| `Statistics.PrintedMean` | acceptance/store.go:240-240 | the printed mean is within half a unit of the mean and between the rounded ends |
| `Statistics.PrintedDeviation` | acceptance/store.go:248-248 | the printed deviation is within half a unit of the root of the variance and at most the rounded half range |
| `Statistics.PrintedCoefficient` | acceptance/store.go:249-251 | the printed coefficient is not negative and within half a unit of the ratio of the printed figures |
| `Statistics.PrintedMeanStaysInRange` | acceptance/store.go:178-240 | for values that are counts or already rounded, as all callers pass, the printed mean lies in the printed range |
| `Statistics.ReportedIsOnGrid` | acceptance/store.go:178-193 | counts and rounded values are values that printing leaves as they are |
| `Statistics.RoundedIsOnGrid` | acceptance/metrics.go:58-60 | a rounded ratio is a value that printing leaves as it is |
| `Statistics.PrintedMeanInRangeExactly` | acceptance/store.go:228-240 | for any values, the printed mean reaches the minimum if and only if the mean rounds up to the first grid point at or above it, and keeps below the maximum if and only if it rounds down to the last one at or below it |
| `Statistics.RateIsAFraction` | acceptance/metrics.go:82-91 | the rate lies between 0 and 1, within half a unit of the share, and does not fall when the count grows |
| `DashboardYield.LabelReadsBack` | web/app_pages.go:992-1000 | a printed label is re-read as exactly the number that it shows |
| `DashboardYield.LabelIsTheShare` | web/app_pages.go:1062-1068 | a printed share is within half a unit of its last digit of the exact one |
| `DashboardYield.PercentageIsTheShare` | web/app_pages.go:1161-1167 | a percentage lies between 0 and 100, is zero without values or total, is the share to the nearest percent up to the total and 100 from there on |
| `DashboardYield.ComparisonRespectsLabels` | web/app_pages.go:977-984 | comparing an exact share with a printed one decides the order of the printed ones |
| `DashboardYield.Yield.Add` | web/app_pages.go:961-985 | one job's report is added to the totals and offered as best and as worst; a job without records changes nothing |
| `DashboardYield.Yield.Close` | web/app_pages.go:1004-1020 | the card's labels and percentages come from the totals, a card without records is emptied, and a worst that is the best is removed |
| `DashboardYield.BestAndWorstAreExtreme` | web/app_pages.go:961-985 | for named jobs the printed best is the maximum of all printed yields and the printed worst the minimum, despite rounding |
| `DashboardYield.FinishedCardIsRight` | web/app_pages.go:1004-1020 | the finished card shows the extremes, and a worst only beside a different best |
| `DashboardYield.TotalsArePositive` | web/app_pages.go:961-976 | the card counts exactly the jobs with records, each with at least one |

## Left out

- Browser automation, page scripts, HTTP, SSH, cloud and S3 calls: external effects, of which only outcomes appear.
- HTML pages, forms, sessions, settings and request validation: plumbing and independent bound checks.
- The internals of River, the scraper library, the database driver and the hash functions.
- CentralWriter.Writer.Flush: the removal of NUL characters from entries before a save (scraper/centralwriter.go:140-142) is not modelled.
- A second attempt of the same River job under its id, and a later `SetSeedCount` on the same monitor.
- Clearing the cancel function with nil while a pipeline runs; `Exiter.ExitMonitor.SetCancelFunc` alone covers it.
- Wall-clock durations, the watchdog's counters and the timeout arithmetic of `effectiveScrapeTimeout`: a timeout is an event that may happen at any time.
- Overflow of 64-bit counters.
- ScrapeJobs.ProcessSearchJob: the radius filter and the sort are a parameter, because the counts do not depend on which entries they keep.
- ScrapeJobs.PlaceJob.Process: the retries before an entry is parsed and the extra reviews merged into it are part of the classified response.
- Grid.GenerateCells: requires a cosine that is not negative, as for all validated latitudes; with a negative one the source's inner loop would not end.
- Grid.EstimateCellCount: floating-point rounding of steps and centres is not modelled; arithmetic is over the reals.
- Statistics.Summarise: arithmetic is over the reals, and the square root is a parameter.
- DashboardYield.ComparisonRespectsLabels: shares are real numbers and labels are rounded from them, ties to even; rounding of 64-bit quotients before printing is not modelled.
- DashboardYield.LabelReadsBack: only the plain decimals that labels contain are parsed as numbers.
- ServerSentEvents.ParseSSE: lines longer than four megabytes, which end the source's scan, are not modelled.
- ExportStream.StreamExportRows: failures of the file and of a page query are not modelled, nor is a set that changes between pages.
- Placemarks of a KML export are not equated with its rows: a row without coordinates is counted and not drawn.
- Escaping.LiteralReadsBack: reads as PostgreSQL does; for MySQL's default mode see `Escaping.MysqlLiteralReadsBackExactly`.
- Escaping.RowReadsBack: reads as PostgreSQL does; for MySQL's default mode see `Escaping.MysqlRowReadsBackExactly`.
- ExportStream.InsertReadsBack: covers the eight text columns; the number columns and the time behind them are returned unread.
- ExportStream.MysqlInsertReadsBackExactly: covers the same eight columns.
- SeedJobs.ReadQueries: the scanner's own error on an overlong line is not modelled.
- SeedJobs.QueryReadsBack: white space beyond Latin-1 is not trimmed.
- TextWrap.DrawBanner: the display width of a string is a parameter, which need not be the sum of its runes' widths.
- RateLimiter.QuotaIsExceededExactly: the limit is fixed while the requests are served; `RateLimiter.QuotaPerWindow` allows it to change.
- WorkerLifecycle.NoOrphanMachine: says nothing about provisioning that fails or times out; `WorkerLifecycle.OrphanExactly` does.
