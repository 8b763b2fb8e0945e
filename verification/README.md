# Continuous model monitoring: a Dafny model of the simulation core

The repository shows how to monitor a deployed house-price regressor over time. A data
preparation script turns King County house sales into a training frame and a production frame.
Each sale gets an artificial listing date a few days before it sold. A `Simulation` object then
replays the production period, one calendar month at a time:

- it sends the records newly *listed* in a batch window to the model endpoint and keeps the
  id-to-uuid mapping the endpoint answers with;
- it attaches the ground-truth prices of the records newly *sold* in that window to their
  predictions as delayed metrics;
- it writes one drift report directory per window;
- it deploys the monitoring dashboard on the first window and restarts it on every later one.

The dashboard lists the report directories newest first.

This project models that core:

| module | file | models |
|---|---|---|
| `Calendar` | calendar.dfy | the midnight timestamps used throughout, as proleptic-Gregorian dates with a day number; `DateOffset` in months, years and days; `to_period("M").to_timestamp()` |
| `DateText` | datetext.dfy | `strftime("%m-%d-%Y")`, `astype(str)` of a date, and `strptime` with `%m-%d-%Y` and `%Y-%m-%d` |
| `Text` | text.dfy | the `split(sep)[0]` and `split(sep)[-1]` the core uses |
| `Housing` | housing.dfy | the record of the train and production frames |
| `SimulationClock` | clock.dfy | `set_simulation_clock`: the batch windows |
| `SimulationSteps` | simulation_steps.dfy | the window filters, the ledger update of `make_inference`, `format_metadata_for_delayed_metrics`, the guard and zip of `add_delayed_metrics`, the report directory name, the deploy/restart choice and `format_model_metrics_query` |
| `Simulation` | simulation.dfy | the `Simulation` object as a class whose fields the methods update (clock, ledger, delayed-write log, reports, dashboard calls) and `run_simulation`; `cast_date_as_str_for_json` as an in-place rewrite of a `Frame` class |
| `Utils` | utils.dfy | `random_day_offset` and `find_latest_report` |
| `App` | app.dfy | `get_report_dates` |
| `PrepareData` | prepare_data.dfy | `drop_duplicates`, the listing dates, the in-place sort by listing date (an insertion sort on an array), and the train/production split |

Things outside the program are parameters:

- The model endpoint is a function from a record to its prediction uuid (`Simulation.endpoint`).
- Each random draw of `np.random.randint` is a number below its bound.
- Each directory listing is a sequence of names.
- The sampled frames are inputs of `RunSimulation`.

`Result`, `Option` and `Outcome` (wrappers.dfy) carry the exceptions the source raises.

A production period of a single day gives no window: `total_months` is 0, `range(0, 0, 1)` is
empty, and widening the first window's start raises IndexError (`SimulationClock.ClockSingleDay`).

The run uses `add_delayed_metrics` with its guard as written (see Findings). On the lists
`format_metadata_for_delayed_metrics` returns, the prices and the sale dates always have the same
length, so that guard never raises there (`SimulationSteps.ChainedGuardNeverRaises`).

## Model

| member | source | states |
|---|---|---|
| Calendar.AddMonths | src/simulation.py:258-259 | `+ DateOffset(months=n)` moves the month count by n and keeps the day, clamped to the length of the target month |
| Calendar.AddYearsIsMonths | src/simulation.py:266 | `- DateOffset(years=k)` is `- DateOffset(months=12k)`: the month is kept and the day clamped (Feb 29 becomes Feb 28) |
| Calendar.SubDays | src/utils.py:78 | `ts - DateOffset(k)` is exactly k days earlier |
| Calendar.MonthStart | scripts/prepare_data.py:67 | `to_period("M").to_timestamp()` is day 1 of the same month, `day - 1` days earlier |
| Calendar.AddMonthsIncreasing | src/simulation.py:256-262 | a larger month offset from the same day always lands on a strictly later day |
| Calendar.AddYearsBackDays | src/simulation.py:266 | widening the first window moves its start back 365 or 366 days |
| Calendar.DayNumberOrder | src/simulation.py:163 | comparing timestamps by day number agrees with the calendar order |
| Calendar.DayNumberInjective | src/simulation.py:163 | two different dates never share a day number |
| DateText.FormatMdy | src/simulation.py:437-440 | `strftime("%m-%d-%Y")`; ParseMdyOfFormat states that it parses back |
| DateText.FormatIso | src/simulation.py:313 | `astype(str)` of a date, "YYYY-MM-DD"; ParseYmdOfFormat states that it parses back |
| DateText.ParseMdy | apps/app.py:62 | `strptime(t, "%m-%d-%Y")`; ParseMdyOfFormat, ParseMdyUnpadded and ParseMdyRejectsFeb30 state what it accepts |
| DateText.ParseYmd | src/utils.py:147 | `strptime(t, "%Y-%m-%d")`; ParseYmdOfFormat states what it accepts: the "YYYY-MM-DD" text of every date, "2021-01-01" among them |
| DateText.ParseMdyOfFormat | apps/app.py:62 | `strptime(..., "%m-%d-%Y")` of what `strftime("%m-%d-%Y")` wrote gives back the date, for years 1 to 9999 |
| DateText.ParseYmdOfFormat | src/simulation.py:313 | the `astype(str)` text of a sale date parses back with `"%Y-%m-%d"` to the same date |
| DateText.ParseMdyUnpadded | apps/app.py:62 | strptime accepts unpadded fields: "1-5-2015" is 2015-01-05 |
| DateText.ParseMdyRejectsFeb30 | apps/app.py:62 | a day that does not exist in its month raises ValueError |
| Text.SplitFirst | src/utils.py:143 | `split(c)[0]` is the longest prefix without c, and it is followed by c when c occurs |
| Text.SplitLast | src/utils.py:145 | `split(c)[-1]` is the longest suffix without c, and it is preceded by c when c occurs |
| Text.SplitFirstOfConcat | src/utils.py:143 | the first piece of `a + c + b`, where a has no c, is a |
| Text.SplitLastOfConcat | src/utils.py:145 | the last piece of `a + c + b`, where b has no c, is b |
| Housing.IdsMember | src/simulation.py:305 | every id in the id set of a frame belongs to one of its records |
| Housing.SoldDates | src/simulation.py:250 | the `date_sold` column: one sale date per record, in order |
| SimulationClock.Clock | src/simulation.py:232-270 | `date_ranges`; ClockErrors, ClockCount, ClockWindow and ClockWidening state what it is |
| SimulationClock.BatchWindows | src/simulation.py:256-262 | the comprehension before widening; BatchWindowAt states each element |
| SimulationClock.TotalMonths | src/simulation.py:248-253 | the ceiling of the span over numpy's average month (2629746 s): the least t with t months covering the span; 0 exactly for an empty span |
| SimulationClock.RangeLength | src/simulation.py:261 | `len(range(0, stop, step))`: the least n with n·step ≥ stop for a positive step, and 0 for a negative step |
| SimulationClock.Earliest | src/simulation.py:250 | `date_sold.min()` is a sale date no later than any other |
| SimulationClock.Latest | src/simulation.py:250 | `date_sold.max()` is a sale date no earlier than any other |
| SimulationClock.ClockErrors | src/simulation.py:248-266 | the clock exists exactly when there are sales, the batch width is positive and the span is positive. No sales raises ValueError (NaT), a zero width raises ValueError from `range`, and otherwise (no windows) `date_ranges[0]` raises IndexError |
| SimulationClock.RangeLengthPositive | src/simulation.py:261 | the range is non-empty exactly when the step and the stop are positive |
| SimulationClock.ClockCount | src/simulation.py:248-262 | there are ⌈total_months / m⌉ windows, where total_months = ⌈span / average month⌉ |
| SimulationClock.ClockWindow | src/simulation.py:256-266 | window i ends m·(i+1) calendar months after the first sale. Later windows start m·i months after it. The first window starts one calendar year before it |
| SimulationClock.BatchWindowAt | src/simulation.py:256-262 | element k of the comprehension is `[min + k·m months, min + (k+1)·m months]` |
| SimulationClock.ClockContiguous | src/simulation.py:256-262 | every window ends where the next starts |
| SimulationClock.ClockWindowNonEmpty | src/simulation.py:256-266 | every window's start is strictly before its end |
| SimulationClock.ClockOrdered | src/simulation.py:256-266 | an earlier window ends no later than a later window starts |
| SimulationClock.ClockDisjoint | src/simulation.py:161-165 | with `inclusive="left"` a day lies in at most one window |
| SimulationClock.ContiguousCovers | src/simulation.py:256-262 | over contiguous windows, every day from the first start to the end of window k lies in one of windows 0..k |
| SimulationClock.ClockCovers | src/simulation.py:256-266 | every day from the widened start to the end of window k lies in one of windows 0..k |
| SimulationClock.ClockWidening | src/simulation.py:264-266 | only the first window's start changes. It moves from the first sale back 365 or 366 days, and every other bound is that of the comprehension |
| SimulationClock.ClockReach | src/simulation.py:248-262 | the last window ends at least total_months calendar months after the first sale |
| SimulationClock.ClockSingleDay | src/simulation.py:248-266 | a production period of one day raises IndexError instead of giving a window |
| SimulationClock.ClockCanMissLastSale | src/simulation.py:248-262 | sales on 2015-02-01 and 2015-03-03 give one window ending 2015-03-01, so the last sale is in no window |
| SimulationSteps.BatchMapping | src/simulation.py:223 | the endpoint's `id_uuid_mapping` for a batch has exactly the batch's ids as keys |
| SimulationSteps.BatchMappingLastWins | src/simulation.py:223 | for a repeated id, `dict(results)` keeps the uuid of the last record with that id |
| SimulationSteps.LedgerUpdate | src/simulation.py:225 | `update` adds the batch's ids, maps each to the batch's uuid, and leaves every other id's uuid unchanged |
| SimulationSteps.ListedIn | src/simulation.py:161-165 | the records newly listed in a window; ListedInMembers states which |
| SimulationSteps.SoldIn | src/simulation.py:297-299 | the records newly sold in a window; SoldInMembers states which |
| SimulationSteps.WithIdIn | src/simulation.py:310 | `df[df.id.isin(ids)]`; WithIdInMembers states which |
| SimulationSteps.NewlySold | src/simulation.py:292-302 | all of the frame in train mode, else the records sold in the window; TrainSelectsAll and SoldInMembers state them |
| SimulationSteps.FormatMetadata | src/simulation.py:272-315 | `format_metadata_for_delayed_metrics`; FormatMetadataErrors, FormatMetadataUuids and FormatMetadataAligned state its result |
| SimulationSteps.ListedInMembers | src/simulation.py:161-165 | a record is selected exactly when it is in the frame and its listing date lies in `[start, end)` |
| SimulationSteps.SoldInMembers | src/simulation.py:297-299 | a record is selected exactly when it is in the frame and its sale date lies in `[start, end)` |
| SimulationSteps.WithIdInMembers | src/simulation.py:310 | `isin` keeps exactly the records of the frame whose id is in the set |
| SimulationSteps.WithIdInSold | src/simulation.py:310-313 | with unique ids, reselecting the frame by the ids of its newly sold records gives back those records |
| SimulationSteps.FirstUnknown | src/simulation.py:305-307 | no id is reported exactly when the ledger knows every id. A reported id is an id of the records that the ledger lacks (the KeyError) |
| SimulationSteps.Lookup | src/simulation.py:305-307 | one uuid per record, in record order, looked up in the ledger |
| SimulationSteps.Prices | src/simulation.py:310 | the `price` column: one price per record, in order |
| SimulationSteps.SoldDateStrings | src/simulation.py:313 | one "YYYY-MM-DD" text per record, in order |
| SimulationSteps.FormatMetadataErrors | src/simulation.py:292-307 | the assert fails exactly in production mode without a date range. The call returns exactly when every newly sold id is in the ledger. A KeyError names a newly sold id the ledger lacks |
| SimulationSteps.FormatMetadataUuids | src/simulation.py:305-307 | the uuid list has one ledger uuid per newly sold record, in order |
| SimulationSteps.TrainSelectsAll | src/simulation.py:300-302 | in train mode every record is newly sold |
| SimulationSteps.FormatMetadataAligned | src/simulation.py:304-315 | in train mode, or with unique ids, the three lists have the length of the newly sold records, and position i of each describes record i |
| SimulationSteps.Zip3 | src/simulation.py:334 | `zip` stops at the shortest list and pairs equal positions |
| SimulationSteps.DelayedWritesAsWritten | src/simulation.py:329-337 | `add_delayed_metrics` with the guard as written; ChainedGuardMeaning states it |
| SimulationSteps.DelayedWrites | src/simulation.py:329-337 | `add_delayed_metrics` with the guard its message asks for; DelayedWritesExact states it |
| SimulationSteps.DelayedWritesExact | src/simulation.py:329-337 | with the guard its message asks for, the call raises exactly when the lengths differ. Otherwise it writes every element once, in order |
| SimulationSteps.ChainedGuardMeaning | src/simulation.py:329-337 | the chained guard as written raises only when both adjacent pairs of lengths differ; otherwise it writes as many triples as the shortest list |
| SimulationSteps.GuardsAgreeOnEqualLengths | src/simulation.py:329 | on lists of equal length the written and the intended guard agree |
| SimulationSteps.ChainedGuardMissesDuplicateId | src/simulation.py:297-337 | a production frame with a repeated id gives lengths 1, 2, 2. The written guard lets this through and writes one ground truth; the intended guard raises |
| SimulationSteps.TrackWrites | src/simulation.py:304-337 | the writes of one ground-truth step: the zipped lists of the formatted metadata |
| SimulationSteps.ChainedGuardNeverRaises | src/simulation.py:308-329 | on formatted metadata the prices and the sale dates have one length, so the guard as written lets the call through and the writes are the zipped lists |
| SimulationSteps.TrackWritesMeaning | src/simulation.py:304-337 | in train mode or with unique ids, every newly sold id is known and the writes are exactly each newly sold record's own ground truth |
| SimulationSteps.DuplicateIdWritesWrongPrice | src/simulation.py:297-337 | a repeated id, one copy unsold and one sold in the window, writes one ground truth carrying the unsold copy's price and sale date |
| SimulationSteps.GroundTruthWrites | src/simulation.py:334-337 | one delayed write per record: its own uuid, price and sale-date text |
| SimulationSteps.TrackedWrites | src/simulation.py:304-337 | when the metadata is formatted, in train mode or with unique ids, the writes attribute each newly sold record's price and sale date to that record's own prediction |
| SimulationSteps.ZipAligned | src/simulation.py:334-337 | parallel lists that describe the records zip into those records' ground-truth writes |
| SimulationSteps.TrackOutcome | src/simulation.py:292-337 | the whole ground-truth step: when it raises and with which error, which uuids it returns, and what it writes |
| SimulationSteps.ReportDirName | src/simulation.py:437-440 | the report directory name of a window; ReportDirNameStart and App.ReportDirNameMonthFirst state what it starts with |
| SimulationSteps.ReportDirNameStart | src/simulation.py:437-440 | the text before the first `_` of a report directory name parses with `%m-%d-%Y` to the window's start |
| SimulationSteps.DashboardActions | src/simulation.py:190-193 | batch i deploys the dashboard when i = 0 and restarts it otherwise |
| SimulationSteps.OneDeploy | src/simulation.py:190-193 | over n ≥ 1 batches the dashboard is deployed exactly once, first |
| SimulationSteps.RenamedMetricColumnsShape | src/simulation.py:399-402 | one renamed column per `metrics.` column, and no renamed name contains a dot |
| SimulationSteps.RenameMetricColumn | src/simulation.py:400-402 | "metrics.x" is selected and renamed to x |
| SimulationSteps.RenamedMetricColumnAt | src/simulation.py:400-402 | the `metrics.` column at position j is renamed to its last piece and sits after the renamed metric columns before j |
| SimulationSteps.FormatModelMetricsQuery | src/simulation.py:386-402 | the selected and renamed columns; FormatModelMetricsQueryShape states them |
| SimulationSteps.FormatModelMetricsQueryShape | src/simulation.py:399-402 | selecting "predictionUuid" raises KeyError exactly when the column is absent. Otherwise the result is the metric columns, each renamed, in order, followed by "predictionUuid" |
| Simulation.CastColumn | src/simulation.py:380-382 | the cast of one column; CastColumnMeaning and CastColumnIdempotent state it |
| Simulation.CastCells | src/simulation.py:382 | every cell becomes its `str` text |
| Simulation.CastColumnMeaning | src/simulation.py:380-382 | a column keeps its name and length. Numeric columns are untouched; every other column becomes text, a date becoming its "YYYY-MM-DD" text |
| Simulation.CastColumnIdempotent | src/simulation.py:380-382 | casting a frame twice is casting it once |
| Simulation.CastDateRoundTrip | src/simulation.py:382 | the date text sent to the endpoint parses back with `"%Y-%m-%d"` to the same date |
| Simulation.Frame.CastDateAsStrForJson | src/simulation.py:376-383 | every column of the frame is replaced, in place, by its cast |
| Simulation.TrackedHolds | src/simulation.py:169-339 | the ground-truth step as the source runs it, with the guard as written, keeps every promise of `Tracked`: its error cases, its uuids and its writes, which with unique ids are each newly sold record's own ground truth |
| Simulation.LedgerAfter | src/simulation.py:159-166 | the ledger after the first n windows: each window merges its listings' mapping, and no id is lost |
| Simulation.WindowWrites | src/simulation.py:168-172 | the ground-truth writes of one window against the ledger its listings leave |
| Simulation.WritesAfter | src/simulation.py:147-172 | the writes of the first n windows, in window order |
| Simulation.WindowReport | src/simulation.py:174-185 | the report of one window: its directory name and the uuids of the records newly sold in it |
| Simulation.ReportsAfter | src/simulation.py:147-185 | the reports of the first n windows, one per window, in window order |
| Simulation.AllOwnWindows | src/simulation.py:159-172 | with unique ids, every window that finds its sold ids writes exactly their own ground truths |
| Simulation.OwnWindowWrites | src/simulation.py:168-172 | with unique ids and every sold id known, a window writes exactly its sold records' own ground truths |
| Simulation.Simulation.constructor | src/simulation.py:104-112 | a fresh simulation keeps its endpoint and has an empty ledger, no clock and no effects yet |
| Simulation.Simulation.SetSimulationClock | src/simulation.py:232-270 | it succeeds exactly when the clock exists, and then `date_ranges` is the clock. Where the source raises, the attribute is unchanged |
| Simulation.Simulation.MakeInference | src/simulation.py:199-230 | the ledger becomes the old ledger updated with the batch's mapping, so its keys grow by the batch's ids |
| Simulation.Simulation.AddDelayedMetrics | src/simulation.py:317-339 | with the intended guard: the call raises exactly when the lengths differ, and otherwise the log gains the writes of `DelayedWrites` |
| Simulation.Simulation.AddDelayedMetricsAsWritten | src/simulation.py:317-339 | with the guard as written: the call raises exactly when the chained comparison holds, and otherwise the log gains the zipped triples |
| Simulation.Simulation.TrackGroundTruths | src/simulation.py:169-172 | format the metadata, then add it with the guard as written: the outcome and the log satisfy `Tracked` |
| Simulation.Simulation.TrainSection | src/simulation.py:129-133 | every train id is scored, and the log gains each train record's own ground truth. It cannot fail with a modelled error |
| Simulation.Simulation.ProcessWindow | src/simulation.py:159-193 | the ledger gains the mapping of the records listed in the window. Of the modelled errors, the step fails exactly when a newly sold id is unknown, naming that id. On success it returns their uuids, writes the zipped ground truths (with unique ids, each record's own), adds one report and one deploy/restart. On failure nothing is written, reported or deployed |
| Simulation.Simulation.RunProduction | src/simulation.py:147-197 | the whole new state, through `ProductionRan`: on success the ledger, the writes, the reports and the dashboard calls are those of every window in clock order, and with unique ids each window writes its own sold records' ground truths. On failure the loop stopped in some window on an unknown id, with the earlier windows complete. Where every sale is in its listing's window or later, it cannot fail with a modelled error |
| Simulation.Simulation.RunBatches | src/simulation.py:124-197 | the train section, then the production loop: every train id is scored, the train ground truths are written first, and the production state is that of `ProductionRan` from there |
| Simulation.Simulation.RunSimulation | src/simulation.py:114-197 | where the clock raises, nothing changes. Otherwise `date_ranges` is the clock, the train section runs on the train sample, and the production state is that of `ProductionRan` over the clock's windows. On admissible data the run cannot fail with a modelled error |
| Simulation.Simulation.ProductionPass | src/simulation.py:147-193 | one iteration of the loop takes the state of the earlier windows to that of one more window, or stops in this window on an unknown id |
| Simulation.Simulation.WindowOutcome | src/simulation.py:159-193 | what one window's pass does to the state of the earlier windows: success extends it by that window, failure stops there |
| Simulation.Simulation.ProcessedStep | src/simulation.py:147-193 | a window that finds every sold id extends the writes, reports and dashboard calls of the earlier windows by its own |
| Simulation.Simulation.ScoredStep | src/simulation.py:166-172 | one more window whose sold ids are known keeps every earlier window's |
| Simulation.Simulation.WritesStep | src/simulation.py:168-172 | one more window's writes follow those of the earlier windows |
| Simulation.Simulation.ReportsStep | src/simulation.py:174-185 | one more window's report follows those of the earlier windows, in window order |
| Simulation.Simulation.ActionsStep | src/simulation.py:190-193 | one more window's deploy or restart follows the calls of the earlier windows |
| Simulation.Simulation.PassRan | src/simulation.py:147-197 | a loop that processed every window ends in the state `ProductionRan` promises for success |
| Simulation.Simulation.LedgerAfterScoresListings | src/simulation.py:159-166 | after the first n windows, every record listed in one of them is known |
| Simulation.Simulation.CoveredSoldScored | src/simulation.py:159-172 | where every sale is in its listing's window or later, each window finds every id newly sold in it |
| Simulation.Simulation.ListedKnown | src/simulation.py:161-166 | once window i's listings are scored, every record listed in windows 0..i is known |
| Simulation.Simulation.SoldKnown | src/simulation.py:166-172 | a record sold in window i and listed no later is known when its ground truth is looked up |
| Simulation.Simulation.AdmissibleCovered | src/simulation.py:264-266 | for records listed at most 365 days before their sale, the widened first window ensures every sale is in its listing's window or a later one |
| Simulation.Simulation.ListedWithinClock | src/simulation.py:264-266 | a production record sold in window i was listed between the clock's widened start and window i's end |
| Utils.RandomDayOffset | src/utils.py:73-78 | randint raises exactly when max_days ≤ 0; otherwise the result is exactly `draw` days before ts |
| Utils.OffsetWithin | src/utils.py:73-78 | the listing date is never after the sale and less than max_days days before it |
| Utils.OffsetReachesEveryDay | src/utils.py:73-78 | every day in that range is the result of exactly one draw |
| Utils.DateMapOf | src/utils.py:142-146 | the dict comprehension `date_map`; DateMapOfSpec states it |
| Utils.DateMapOfSpec | src/utils.py:142-146 | `date_map` has distinct keys, exactly the date parts of html reports, each mapped to the last index carrying it |
| Utils.FirstUnparsable | src/utils.py:147 | the first key the key function rejects, with all earlier keys accepted |
| Utils.KeyDays | src/utils.py:147 | the key function's value for every key |
| Utils.LatestIn | src/utils.py:147 | `max` returns the first position of the largest key |
| Utils.LatestTagged | src/utils.py:142-149 | the index `date_map[max(...)]`; LatestTaggedErrors and LatestTaggedIsLatest state it |
| Utils.LatestTaggedErrors | src/utils.py:142-149 | the lookup raises exactly when no key exists or some key does not parse |
| Utils.LatestTaggedIsLatest | src/utils.py:142-149 | the index found carries the latest date, and no later index has the same key |
| Utils.FindLatestReport | src/utils.py:133-149 | the returned name is one of the listed names |
| Utils.FindLatestReportErrors | src/utils.py:141-149 | `max()` raises ValueError exactly when no html report is listed. strptime raises on a listed html date part it rejects. Otherwise the call returns |
| Utils.FindLatestReportIsLatest | src/utils.py:141-149 | the answer is an html report whose date part parses, no html report is dated later, and no later html report has its date part |
| Utils.LaterDuplicateWins | src/utils.py:142-149 | of two html reports with the same date part, the later one in the listing is returned |
| Utils.SameKeyTwice | src/utils.py:142-147 | two entries with one key give the second entry's index |
| Utils.TagExample | src/utils.py:143-145 | "2021-01-01_x.html" is an html report with date part "2021-01-01" |
| App.SortDesc | apps/app.py:60-64 | `sorted(..., reverse=True)` as a stable insertion sort; SortDescSorted and SortDescStable state it |
| App.InsertDescPerm | apps/app.py:60-64 | one insertion step adds exactly the inserted name |
| App.InsertDescOrdered | apps/app.py:60-64 | one insertion step keeps the listing in descending date order |
| App.InsertDescStable | apps/app.py:60-64 | the inserted name goes after the names with the same date |
| App.SortDescSorted | apps/app.py:60-64 | `sorted(..., reverse=True)` returns a permutation in non-increasing key order |
| App.SortDescStable | apps/app.py:60-64 | names with equal keys keep their listing order |
| App.SortDescOfIncreasing | apps/app.py:60-64 | a listing with strictly increasing keys comes out reversed |
| App.GetReportDates | apps/app.py:58-65 | on success, as many names as listed |
| App.GetReportDatesErrors | apps/app.py:60-62 | the call raises exactly when some name's date part does not parse. The error names the first such name |
| App.GetReportDatesSorted | apps/app.py:60-64 | on success the result is the listing reordered, newest start date first, with names of equal date in listing order |
| App.ClockReportsNewestFirst | apps/app.py:60-64 | the directories the clock's windows produce are listed in exactly the reverse of batch order |
| App.SortDescPair | apps/app.py:60-64 | two names with increasing keys come out swapped |
| App.LaterDirFirst | apps/app.py:60-64 | of two parsable names the later date comes first |
| App.LaterStartFirst | apps/app.py:60-64 | of two report directories, the one whose window starts later comes first |
| App.ReportDirNameMonthFirst | src/simulation.py:437-440 | a report directory name starts with the two-digit month of its window's start, not the year |
| App.CalendarNotTextOrder | apps/app.py:62 | the order is by date, not by text: "12-01-2014_…" is listed after "01-01-2015_…" |
| PrepareData.FirstWithId | scripts/prepare_data.py:51 | the first row with an id is a row of the data with that id |
| PrepareData.FirstWithIdFound | scripts/prepare_data.py:51 | a first row with an id exists exactly when the id occurs |
| PrepareData.DedupFirst | scripts/prepare_data.py:51 | deduplication never adds rows |
| PrepareData.DedupFirstSpec | scripts/prepare_data.py:51 | `drop_duplicates(subset=["id"], keep="first")` leaves every id once, loses no id, and keeps the first row of each id |
| PrepareData.WithListingDates | scripts/prepare_data.py:56 | one record per deduplicated row |
| PrepareData.ListingDates | scripts/prepare_data.py:56 | each record keeps its row's id, price and sale date, and is listed exactly its draw, in [0, 60), days before the sale |
| PrepareData.InsertAt | scripts/prepare_data.py:58 | sinking row i into a sorted prefix leaves the prefix through i sorted and the rows a permutation |
| PrepareData.SortBy | scripts/prepare_data.py:58 | `sort_values(inplace=True)` leaves the array sorted by the key and a permutation of its rows |
| PrepareData.SortedCopy | scripts/prepare_data.py:72 | a sorted permutation of the selected rows |
| PrepareData.PrepareListings | scripts/prepare_data.py:50-59 | the prepared frame is a permutation of the deduplicated, listing-dated rows, sorted by listing date |
| PrepareData.PreparedListings | scripts/prepare_data.py:50-59 | the prepared frame has one row per id. That row is the first raw row with the id, listed 0 to 59 days before its sale |
| PrepareData.PermUniqueIds | scripts/prepare_data.py:58-59 | reordering a frame keeps its ids unique |
| PrepareData.TrainRows | scripts/prepare_data.py:70-71 | a row is selected exactly when its sale lies in [min_sold, 2014-10-31], both ends included |
| PrepareData.ProdRows | scripts/prepare_data.py:74-75 | a row is selected exactly when its sale lies strictly between 2014-10-31 and max_sold |
| PrepareData.MaxSold | scripts/prepare_data.py:66-68 | max_sold is day 1 of the latest sale's month |
| PrepareData.MaxSoldBound | scripts/prepare_data.py:66-68 | every sale is in max_sold's month or earlier |
| PrepareData.SplitTrainProd | scripts/prepare_data.py:65-76 | the two frames are permutations of the selections, each sorted by sale date. An empty frame gives two empty frames |
| PrepareData.SplitSelects | scripts/prepare_data.py:65-76 | training holds exactly the rows sold on or before 2014-10-31, and production exactly those after it and before max_sold. No row is in both |
| PrepareData.FinalMonthDropped | scripts/prepare_data.py:66-76 | a row sold in the final, partial month is never in production. It is not in training either once that month starts after the cutoff |

## Left out

- I/O is not modelled: reading the CSV, the pickles, `os.listdir`, `os.makedirs`, the JSON response and logging. Each listing the core reads is a parameter.
- The raw date parse of `pd.to_datetime(df.date)` is not modelled: the sale dates enter as dates.
- `outlier_removal` and `scale_prices` are not modelled. `SplitTrainProd` takes the frame that outlier removal leaves; the IQR bounds are floating-point quantiles.
- src/inference.py (the thread pool of `threaded_call`) and src/api.py are not part of this model. The endpoint is a function from a record to a uuid, and `executor.map` keeps input order.
- Deploying and restarting the dashboard is modelled only as the recorded call.
- The numerical part of `query_model_metrics`, `build_evidently_reports` and the Evidently drift reports is not modelled. A report records its directory name and the uuids its current data is filtered to.
- The metrics store is not modelled, so neither are the two exceptions that depend on what it returns: the KeyError of `format_model_metrics_query` on an empty metrics list, and the ValueError of the reference sample in `build_evidently_reports` (src/simulation.py:454-455) when a window has more sold predictions than the train reference has rows. "Cannot fail" in the table above and below means cannot fail with a modelled error: a clock error, a metadata error or a length mismatch.
- Simulation.Simulation.TrainSection: the train query raises KeyError when the store returns no metrics, for example for an empty train sample; that failure is not modelled.
- Simulation.Simulation.ProcessWindow: the report build raises ValueError when the window's sold predictions outnumber the train reference rows; that failure, which comes after the writes and before the report and the dashboard call, is not modelled, and neither is the KeyError of an empty window query.
- Simulation.Simulation.ProductionPass: an iteration can also stop on the report build's ValueError, which is not modelled; the unknown id is the only modelled way it stops.
- Simulation.Simulation.RunProduction: `SalesCovered ==> r.Pass?` holds for the modelled errors only; the report build's ValueError is not modelled.
- Simulation.Simulation.RunBatches: `SalesCovered ==> r.Pass?` holds for the modelled errors only; the train query's KeyError and the report build's ValueError are not modelled.
- `format_model_metrics_query`'s `json_normalize` is not modelled; the model works on the flattened column names.
- `sample_dataframe` is not modelled: the sampled frames are inputs of `RunSimulation`, and `Admissible` asks only that the production sample is drawn from the production frame.
- The random generator is not modelled: each `randint` draw is an input below its bound.
- Calendar arithmetic covers midnight timestamps only: every timestamp in the core is a whole day.
- Dates are proleptic-Gregorian dates without bounds. pandas Timestamps are limited to 1677-09-21 .. 2262-04-11, and `DateOffset` arithmetic that leaves that range raises OutOfBoundsDatetime; the model assumes every date of the core stays inside it, and does not model that exception.
- SimulationClock.ClockErrors: its "exactly when" does not include the OutOfBoundsDatetime that widening the first window raises when the earliest sale is less than a year after pandas' lowest Timestamp (1677-09-21); `Clock` succeeds there.
- Utils.RandomDayOffset: the same: a listing date before pandas' lowest Timestamp would raise OutOfBoundsDatetime, which is not modelled.
- Integers and prices are unbounded. No operation of the core wraps, and prices are carried, never computed.
- PrepareData.SortBy: pandas' default quicksort is not stable, so the order among rows with the same listing date is left open. Only sortedness and permutation are promised.
- PrepareData.SortBy: the sort is an insertion sort on an array rather than pandas' quicksort. The contract is the same.
- Utils.FindLatestReportIsLatest: when distinct date parts share the latest date (for example "2021-1-1" and "2021-01-01"), it does not say which one `max` returns. That choice depends on the dict's insertion order, which the model keeps, but no lemma states it.
- Simulation.Simulation.RunSimulation: it is proved not to fail with a modelled error on admissible data: each production record listed at most 365 days before its sale, and a sample drawn from the production frame. Outside that, a run may stop on an unknown id, and `ProductionRan` states where. `Admissible` puts no bound on the train sample, so the train query's KeyError and the report build's ValueError, which are not modelled, can still occur on admissible data (an empty train sample).
- Simulation.Simulation.RunProduction: with repeated ids the writes are stated as the zipped lists of each window (`TrackWrites`), not as per-record ground truths, which they then are not (`DuplicateIdWritesWrongPrice`).
- DateText.ParseMdy: `%d`, `%m` and `%Y` accept ASCII digits only. Python's strptime also accepts other Unicode decimal digits; the names the core reads are ASCII.
- DateText.ParseYmd: the same: ASCII digits only.
- PrepareData.FinalMonthDropped: the training half holds only when max_sold is after 2014-10-31. For an earlier max_sold the training selection is not bounded by it.
- The `tqdm` progress bar's total and every log message are not modelled.

## Findings

| source | as written | input that shows it | evidently intended | confidence | as-written member | corrected member |
|---|---|---|---|---|---|---|
| src/simulation.py:329 | `len(uuids) != len(ground_truths) != len(sold_dates)` is Python's chained comparison `a != b and b != c`. It raises only when both adjacent pairs differ, and `zip` then writes the shortest prefix | A production frame in which one id occurs twice, one copy sold in the window and one not. `format_metadata_for_delayed_metrics` then gives 1 uuid but 2 prices and 2 sale dates (lines 305-313 reselect by id), so the lengths are 1, 2, 2. The guard lets this through and one ground truth is written: the price of the first row with that id, which need not be the copy that sold | raise unless all three lengths are equal, as the error message says | not executed | SimulationSteps.ChainedGuardMissesDuplicateId, SimulationSteps.DuplicateIdWritesWrongPrice, Simulation.Simulation.AddDelayedMetricsAsWritten | SimulationSteps.DelayedWritesExact, Simulation.Simulation.AddDelayedMetrics |
