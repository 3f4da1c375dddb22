# alertmagnet core, modelled in Dafny

alertmagnet pulls the `ALERTS` series of a Prometheus or Thanos server over a
long time span. It then cleans them into runs of firing time and analyses them.

The model covers the pipeline from query to analysis:

- **Querying** (`QueryRequests`, `QuerySplitting`, `QueryRegistry`):
  - a `Query` builds its request parameters from defaults and user options;
  - a request is retried on connection errors, and its answer is accepted or
    replaced by a canned empty result;
  - a query is cut into fixed-size chunks, bisected, or split at a storage
    threshold into a recent part and an hourly-resolution long-term part;
  - the `QueryManager` keeps one `QueryQueue` of numbered `QueryObject`s per uuid.
- **Cleaning** (`DataFilter`, `DataCleaning`):
  - the result files of one queue are merged by metric label set, through a
    metric-to-index map;
  - each series' timestamps are de-duplicated and sorted;
  - consecutive timestamps one step apart are compressed into
    `(start, duration)` runs.
- **Analysis** (`AnalyzingFilter`, `CorrelationAnalysis`, `Analyzer`,
  `DurationAnalysis`):
  - firing alerts are grouped per cluster and alertname;
  - alert runs are sorted and sampled onto a 0/1 grid;
  - the correlation matrix is averaged and turned into a dict per alert;
  - the mean duration per alertname is computed.
- **Configuration** (`Config`): the `[AlertMagnet]` section is parsed field by
  field, with defaults, conversions and the errors each field raises.

Timestamps are whole seconds (`int`). Exceptions the Python code lets escape
are modelled as `Err` values of a `Result`. Objects whose fields the code
updates in place are Dafny classes:

- `Query`, `QueryObject`, `QueryQueue`, `QueryManager`;
- `DataCleaner`, `CorrelationAnalyzer`;
- the config dict, as `ConfigDict`.

Loops are methods proved against recursive specification functions. The
properties of the system are stated as lemmas about those functions.

## Model

| member | source | states |
|---|---|---|
| DataFilter.RemoveStateFromTimestampValue | utilities/data_filter.py:1-28 | a non-list raises TypeError; it succeeds exactly when every sample is a list headed by a float, and then returns each sample's timestamp in order; otherwise the first bad sample decides the error |
| DataFilter.CreateTimeRanges | utilities/data_filter.py:31-73 | a non-list raises TypeError; an empty list gives no runs, a single timestamp gives one run of duration 0, and otherwise the result is the run compression of the list |
| DataFilter.Compress | utilities/data_filter.py:51-71 | the compression is empty exactly when the input is, and it never has more runs than timestamps |
| DataFilter.CompressRoundTrip | utilities/data_filter.py:51-71 | expanding the runs back into timestamps gives the input list, and every duration is a multiple of the step |
| DataFilter.CompressFromExpand | utilities/data_filter.py:56-71 | the runs built from an open run plus the remaining timestamps expand back to that run followed by those timestamps |
| DataFilter.CompressFromGrid | utilities/data_filter.py:56-71 | every run the loop closes has a duration on the step grid |
| DataFilter.CompressMaximal | utilities/data_filter.py:56-69 | no two neighbouring runs could have been merged: the next run never starts one step after the previous ends |
| DataFilter.CompressFromMaximal | utilities/data_filter.py:56-58 | the same maximality holds for the runs built from an open run |
| DataFilter.SpanExtend | utilities/data_filter.py:61-71 | extending a run by one step appends exactly one timestamp to its expansion |
| DataCleaning.DataCleaner.constructor | utilities/data_cleaner.py:13-15 | a new cleaner holds no data and an empty index map |
| DataCleaning.DataCleaner.Reset | utilities/data_cleaner.py:17-19 | resetting clears the data and the index map |
| DataCleaning.IndexMap | utilities/data_cleaner.py:38-41 | the map from the first file has one key per metric, each pointing at a series with that metric, and no more keys than series |
| DataCleaning.IndexMapIndexed | utilities/data_cleaner.py:38-41 | if the first file's metrics are distinct, the map indexes the data exactly: each series' metric maps to its position |
| DataCleaning.Absorb | utilities/data_cleaner.py:76-83 | merging one series keeps every index within the data |
| DataCleaning.AbsorbIndexed | utilities/data_cleaner.py:78-81 | merging a series keeps the index exact: a new metric is appended at index `len(map)`, which is the end of the data |
| DataCleaning.AbsorbAllIndexed | utilities/data_cleaner.py:72-83 | merging a whole file keeps the index exact |
| DataCleaning.AbsorbAllValues | utilities/data_cleaner.py:83 | after merging, a metric's values are its old values followed by the values of every merged series with that metric, in file order |
| DataCleaning.AbsorbAllOrder | utilities/data_cleaner.py:78-81 | after merging, the series are ordered by the first appearance of their metric across the old data and the file |
| DataCleaning.AbsorbAllAppend | utilities/data_cleaner.py:72-83 | merging `a + b` equals merging `a` and then `b` |
| DataCleaning.ConcatValuesAppend | utilities/data_cleaner.py:83 | the values collected for a metric from `a + b` are those from `a` followed by those from `b` |
| DataCleaning.ConcatValuesFirst | utilities/data_cleaner.py:38-41 | with distinct metrics, the staged first file holds for each metric exactly the values the file lists for it |
| DataCleaning.Metrics | utilities/data_cleaner.py:76-81 | the metric keys of the data, one per series, in order |
| DataCleaning.DataCleaner.AssertIndexToMetrics | utilities/data_cleaner.py:71-85 | the loop leaves data and index map equal to merging the results into the old state |
| DataCleaning.StageRest | utilities/data_cleaner.py:43-50 | the loop over the later files never breaks the index bounds |
| DataCleaning.StageRestMerges | utilities/data_cleaner.py:43-50 | when no later file raises, the result is every non-error file's series merged in order, with no exception |
| DataCleaning.StageRestStops | utilities/data_cleaner.py:44-48 | a file without `status` or without `data` raises the KeyError for that key, leaving the files before it merged |
| DataCleaning.DataCleaner.StageFirstFile | utilities/data_cleaner.py:34-41 | the first file becomes the data and its index map the cleaner's map |
| DataCleaning.DataCleaner.MergeLaterFiles | utilities/data_cleaner.py:43-50 | the new state and the raised exception are those of the loop over the later files |
| DataCleaning.Insert | utilities/data_cleaner.py:53 | inserting into a strictly sorted list keeps it strictly sorted and adds exactly that element |
| DataCleaning.SortedSet | utilities/data_cleaner.py:53 | `sorted(set(values))` is strictly increasing and has exactly the elements of the input |
| DataCleaning.DataCleaner.SortValues | utilities/data_cleaner.py:52-53 | every series keeps its metric and has its values replaced by their sorted set; nothing else changes |
| DataCleaning.DataCleaner.CompressValues | utilities/data_cleaner.py:55-56 | one cleaned series per series, with its metric and the run compression of its values |
| DataCleaning.Clean | utilities/data_cleaner.py:52-56 | one cleaned series per input series, each its sorted set compressed |
| DataCleaning.CleanRoundTrip | utilities/data_cleaner.py:52-56 | a cleaned series expands back to exactly the sorted, de-duplicated timestamps of the raw series |
| DataCleaning.StageMerges | utilities/data_cleaner.py:34-50 | with a well-formed first file and no failing later file, the staged store is exactly indexed, holds per metric all values of all files in order, and orders series by the first appearance of their metric |
| DataCleaning.DataCleaner.ClearQueryResults | utilities/data_cleaner.py:21-69 | an exception while staging is returned and the staged state is left behind; otherwise the cleaned series are returned and the cleaner is reset |
| QueryRequests.Override | utilities/query_management.py:382-385 | a user option only replaces a whitelisted parameter and never changes start or end |
| QueryRequests.Restrict | utilities/query_management.py:382-385 | the user options restricted to the keys already visited |
| QueryRequests.OverrideStep | utilities/query_management.py:382-385 | visiting one more user option gives the parameters built from the options visited so far plus that one |
| QueryRequests.OverrideUpdate | utilities/query_management.py:382-385 | overriding a parameter equals building the parameters from the updated option map |
| QueryRequests.HourlyKwargs | utilities/query_management.py:690-699 | the long-term half keeps the target and every other option, and sets step to 3600 and max_source_resolution to 1h |
| QueryRequests.Query.constructor | utilities/query_management.py:184-225 | a missing end is now and a missing start is the maximum past; params are the defaults overridden by the user options and the target defaults to query_range |
| QueryRequests.Query.ParseRequestData | utilities/query_management.py:351-388 | params and target are rebuilt from the window and the options; nothing else changes |
| QueryRequests.Query.SetRequestParameters | utilities/query_management.py:243-252 | sets cert and timeout and nothing else |
| QueryRequests.Query.SetStart | utilities/query_management.py:255-270 | moves the global start and the start parameter together; nothing else changes |
| QueryRequests.Query.SetEnd | utilities/query_management.py:273-288 | moves the global end and the end parameter together; nothing else changes |
| QueryRequests.Query.DeepCopy | utilities/query_management.py:147-148 | a fresh query with every field equal to the original's |
| QueryRequests.ParseRequestResult | utilities/query_management.py:327-349 | an answer with a status is kept unless it is an error other than bad_data; anything else becomes the empty result |
| QueryRequests.ParsedResultIsAccepted | utilities/query_management.py:327-349 | whatever the response, the parsed result has a status and is no error other than bad_data |
| QueryRequests.ExecuteRequest | utilities/query_management.py:299-325 | returns what `Decide` gives: the first outcome among the three attempts that is not a connection error decides, and three connection errors give the empty result; at most three requests are made and every one before the last failed to connect |
| QueryRequests.DecideFromFinal | utilities/query_management.py:299-322 | whichever attempt first meets an answer, a read timeout, a broken chunked encoding or another exception, that outcome decides the result, provided every attempt before it failed to connect |
| QueryRequests.Execute | utilities/query_management.py:227-241 | the retry loop's response is classified by ParseRequestResult and an exception it raised propagates; so the result is always accepted, three connection errors give the empty result, and a first-attempt read timeout or broken chunked encoding gives the exceeded-maximum answer |
| QueryRequests.ParamsOfTestQuery | tests/test_query.py:11-36 | a user step of 3600 overrides the default while the other parameters keep their defaults and the target is query_range |
| QuerySplitting.ChunkBounds | utilities/query_management.py:731-744 | the chunk windows of a query are never empty |
| QuerySplitting.ChunkBoundsTile | utilities/query_management.py:731-744 | the windows tile `[start, end]` end to end; every window but the last is one separator long; the last is non-empty and at most one separator; a short query is one window |
| QuerySplitting.CreateQueryCopy | utilities/query_management.py:748-753 | a fresh query equal to the original except for the new window, moved in params too |
| QuerySplitting.SplitBySeparator | utilities/query_management.py:712-746 | chunk `i` exists exactly for each window and is a fresh copy of the query over window `i` |
| QuerySplitting.Midpoint | utilities/query_management.py:139-143 | the midpoint lies between start and end and splits the span into halves that differ by at most one second |
| QuerySplitting.SplitRequestByHalf | utilities/query_management.py:139-153 | two fresh, distinct copies: the first covers midpoint to end, the second start to midpoint, each with the original's params, base URL, options, target, cert and timeout |
| QuerySplitting.ThresholdCaseAsWritten | utilities/query_management.py:687-708 | the case the code picks: straddling by numbers, old and recent by comparing decimal strings |
| QuerySplitting.ThresholdCaseOf | utilities/query_management.py:687-708 | straddles exactly when start < split < end; otherwise all old exactly when end < split, all recent exactly when split < start, unexpected exactly at a boundary |
| QuerySplitting.ThresholdCaseAsWrittenMisfiles | utilities/query_management.py:703-706 | a window just before a split with one more digit is filed as recent by the code, though it lies entirely before the split |
| QuerySplitting.StrLessDigits | utilities/query_management.py:703-706 | for numbers with the same number of digits, string order is numeric order |
| QuerySplitting.ThresholdCaseAgrees | utilities/query_management.py:703-706 | when start, end and split have equally many digits, the string comparison picks the intended case |
| QuerySplitting.SplitByThreshold | utilities/query_management.py:649-710 | no threshold keeps the query as the recent part; a query straddling the split numerically becomes two new queries on the same base URL, with no cert or timeout: a recent one from the split with the original options and target, and an hourly long-term one up to it with the hourly options and their target; otherwise the decimal strings are compared as written and the query goes whole to the older side, the recent side, or neither |
| QueryRegistry.QueryObject.constructor | utilities/query_management.py:509-513 | a query object records its queue, query and number and has no path yet |
| QueryRegistry.QueryQueue.constructor | utilities/query_management.py:577-580 | a new queue is empty and has no path |
| QueryRegistry.QueryQueue.AddQueryObject | utilities/query_management.py:608-615 | appends the object to the queue |
| QueryRegistry.QueryQueue.AddChunks | utilities/query_management.py:467-469 | appends one fresh object per chunk, numbered by its chunk index and pointing back at this queue, after the existing ones |
| QueryRegistry.QueryManager.constructor | utilities/query_management.py:414-428 | no queues yet; cert, timeout and threshold are stored and the directory defaults to data |
| QueryRegistry.QueryManager.AddQueryQueue | utilities/query_management.py:430-444 | registers a fresh empty queue under the uuid, returns the uuid and leaves the other queues alone |
| QueryRegistry.QueryManager.CreateQueryObjects | utilities/query_management.py:446-469 | an unknown uuid is an error and changes nothing; otherwise that queue gains one fresh query object per chunk window, in order and numbered from 0, and the other queues are unchanged |
| CorrelationAnalysis.CorrelationAnalyzer.constructor | analyzing/correlation_analyzer.py:75-81 | a new analyzer stores the gap and has no alerts and no matrix |
| CorrelationAnalysis.MinIndexUpToIsFirstMin | analyzing/correlation_analyzer.py:145-150 | the index the scan finds has the smallest start, and every earlier index has a strictly larger start |
| CorrelationAnalysis.CorrelationAnalyzer.FindMinIndex | analyzing/correlation_analyzer.py:145-150 | returns the first index with the smallest start |
| CorrelationAnalysis.CorrelationAnalyzer.SortData | analyzing/correlation_analyzer.py:140-155 | empties the input list and returns its selection sort |
| CorrelationAnalysis.SelectionSortSorts | analyzing/correlation_analyzer.py:140-155 | the selection sort is ordered by start and is a permutation of the input |
| CorrelationAnalysis.SelectionSortStable | analyzing/correlation_analyzer.py:147-150 | runs with equal starts keep their input order |
| CorrelationAnalysis.CorrelationAnalyzer.CreateTimeSamplesPerTime | analyzing/correlation_analyzer.py:157-202 | a zero gap raises ZeroDivisionError; otherwise one 0/1 sample per grid point from start to end, none when start > end, all zero without runs, and a 1 only at points some run covers |
| CorrelationAnalysis.CorrelationAnalyzer.SampleRange | analyzing/correlation_analyzer.py:165-187 | sampling around one run keeps samples on the grid and ones covered |
| CorrelationAnalysis.CorrelationAnalyzer.SampleZeros | analyzing/correlation_analyzer.py:167-177 | the zeros before a run keep the invariant and reach the run's start or the end |
| CorrelationAnalysis.CorrelationAnalyzer.SampleOnes | analyzing/correlation_analyzer.py:179-187 | the ones inside a run are at points that run covers |
| CorrelationAnalysis.CorrelationAnalyzer.SampleTail | analyzing/correlation_analyzer.py:189-200 | the tail pads with zeros up to exactly one sample per grid point and keeps the earlier samples |
| CorrelationAnalysis.CorrelationAnalyzer.Run | analyzing/correlation_analyzer.py:172-177 | appends `k` copies of the value, advancing one gap each, stopping at the count or before the limit |
| CorrelationAnalysis.GridPointsCount | analyzing/correlation_analyzer.py:189-200 | the grid from lo to hi has `(hi - lo) / gap + 1` points |
| CorrelationAnalysis.CeilSteps | analyzing/correlation_analyzer.py:168-170 | the rounded-up step count covers the whole distance |
| CorrelationAnalysis.ZeroRows | analyzing/correlation_analyzer.py:209-210 | an n-by-n matrix of zero accumulators |
| CorrelationAnalysis.CorrelationAnalyzer.InitCoefficientMatrix | analyzing/correlation_analyzer.py:209-210 | appends one zero row per alert, each as wide as the alert list |
| CorrelationAnalysis.Average | analyzing/correlation_analyzer.py:250-254 | the average times the count is the sum, and an empty accumulator averages to 0 |
| CorrelationAnalysis.CorrelationAnalyzer.CalcMatrixResults | analyzing/correlation_analyzer.py:246-254 | every cell is replaced by its average and the matrix keeps its shape |
| Analyzer.FillRow | analyzing/analyzer.py:116-121 | the inner loop returns the row's dict or the IndexError it raises |
| Analyzer.CreateAlertCorrelationList | analyzing/analyzer.py:112-121 | the outer loop returns the per-alert dicts or the first error |
| Analyzer.RowEntriesSpec | analyzing/analyzer.py:116-121 | a row raises exactly when a kept coefficient lies past the alert list; otherwise its keys are the alerts of the kept off-diagonal columns, each with the coefficient of its last such column |
| Analyzer.RowEntriesDistinct | analyzing/analyzer.py:117-121 | with distinct alerts, a row never names its own alert, names exactly the others with a non-negative coefficient, and maps each to it |
| Analyzer.CorrelationsOk | analyzing/analyzer.py:114-121 | the outer loop succeeds exactly when the matrix has a row per alert and no row raises |
| Analyzer.CorrelationsKeys | analyzing/analyzer.py:114-115 | the result has exactly one key per alert |
| Analyzer.CorrelationsRows | analyzing/analyzer.py:114-121 | an alert's dict is the row of its last occurrence |
| Analyzer.CorrelationsDistinct | analyzing/analyzer.py:112-121 | with distinct alerts, alert i's dict lists alert j exactly when i != j and the coefficient is non-negative, with that coefficient |
| AnalyzingFilter.FilterData | analyzing/analyzing_filter.py:26-45 | the loop returns the grouped dict or the KeyError it raises, and an empty input gives an empty dict |
| AnalyzingFilter.FilterWithoutPending | analyzing/analyzing_filter.py:29-30 | pending alerts make no difference to the result |
| AnalyzingFilter.FilterFirstMissing | analyzing/analyzing_filter.py:29-33 | when the loop has not raised before it, an alert missing a label the loop looks up (alertstate; cluster or alertname only if not pending) raises the KeyError for that label |
| AnalyzingFilter.FilterClusters | analyzing/analyzing_filter.py:32-38 | without a name clash the loop succeeds and has one key per cluster of a firing alert |
| AnalyzingFilter.FilterPairs | analyzing/analyzing_filter.py:35-41 | without a clash each cluster maps exactly the alertnames firing in it |
| AnalyzingFilter.FilterLastValues | analyzing/analyzing_filter.py:35-43 | as written, each pair holds the values of its last firing alert only |
| AnalyzingFilter.FilterLastWins | analyzing/analyzing_filter.py:26-45 | as written, the result maps each pair to the values of its last alert |
| AnalyzingFilter.FilterKeepsOnlyLast | analyzing/analyzing_filter.py:35-43 | two firing DiskFull alerts in one cluster keep only the second alert's values |
| AnalyzingFilter.FilterClashRaises | analyzing/analyzing_filter.py:35-43 | an example: an alertname equal to an earlier alert's cluster, in a cluster that does not yet hold that alertname, raises KeyError |
| AnalyzingFilter.GroupAllConcat | analyzing/analyzing_filter.py:26-45 | the intended grouping never raises on complete alerts and maps each pair to the values of all its firing alerts, in order |
| AnalyzingFilter.GroupKeepsBoth | analyzing/analyzing_filter.py:35-43 | the intended grouping keeps both DiskFull alerts' values |
| DurationAnalysis.CollectDurations | analyzing/duration_analyzer.py:59-64 | a series without alertname raises KeyError; otherwise returns the alertnames in first-appearance order with their pooled durations |
| DurationAnalysis.AppendDurations | analyzing/duration_analyzer.py:63-64 | appends the duration of every run, in order |
| DurationAnalysis.CollectOrder | analyzing/duration_analyzer.py:59-61 | the dict has one key per alertname, ordered by first appearance |
| DurationAnalysis.CollectPools | analyzing/duration_analyzer.py:60-64 | each alertname holds the durations of all its series, in order |
| DurationAnalysis.AverageDurations | analyzing/duration_analyzer.py:66-68 | raises ZeroDivisionError exactly when some alertname has no durations; otherwise maps each alertname to its mean |
| DurationAnalysis.CalcMeanDurationPerAlertname | analyzing/duration_analyzer.py:56-70 | a missing alertname raises KeyError; an alertname without runs raises ZeroDivisionError; otherwise each alertname maps to the mean of all its durations, in first-appearance order |
| DurationAnalysis.PooledAppend | analyzing/duration_analyzer.py:59-64 | the durations pooled from two groups of series are those of the first group followed by those of the second |
| DurationAnalysis.MeanConcat | analyzing/duration_analyzer.py:67 | the mean of two joined lists is the weighted mean of their means, each weighted by its length |
| DurationAnalysis.MeanPooled | analyzing/duration_analyzer.py:59-68 | the mean an alertname gets from two groups of series is the weighted mean of the two groups' means, each weighted by its number of durations |
| DurationAnalysis.MeanBounds | analyzing/duration_analyzer.py:67 | the mean lies between the smallest and largest bound of the durations |
| DurationAnalysis.SumBounds | analyzing/duration_analyzer.py:67 | the sum of values in `[lo, hi]` is between `n * lo` and `n * hi` |
| Config.ConfigDict.constructor | utilities/config.py:31 | the dict holds the section's entries |
| Config.ConfigDict.ParseConfig | utilities/config.py:38-96 | the dict and the raised error are those of visiting the fields in order |
| Config.ConfigDict.ParseField | utilities/config.py:39-96 | one field's block rewrites that field, or raises and leaves the dict unchanged |
| Config.Convert | utilities/config.py:40-93 | a converted value fits its field; it fails exactly for an empty endpoint, a non-numeric int or float, or an unknown log level; an empty optional field takes its default |
| Config.Step | utilities/config.py:38-96 | a missing field raises KeyError for it; on success only that field changes, to a fitting value |
| Config.ParseAll | utilities/config.py:38-96 | the dict keeps its keys and fields outside the table are untouched |
| Config.ParseAllSpec | utilities/config.py:38-96 | the first failing field's error is raised; the fields before it are converted and those after it are untouched |
| Config.ParseAllFits | utilities/config.py:38-93 | when nothing is raised, every field holds a value of its kind |
| Config.EmptyEndpoint | utilities/config.py:40-41 | an empty api_endpoint raises RequiredConfigKeyNotFound before anything changes |
| Config.MissingFieldRaises | utilities/config.py:95-96 | a missing field makes parsing raise, by the time that field is reached |
| Config.LowerIsTrue | utilities/config.py:76-79 | log_to_file is on exactly for "true" in any letter case |
| Config.ParseIntShow | utilities/config.py:46 | `int(str(n)) == n` |
| Config.ParseFloatShow | utilities/config.py:56 | `float(str(n)) == n` for natural n |
| Config.ParseFloatNegate | utilities/config.py:56 | a leading minus negates the parsed float |
| Config.RulesDistinct | utilities/config.py:38-93 | every field is visited once |

## Left out

- Network, file and process I/O are not modelled: HTTP requests, JSON files, directories, the logger, the Prometheus exporter, semaphores and multiprocessing. HTTP outcomes are a parameter sequence of attempts; file contents are parameters.
- Clocks and uuids are parameters (`now`, the maximum past, the queue id).
- execute_query, `__handle_query_result`, create_environments and schedule_queries are not modelled. They orchestrate threads, files and directories around the modelled operations.
- QuerySplitting.Midpoint: the source computes the midpoint as a float; the model rounds it to whole seconds.
- QuerySplitting.SplitBySeparator: requires a positive separator. In the source a zero separator loops forever when start is before end and otherwise returns one chunk; a negative separator moves `end` backwards until datetime arithmetic raises OverflowError. Neither case is modelled.
- QuerySplitting.SplitByThreshold: start and end are always present whole seconds, and the compared strings are their decimal renderings. `None` windows are not modelled. The split instant is `str` of a float in the source, with a fractional part; the model takes whole seconds. When start or end is a number rather than a string, lines 703 and 705 compare a string with a number and raise TypeError; that case is not modelled.
- QueryRegistry.QueryManager.CreateQueryObjects: the queue's back-reference to its manager and aliasing between managers are not modelled.
- DataCleaning.DataCleaner.ClearQueryResults: requires an idle cleaner (empty index map). The stale state an earlier exception leaves behind is not modelled.
- DataCleaning.DataCleaner.CompressValues: returns the compressed series rather than storing them back into the data.
- DataCleaning.IndexMapIndexed: the exact index is proved only when the first file's label sets are distinct, which Prometheus guarantees.
- Series without `metric` or `values` keys are not modelled; each series has both.
- CorrelationAnalysis.CorrelationAnalyzer.CreateTimeSamplesPerTime: proves that every 1 lies in some run, not that every covered point is sampled as 1. It requires a non-negative gap: with a negative gap the source's floor divisions and empty ranges produce some list of samples, which is not modelled.
- QueryRequests.ParseRequestResult: a body that decodes to JSON but not to an object (a list, null, a string) makes the status lookup raise TypeError, which propagates; the payload type has no such case.
- QueryRequests.Query.constructor: the `path` attribute that query_management.py:191 sets to None is not modelled as a field of Query; no modelled operation reads or changes it.
- CorrelationAnalysis.CorrelationAnalyzer.CalcMatrixResults: requires every cell still to be an accumulator.
- The pandas correlation coefficients and the parallel matrix computation are not modelled. They are floating point computed by a foreign library.
- Floating point is modelled as exact reals, and timestamps and durations as whole seconds; daylight-saving conversions are not modelled.
- Config.ParseInt: `int()` is simplified to an optional sign and decimal digits; whitespace, underscores and other Unicode digits are not accepted.
- Config.ParseFloat: `float()` is simplified to sign, digits and one decimal point; exponents, inf and nan are not accepted.
- Config.ParseFloatShow: stated for natural numbers; Config.ParseFloatNegate covers the sign.
- Config.Lower: folds ASCII letters only.
- Config.ConfigDict.ParseConfig: requires every value to be a string, as ConfigParser delivers them. The field blocks are driven by a table of rules visited in source order.
- load_config is not modelled: it checks that the file exists and reads it.
- DataFilter.CreateTimeRanges: follows the code where tests/test_filter.py:72-80 disagrees with it. That test expects a repeated timestamp to stay inside one run. The code closes the run at the repeat. In the pipeline the repeats are removed before compression, so the difference does not arise there.

## Findings

| source | as written | input that shows it | evidently intended | confidence | as-written member | corrected member |
|---|---|---|---|---|---|---|
| utilities/query_management.py:703-706 | the all-old and all-recent cases compare `str(end) < str(split)` and `str(split) < str(start)` as strings | start=900000000, end=999999999, split=1000000000: the window lies before the split but is filed as recent | numeric comparison of the timestamps | not executed | QuerySplitting.ThresholdCaseAsWrittenMisfiles | QuerySplitting.ThresholdCaseOf |
| analyzing/analyzing_filter.py:35-43 | the pair is reset when the alertname is not a key of the outer dict, which it normally never is, so each alert replaces the values collected before it | two firing DiskFull alerts in cluster eu-1 keep only the second alert's values; an alertname "eu-1" in cluster us-1 raises KeyError | check the alertname within its cluster and extend the pair's list | not executed | AnalyzingFilter.FilterKeepsOnlyLast | AnalyzingFilter.GroupAllConcat |
