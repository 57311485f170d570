# A model of the OTEL tail sampler

The sampler receives OpenTelemetry traces, metrics and logs, writes them to a
write-ahead log, holds them in an evicting cache, and gossips sampling decisions
between nodes. Sampled traces leave with the metrics and logs of their window;
everything else leaves as a rollup. This project models that path and proves what
it keeps and what it loses.

Where the source loops and updates, the model has methods with loops and classes
with fields; every method is tied to a function on plain values, and the theorems
are about those functions and about runs of steps made of them.

| files | what they hold |
|---|---|
| `Keyed`, `Absorb`, `Measure`, `Subsequence` | keyed tables with a lookup map, nested tables, weights, subsequences: the shapes the rollup and the ledgers share |
| `Pdata`, `Filter`, `Keys`, `Identity`, `Traversal` | telemetry values, attribute filtering, what the text keys tell apart, trace identifiers as text, walking a batch |
| `MetricRollup`, `LogRollup`, `Rollup` | the in-place merges and the rollup processor |
| `MetricTheorems`, `Headlines`, `MixedTotals`, `MetricComposition`, `LogTheorems`, `LogComposition` | what a rollup means, composes to and conserves, and what it does not |
| `Live`, `TimeIndex`, `Buffer`, `Splitting` | the buffer as plain lists, its index, the class with cache, maps, index and callback, and where the parts of a batch land |
| `Gossip`, `Engine` | bounded channels and messages; policies and decisions |
| `Sampler`, `Processor`, `Server`, `Node` | one node as a state machine, and the classes that take its steps |
| `Windows`, `SignalLedger`, `ValueLedger`, `Overflow`, `LateArrivals` | what each step takes and sends, and where metrics and untraced logs are over whole runs |
| `Landing` | what a store adds, and that over whole runs the ledgers hold exactly what was received |
| `Spans`, `TraceLedger`, `TraceLogs` | the same for the spans and logs of a trace |
| `Cluster`, `Delivery` | many nodes and a lossy network, and how a decision gets from a batch to an export |
| `Wal`, `Recovery`, `Restarts`, `LoadControl` | the log; crashes; load triggers |

## What is proved

- Every stored metric signal and untraced log signal is, in every reachable state,
  in exactly one of: buffered, queued for the evicted list, dropped on a full
  channel, in an evicted list, exported raw, exported in one rollup; and the values
  and counts in those signals add up across all of them, rolled up or not. How many
  are dropped is exact, and none is if and only if the channel always had room.
- Every span and log record stored for a trace is exported or thrown away by a
  decision, lost with an evicted entry, or buffered; nothing is lost if and only if
  nothing was buffered whenever the entry was pushed out.
- What the ledgers count as stored is exactly what was received and written: metrics as
  they came, and spans and records with their resources and scopes, in order.
- A rollup is a flat group-by in order of first occurrence, conserves values and
  counts, composes with itself exactly, and ends the process exactly when a sum or
  gauge meets another type under its name. At Fine it sends what it takes as it is. The
  text keys under which things are grouped tell apart exactly what is said of them.
- Over every run of a cluster whose network loses, duplicates and reorders
  messages, no node exports a stored span twice, and a trace leaves a node only
  after some node consumed a batch that met a policy and named that trace first.
- A batch that meets a policy puts its decision last in the node's channel, decisions are
  taken in the order in which they came, and taking one sends what is buffered of its
  trace, on the node itself and on every peer that the message reaches.
- The buffer's cache, key maps and time indices always describe one sorted list;
  range reads and removals are exact.
- The buffered spans of a trace and those a replay would bring back are suffixes of
  what the log acknowledged for it, through crashes and truncations. With stale
  writes and spoiled records they still come from it in order, and a run with r
  restarts exports each acknowledged span at most r + 1 times.
- The turns of the classes put together as one node are the moves of the cluster
  that the theorems speak about.

## Where the source does less than it says

- The repository's `README.md` promises that evicted data is rolled up rather than
  dropped; a full channel drops it. `Overflow` has a legal run that drops
  (`ALegalRunDrops`) and says exactly when a write and a whole run drop nothing
  (`WriteDropsNothingIffRoom`, `NothingDroppedIffAlwaysRoom`). Evicted traces are
  never rolled up; their loss is counted in `TraceLedger`.
- Sampled traces are to leave with their logs. `processor.go` removes the shared
  entry before it looks for the logs, so they leave exactly when the entry holds no
  spans, and then once for every duplicate of the decision
  (`LogsGoOutOnlyWithoutSpans`, `DuplicateDecisionIsHarmless`,
  `ARecordGoesOutOncePerDecision`).
- A decision's window is five seconds wider than the event on both sides, unless a
  bound wraps around 64 bits (`DecisionTakesItsWindow`).
- Resource, scope and attribute keys run text together: attributes whose values hold the
  separators, and scopes whose name and version share a boundary, can be taken for
  others (`AttrsRunTogether`, `ScopesRunTogether`).
- `TruncateBefore` fails, and keeps everything, when every record is old enough to
  go (`TruncationIsExact`).
- The trace count that the load monitor reads counts every cache entry
  (`GetTraceCount`).
- Rolled-up logs that are rolled up again count the rolled-up rows, not the records
  behind them (`RerolledLogsCountRows`).
- A metric rollup of mixed value types totals only the last run of the later type;
  `MixedTotals` says exactly which totals are right (`TotalCountsEveryPointIff`,
  `TypesCountIffSettled`, `MixedPointsLose`).

## Model

| member | source | states |
|---|---|---|
| Keyed.RebuiltMapIsCarriedMap | internal/rollup/rollup.go:78-127 | building the lookup map anew from the destination at every call gives the destination and the map that one call over all items would have given |
| Keyed.TableIsGroupBy | internal/rollup/rollup.go:154-185 | a merged destination has one row per distinct key, in order of first occurrence, each the left-to-right merge of the items of its key |
| Keyed.DistinctIsFirstOccurrences | internal/rollup/rollup.go:62-69 | the order of the rows is the order in which their keys first occur in the input |
| Absorb.MergeOfMerge | internal/rollup/rollup.go:154-185 | merging rows that are themselves a merge result equals merging what went into them |
| Nest.PickCommutes | internal/rollup/rollup.go:78-101 | what the output files under one key is the rollup, one level down, of all that the input files under it |
| Nest.HeadsAreFirst | internal/rollup/rollup.go:64-69 | the resource or scope copied to the output is the first of its key |
| Measure.TotalIsConserved | internal/rollup/rollup.go:164-184 | if starting and merging rows conserve a weight, so does the whole merge |
| Int64.CongruentMeansSameBits | internal/rollup/rollup.go:173 | two totals are congruent exactly when they are the same 64-bit integer |
| Pdata.ConcatPlaces | internal/processor/processor.go:178-182 | everything in a concatenation of batches is at the place that the lengths before it give, and there is nothing else |
| Filter.AttrKeyOf | internal/rollup/rollup.go:187-194 | the loop over attributes computes the attribute key |
| Filter.FilterAttributesKey | internal/rollup/rollup.go:196-215 | the loop computes the key of the allowed attributes, and the empty key at Coarse |
| Filter.ApplyFilteredAttributes | internal/rollup/rollup.go:217-232 | the loop of puts yields the filtered attributes, none at Coarse |
| Filter.KeysAgree | internal/rollup/rollup.go:158-182 | re-indexing a row finds the group its first point was filed under if and only if no allowed attribute is repeated, or the level is Coarse |
| Filter.FilteringIsIdempotent | internal/rollup/rollup.go:196-232 | filtering twice, at the same level or then at Coarse, is filtering once, for attributes and for keys |
| Keys.DecimalReadsBack | internal/rollup/rollup.go:454 | a number printed in decimal is read back |
| Keys.StringForms | internal/rollup/rollup.go:190 | the string form of text is the text, of an integer its decimal, of a truth value true or false |
| Keys.AttrKeysTellApart | internal/rollup/rollup.go:187-194 | for keys without = and string forms without ;, two attribute keys are equal if and only if the lists have the same keys and string forms in order |
| Keys.AttrsRunTogether | internal/rollup/rollup.go:187-194 | a value that holds the separators makes one attribute look like two |
| Keys.FilterKeysTellApart | internal/rollup/rollup.go:196-215 | for string forms without ;, points are filed together if and only if the level is Coarse or their http.method, http.status_code and error entries have the same keys and string forms in order |
| Keys.RowsCarryTheThree | internal/rollup/rollup.go:217-232 | a row carries each of the three attributes once, with the last value its point has for it, and no other; none at Coarse |
| Keys.ScopeKeysTellApart | internal/rollup/rollup.go:234-236 | two scopes get one key if and only if moving the boundary between name and version makes them the same |
| Keys.ScopesRunTogether | internal/rollup/rollup.go:234-236 | a scope ab of version c and a scope a of version bc are taken for one |
| Keys.LogKeysTellApart | internal/rollup/rollup.go:442-456 | two records are counted together if and only if their severities are equal and their bodies are equal or, at Coarse, both longer than twenty with the same first twenty |
| MetricRollup.RollupDataPoints | internal/rollup/rollup.go:154-185 | the in-place loop over points leaves the destination that the keyed merge of those points prescribes |
| MetricRollup.RollupMetricData | internal/rollup/rollup.go:129-152 | sums and gauges merge, other types keep the first; an accessor of another type is the only failure |
| MetricRollup.MergeMetricsList | internal/rollup/rollup.go:103-127 | the loop over metrics leaves the merge by name, or fails exactly when that merge holds a crash mark |
| MetricRollup.MergeScopeMetrics | internal/rollup/rollup.go:78-101 | the loop over scopes leaves the merge by scope key, or fails |
| MetricRollup.MergeSignal | internal/rollup/rollup.go:58-73 | one signal's resources are put into the carried destination and map, or the process ends |
| MetricTheorems.PointsKeep | internal/rollup/rollup.go:154-185 | points without repeated allowed attributes are indexed under the key they came in with, before and after a merge |
| MetricTheorems.ScopesKeep | internal/rollup/rollup.go:78-101 | destination scopes and metric names stay unique, and merging moves none of them |
| MetricTheorems.MetricsCommute | internal/rollup/rollup.go:43-127 | the metrics the output holds for a resource and scope key are the merge of those the input holds for it |
| MetricTheorems.NamedCommutes | internal/rollup/rollup.go:103-152 | the points the output holds under a name are the merge of all points the input holds under it |
| MetricTheorems.RollupIsFlatGroupBy | internal/rollup/rollup.go:43-185 | one output point per distinct resource key, scope key, name and filtered attribute key, first occurrences first at every level, each its group's first point with the group's total |
| MetricTheorems.FirstResourcesAndScopes | internal/rollup/rollup.go:64-97 | each output resource and scope is the first of its key in the input |
| MetricTheorems.ShapesAreFirst | internal/rollup/rollup.go:129-152 | each output metric has the type, monotonicity and temporality of the first typed metric of its name, and is that metric's data when it is neither sum nor gauge |
| Headlines.HeadlinesAreFirst | internal/rollup/rollup.go:112-151 | each output metric carries the name, description and unit of the first of its name, or of the last without a type before one with a type, or of the first with a type when that is neither sum nor gauge |
| MetricTheorems.CrashesExactlyOnClash | internal/rollup/rollup.go:129-145 | a rollup ends the process if and only if, under some resource, scope and name, a sum or gauge follows a metric of another type |
| MetricTheorems.TotalIsLastRun | internal/rollup/rollup.go:170-176 | when a group ends in integers its total is the wrapped sum of the last run of integer points; points of the other type before it do not count |
| MixedTotals.TotalIsLastRunOfDoubles | internal/rollup/rollup.go:170-176 | when it ends in doubles, the total is the sum of the points after the last integer |
| MixedTotals.TotalCountsEveryPointIff | internal/rollup/rollup.go:170-176 | for all points: the total counts every integer and every double if and only if what comes before the last run adds up to nothing |
| MixedTotals.IntegerTotalCountsIntegersIff | internal/rollup/rollup.go:170-176 | for a group that ends in integers: the total is that of all its integers if and only if those before the last run are congruent to nothing |
| MixedTotals.TypesCountIffSettled | internal/rollup/rollup.go:170-176 | by the value types alone: for all values of these types the total counts every point, if and only if no integer comes before a point that is not one and no double before an integer |
| MixedTotals.SettledMeansOneType | internal/rollup/rollup.go:170-176 | among points that all have a value, that condition is that they share one value type |
| MixedTotals.MixedPointsLose | internal/rollup/rollup.go:170-176 | an integer five and a double two under one key total two |
| MixedTotals.RolledUpPointsCountIff | internal/rollup/rollup.go:43-185 | in a whole rollup, each output point counts its group if and only if that condition holds of the group, for attributes without repeats |
| MetricComposition.RollupComposes | internal/rollup/rollup.go:43-232 | for integer points, the rollup of two rollups, at one level or then at Coarse, is the rollup of the concatenated inputs, and Coarse of Medium is Coarse: same groups, order, copied fields and values |
| MetricComposition.RollupConserves | internal/rollup/rollup.go:43-185 | under every resource key, scope key and name the output weighs what the input weighs, as 64-bit integers |
| LogRollup.RollupLogRecords | internal/rollup/rollup.go:366-438 | the in-place loop over records leaves the keyed merge with its running counts |
| LogRollup.MergeScopeLogs | internal/rollup/rollup.go:320-362 | the loop over scopes leaves the merge by scope key |
| LogTheorems.LogsKeep | internal/rollup/rollup.go:402-412 | every row of a log rollup carries an integer count, so the branch for a missing count is never taken |
| LogTheorems.LogRollupIsCountedGroupBy | internal/rollup/rollup.go:256-456 | one record per distinct resource key, scope key and log key, first occurrences first; it is the first of its group, without the attributes a Coarse rollup strips, and its count is the size of the group |
| LogTheorems.FirstLogResourcesAndScopes | internal/rollup/rollup.go:292-354 | each output resource and scope is the first of its key in the input |
| LogTheorems.LogRollupConservesCounts | internal/rollup/rollup.go:366-438 | the counts under a resource and scope key add up to the number of input records there |
| LogTheorems.RerollingRestartsCounts | internal/rollup/rollup.go:414-420 | rolling up a rollup at the same level sets every count to one, which keeps a count if and only if its group had one record |
| LogComposition.KeysRefine | internal/rollup/rollup.go:442-456 | records with one key at a level have one key at every coarser level |
| LogComposition.CountsUnderKey | internal/rollup/rollup.go:366-438 | the counts of a rollup's rows under a coarser key add up to the input records under that key |
| LogComposition.RerolledCounts | internal/rollup/rollup.go:366-438 | rolling up a rollup at the same level or at Coarse gives the groups of the direct rollup, each count being the number of rows merged; it is the direct count if and only if the counts of those rows add up to their number, modulo 2^64 |
| LogComposition.RerolledLogsCountRows | internal/rollup/rollup.go:256-456 | the same for whole rollups of records without repeated attributes, under every resource and scope key |
| Rollup.Processor.SetLevel | internal/rollup/rollup.go:37-41 | the level becomes the one asked for |
| Rollup.Processor.RollupMetrics | internal/rollup/rollup.go:43-76 | at Fine or when disabled returns the concatenation for every input and never ends the process, otherwise merges everything or ends the process |
| Rollup.Processor.RollupLogs | internal/rollup/rollup.go:256-316 | at Fine or when disabled returns the concatenation, otherwise merges everything |
| Rollup.Processor.MergeMetrics | internal/rollup/rollup.go:238-250 | the contents of all signals, in order |
| Rollup.Processor.MergeLogs | internal/rollup/rollup.go:460-472 | the contents of all signals, in order |
| Identity.IDRoundTrip | internal/processor/processor.go:134-140 | printing a trace identifier in hexadecimal and parsing it gives the same 16 bytes |
| Identity.ReadableIDs | internal/processor/processor.go:134-138 | text is read as an identifier if and only if it is 32 hexadecimal digits, of either case, and the case does not matter |
| Identity.HexIsInjective | internal/buffer/buffer.go:251 | different traces have different cache keys |
| Identity.TraceKeysStandApart | internal/buffer/buffer.go:151-165 | a trace key never starts like the key of a metric or an untraced log |
| Live.LessIsStrictOrder | internal/buffer/buffer.go:69-75 | the order of time keys is a strict total order |
| Live.LessIsByTimeThenText | internal/buffer/buffer.go:69-75 | earlier instants come first, and within an instant the dictionary decides |
| TimeIndex.AscendRangeIsWindow | internal/buffer/buffer.go:426 | the half-open bounds given to the index select exactly the closed time window up to the bound as the wrapped addition reads it |
| TimeIndex.UptoIsItself | internal/buffer/buffer.go:426 | that is the bound itself if and only if adding one to it does not wrap |
| TimeIndex.JoinedIsSortedListing | internal/buffer/buffer.go:87-93 | index, key map and cache together list every live entry once, by time and then key |
| TimeIndex.RemoveFromIndex | internal/buffer/buffer.go:155-164 | the callback's repair removes exactly the entry of the removed key and keeps index and map in agreement |
| TimeIndex.AddToIndex | internal/buffer/buffer.go:368-372 | a store inserts its entry at its place in the list and keeps index and map in agreement |
| Buffer.InMemoryBuffer.constructor | internal/buffer/buffer.go:106-135 | a new buffer is valid and empty |
| Buffer.InMemoryBuffer.OnCacheEvictionWithReason | internal/buffer/buffer.go:147-194 | restores the agreement of cache, map and index that the removal broke; an eviction passes metrics and logs on or drops them when the channel is full, a deletion passes nothing on |
| Buffer.InMemoryBuffer.Remove | internal/buffer/buffer.go:416-419 | a removed key leaves the list it is in and no other |
| Buffer.InMemoryBuffer.MakeRoomFor | internal/buffer/buffer.go:167-189 | the evictions of one write, in order, never of the key written |
| Buffer.InMemoryBuffer.StoreMetric | internal/buffer/buffer.go:360-376 | the metric is inserted into the sorted list exactly when its write succeeds |
| Buffer.InMemoryBuffer.StoreTimeLogs | internal/buffer/buffer.go:343-356 | the untraced logs are inserted into the sorted list exactly when their write succeeds |
| Buffer.InMemoryBuffer.GetMetricsInRange | internal/buffer/buffer.go:421-441 | returns what a scan of the plain list from start up to the wrapped end returns, in order, each with its time of receipt |
| Buffer.InMemoryBuffer.GetLogsInRange | internal/buffer/buffer.go:443-463 | the same for untraced logs |
| Buffer.InMemoryBuffer.RemoveMetricsInRange | internal/buffer/buffer.go:465-477 | removes exactly what a read with the same bounds returns; other metrics, all logs and all traces stay |
| Buffer.InMemoryBuffer.RemoveLogsInRange | internal/buffer/buffer.go:479-491 | the same for untraced logs |
| Buffer.InMemoryBuffer.GetTrace | internal/buffer/buffer.go:378-393 | found exactly when the trace's entry has spans, with the entry's time of receipt |
| Buffer.InMemoryBuffer.GetTraceLogs | internal/buffer/buffer.go:395-410 | found exactly when the trace's entry has logs, with the entry's time of receipt |
| Buffer.InMemoryBuffer.GetTraceCount | internal/buffer/buffer.go:412-414 | counts live metrics, untraced logs and traces together |
| Buffer.InMemoryBuffer.RemoveTrace | internal/buffer/buffer.go:416-419 | removes the trace's entry and touches neither index |
| Buffer.InMemoryBuffer.StoreTraces | internal/buffer/buffer.go:219-275 | each trace of the batch gets its spans appended to its entry, one write a trace, in the order the splitting map is walked |
| Buffer.InMemoryBuffer.StoreSplitLogs | internal/buffer/buffer.go:277-358 | records with a trace join its entry, the others become one indexed signal |
| Buffer.InMemoryBuffer.Store | internal/buffer/buffer.go:206-217 | each kind of signal is stored as its own method stores it |
| Buffer.InMemoryBuffer.LanesApart | internal/buffer/buffer.go:87-93 | in every valid state the lists are sorted listings of what is cached and no key is in two places |
| Traversal.EveryItemHasItsPlace | internal/buffer/buffer.go:226-236 | walking a batch visits each item, with its resource and scope, at the place that the sizes before it give, and nothing else |
| Buffer.SplitSpans | internal/buffer/buffer.go:224-248 | the splitting map holds each non-empty trace identifier mentioned, and read row by row its spans are exactly the batch's spans of that trace, in order, with their resources and scopes |
| Buffer.SplitLogs | internal/buffer/buffer.go:283-318 | the same for records, and read row by row the untraced logs are exactly the records without a trace, in order |
| Traversal.RowsOfFiled | internal/buffer/buffer.go:237-247 | what is filed for a trace is, row by row, the batch's items of that trace, with resource and scope |
| Splitting.SpansLand | internal/buffer/buffer.go:250-273 | the entry of a mentioned trace gains exactly its spans, and keeps its logs and its time of receipt, whenever its own write succeeds and no other pushes it out; the entry of a trace not mentioned stays unless pushed out |
| Splitting.SpanRowsLand | internal/buffer/buffer.go:250-273 | row by row: the entry's spans are those it had and then the batch's spans of the trace with their resources and scopes; an old entry keeps its time of receipt and its logs, a new one is received now |
| Splitting.LogsLand | internal/buffer/buffer.go:320-341 | the entry of a mentioned trace gains exactly its records and keeps its spans, whenever its own write succeeds and no other pushes it out |
| Splitting.LogRowsLand | internal/buffer/buffer.go:320-341 | row by row, the same for logs |
| Splitting.SpansAgreeAt | internal/buffer/buffer.go:250 | two walks of the splitting map leave the same entry for each trace that both spare, whatever they do to others |
| Splitting.SpansAgree | internal/buffer/buffer.go:250 | if no write pushes anything out or fails, the order in which the splitting map is walked does not show in the result at all |
| Splitting.SplitOrderDoesNotMatterTo | internal/buffer/buffer.go:320-356 | for a whole batch of logs, the order does not show in the entry of a trace that both walks and the write of the untraced records spare |
| Splitting.SplitOrderDoesNotMatter | internal/buffer/buffer.go:320 | if no trace write pushes anything out or fails, it does not show at all |
| Splitting.NothingLostInSplitting | internal/buffer/buffer.go:283-318 | every item of a batch is filed once: under one trace, or among those without |
| Landing.MetricLands | internal/buffer/buffer.go:360-376 | a metric whose write succeeds is one more entry under its key and instant and one more signal in the ledger; what the write pushes out leaves the lists, and nothing else changes |
| Landing.LogBatchLands | internal/buffer/buffer.go:277-358 | a log batch with untraced records whose write succeeds adds one entry, under its key and instant, whose rows are those records in order, and that signal to the ledger; otherwise it adds none; what its writes push out leaves |
| Landing.EvictedIsPassedOn | internal/buffer/buffer.go:167-189 | an evicted metric or untraced log is, as it was stored, last in the channel, or dropped when 1000 are waiting |
| Landing.MetricsAreDated | internal/buffer/buffer.go:366-372 | a stored metric is listed at the time the clock gave |
| Landing.LogsAreDated | internal/buffer/buffer.go:346-352 | so are stored untraced records |
| Landing.KeysTellApart | internal/buffer/buffer.go:347 | keys made of the time and a fresh identifier are equal if and only if both parts are |
| Landing.StoredIsReceived | internal/buffer/buffer.go:277-376 | over every run, what the ledger counts as stored is, in order, the received metrics and untraced records whose write succeeded |
| Landing.HistoriesAreReceived | internal/buffer/buffer.go:219-341 | over every run, the histories of a trace are, row by row, the spans and records received for it whose write succeeded |
| Gossip.Manager.BroadcastDecision | internal/gossip/gossip.go:97-132 | the message is last in the queue for the peers, and with fewer than 100 decisions waiting the decision is last in the own channel; with 100 it is not heard |
| Gossip.Manager.BroadcastTrigger | internal/gossip/gossip.go:134-165 | the same for triggers, in their own channel |
| Gossip.Manager.NotifyMsg | internal/gossip/gossip.go:173-222 | a readable decision or trigger is last in its channel unless 100 are waiting; empty, unreadable and unknown messages change nothing |
| Engine.Engine.CheckError | internal/decision/engine.go:62-79 | some span of the batch is an error |
| Engine.Engine.CheckLatency | internal/decision/engine.go:81-100 | some span's saturating duration exceeds the wrapped threshold |
| Engine.Engine.CheckAttribute | internal/decision/engine.go:102-121 | some span has the attribute with that string form, the form being empty for what is not a string |
| Engine.Engine.ScanWindow | internal/decision/engine.go:124-149 | the nested scan ends with the first identifier, the earliest start and the latest end |
| Engine.Engine.TriggerDecision | internal/decision/engine.go:123-172 | broadcasts one decision, or none when no span names a trace |
| Engine.Engine.EvaluateTrace | internal/decision/engine.go:39-60 | broadcasts the batch's verdict and at most one decision |
| Engine.FirstIDIsFirst | internal/decision/engine.go:135-137 | the identifier is that of the first span that has one, and empty exactly when none has |
| Engine.EarliestIsLeast | internal/decision/engine.go:139-142 | the window starts at the least start of all spans, whatever the sign of the instants |
| Engine.LatestIsGreatest | internal/decision/engine.go:143-146 | the window ends at the greatest end of all spans |
| Engine.VerdictMeaning | internal/decision/engine.go:39-171 | a batch leads to a decision if and only if some policy is met and some span names a trace; the decision names the first such trace and the first such policy, its window is exact, and it is decided now and locally |
| Engine.WantedMeaning | internal/decision/engine.go:45-53 | what each kind of policy asks of a span; an attribute that is no string is met by empty text only; other kinds ask for nothing |
| Engine.InstantsAreTheSameBits | internal/decision/engine.go:136-146 | a timestamp is read as the signed number of the same bits |
| Engine.LatencyIsExactWhenItFits | internal/decision/engine.go:81-95 | the latency policy compares as unbounded arithmetic would, for all spans, if and only if the scaled threshold fits in 64 bits; saturation never shows |
| Windows.DecisionTakesAWindow | internal/processor/processor.go:169-198 | for every event: it does that for the window between the wrapped bounds |
| Windows.DecisionTakesItsWindow | internal/processor/processor.go:169-198 | a decision takes, from every buffer, exactly the metrics and untraced logs from five seconds before the event to five seconds after it, and sends them as they are, in order of time, in at most one batch of each kind, if and only if neither bound wraps around 64 bits or the window is empty with and without wrapping |
| Windows.InstantsNeedFittingBounds | internal/processor/processor.go:172-173 | for events between two 64-bit instants, what counts is that neither bound wraps |
| Windows.RollupTakesAllThatIsOld | internal/processor/processor.go:217-257 | a rollup takes exactly what is at least ten seconds old and what had been evicted, empties the evicted lists, and sends one rollup of each kind at the level in force |
| Windows.FineRollupSendsAsIs | internal/processor/processor.go:217-257 | at Fine or when rollups are off, a rollup never ends the process and sends the contents of the signals it takes, in order, as they are |
| Windows.RollupTakesEverythingOld | internal/processor/processor.go:218-224 | whatever was stored since 1970 and is at least ten seconds old is taken, and what is younger stays |
| SignalLedger.EvictConserves | internal/buffer/buffer.go:147-194 | an eviction moves a signal from its list to the channel or to the dropped ones, and no other |
| SignalLedger.DecideBalances | internal/processor/processor.go:132-199 | a decision moves exactly the signals of its window from the buffer to the raw exports |
| SignalLedger.RollupBalances | internal/processor/processor.go:217-257 | a rollup moves exactly the old buffered and the evicted signals to the rolled-up exports, also when it ends the process in between |
| SignalLedger.StepBalances | internal/processor/processor.go:81-257 | every step keeps each stored signal in exactly one place |
| SignalLedger.EverySignalInOnePlace | internal/processor/processor.go:81-257 | in every reachable state the signals ever stored are, as a bag, those buffered, queued, dropped, in the evicted lists, exported raw and exported in a rollup |
| Overflow.WriteDropsNothingIffRoom | internal/buffer/buffer.go:167-189 | one write drops nothing if and only if the channel has room for every live metric and untraced log among the distinct entries it pushes out |
| Overflow.NothingDroppedIffAlwaysRoom | internal/buffer/buffer.go:167-189 | over every run the number of dropped signals is exact, and it is none if and only if the channel had room for what each step pushed out |
| Overflow.ALegalRunDrops | internal/buffer/buffer.go:174-188 | one eviction more than the channel holds, with nobody reading it, drops a metric |
| ValueLedger.StoredThenHeld | internal/processor/processor.go:81-91 | whatever holds of all stored signals holds of all those a node still has |
| ValueLedger.RunAgrees | internal/processor/processor.go:169-257 | over every run the exports weigh what the signals exported raw and rolled up weigh, for every weight that one export respects |
| ValueLedger.MetricValueLedger | internal/processor/processor.go:169-257 | over every run, per resource key, scope key and metric name with integer points, what was stored equals what is held or dropped plus what was exported, raw or rolled up, as 64-bit integers |
| ValueLedger.LogCountLedger | internal/processor/processor.go:188-257 | over every run, per resource and scope key, stored untraced records equal those held or dropped plus those exported, a rolled-up record counting as often as it says |
| Spans.ExportTraceMoves | internal/processor/processor.go:142-157 | exporting a trace moves its buffered spans to the exported ones and touches no other trace |
| Spans.DecideMoves | internal/processor/processor.go:132-199 | a decision does that for the trace it names, if it names one, and for no other |
| Spans.SpansExportedAtMostOnce | internal/processor/processor.go:132-157 | in every run, the exported spans of a trace are a subsequence of those stored before the ones still buffered, which are the latest stored |
| Spans.NoMoreOutThanIn | internal/processor/processor.go:132-157 | no span is exported and buffered, together, more often than it was stored |
| Spans.ChunksThenBufferAreHistory | internal/processor/processor.go:132-157 | in runs that neither evict the trace nor lose it in a write, the exported chunks followed by the buffered spans are all that was stored, in order |
| Spans.NothingOfATraceIsLost | internal/buffer/buffer.go:219-275 | with every write accepted as well, they are all that was received for the trace, in traversal order |
| Spans.LogsGoOutOnlyWithoutSpans | internal/processor/processor.go:142-167 | a decision exports a trace's logs exactly when its entry has no spans, and then keeps them; with spans, the logs go without being exported |
| Spans.DuplicateDecisionIsHarmless | internal/processor/processor.go:132-199 | taking a decision a second time changes nothing if and only if the trace's entry had spans or had no logs |
| TraceLedger.EveryTraceIsAccountedFor | internal/processor/processor.go:132-157 | over every run, the spans stored for a trace are, as a bag, those exported, lost with evicted entries or failed writes, and buffered, and its logs those discarded, lost and buffered; the buffered ones are the latest and the ones gone come before them in order |
| TraceLedger.NothingLostIffAlwaysKept | internal/buffer/buffer.go:147-194 | no span (no record) of a trace is lost if and only if, whenever its entry was pushed out or lost in a write, none of its spans (records) were buffered |
| TraceLedger.ChunksAreHistoryIffNeverLost | internal/processor/processor.go:132-157 | the exported chunks followed by the buffered spans are all that was stored, in order, if and only if that holds |
| TraceLedger.DiscardedThenBufferedLogs | internal/processor/processor.go:142-167 | the discarded logs followed by the buffered ones are all that was stored with the trace, in order, if and only if that holds |
| TraceLedger.SparingRunsKeep | internal/buffer/buffer.go:147-194 | runs that spare the trace are such runs |
| TraceLogs.LogChunksAreStretches | internal/processor/processor.go:159-167 | over every run, the chunks of a trace's logs that went out are exactly the stretches of its log history that were buffered, without spans, whenever a decision for it was taken |
| TraceLogs.ARecordGoesOutOncePerDecision | internal/processor/processor.go:159-167 | a record is in as many of these chunks as there were such decisions while the entry held it |
| LateArrivals.RemovedWasFetched | internal/processor/processor.go:217-256 | with a clock that does not go back, whatever stores, evictions and decisions come between fetch and removal, all that is removed was fetched |
| LateArrivals.OnlySignalsTakenMeanwhileCountTwice | internal/processor/processor.go:217-256 | when stores, evictions and decisions come between the fetches of metrics and of logs, the taking of the evicted lists and the removal, every signal ends up in exactly one place, except the fetched ones that something else took away before the removal, which are in two |
| Cluster.NodeRunsAlone | cmd/server/main.go:36-60 | each node of a cluster run goes through a run of its own |
| Cluster.NoSpanExportedTwice | internal/processor/processor.go:132-157 | over every cluster run with lost, duplicated and reordered messages and full channels, no node exports a stored span twice: the exported spans have places of their own, in order, in the history before what is still buffered |
| Cluster.ChunksMakeUpTheTrace | internal/processor/processor.go:132-157 | on a node that spares a trace, exported chunks followed by buffered spans are that node's history of it |
| Cluster.DecisionsFlushTheTrace | internal/processor/processor.go:93-104 | the moment such a node takes a decision for a trace, everything stored there for it has been exported |
| Cluster.EveryNodeBalances | internal/processor/processor.go:81-257 | every node of a cluster keeps each of its stored signals in exactly one place |
| Cluster.EverythingGrounded | internal/gossip/gossip.go:97-222 | every decision in any channel or queue, and every trace exported anywhere, goes back to a batch that some node consumed earlier |
| Cluster.EveryExportIsVouchedFor | internal/decision/engine.go:123-171 | a trace or its logs leave a node only if some node earlier consumed a batch that met one of its policies and whose first non-empty trace identifier is that trace |
| Delivery.AVerdictIsHeard | internal/decision/engine.go:151-171 | a live node that consumes a logged batch with a verdict has the decision last in the queue for its peers and, with fewer than 100 waiting, last in its own channel |
| Delivery.NoVerdictNoWord | cmd/server/main.go:36-60 | a batch without a verdict, or one that the log refuses, changes no channel and no queue |
| Delivery.APeerHears | internal/gossip/gossip.go:173-203 | a queued decision that reaches a live node is last in that node's channel, unless 100 are waiting |
| Delivery.FirstInFirstOut | internal/processor/processor.go:93-104 | over every run, after k decisions have been taken those that waited behind them are at the head of the channel, in their order |
| Delivery.ADecisionIsServedInTurn | internal/processor/processor.go:93-157 | once all decisions before it have been taken, taking a decision sends all spans then buffered for its trace, whatever has happened in between |
| Delivery.ASampledTraceGoesOut | internal/decision/engine.go:39-171 | from a batch that meets a policy to the export of the first trace it names, on the node that consumed it |
| Delivery.ASampledTraceGoesOutOfAPeer | internal/gossip/gossip.go:97-203 | and on every live peer with room that the message reaches |
| Pdata.MoveAll | internal/processor/processor.go:178-182 | the loop of moves yields the contents of all batches in order |
| Processor.Processor.HandleEvictedSignal | internal/processor/processor.go:81-91 | the signal joins the evicted list of its kind |
| Processor.Processor.OnEvicted | internal/processor/processor.go:69-79 | the oldest queued signal, if any, leaves the channel and is last in the evicted list of its kind |
| Processor.Processor.ProcessTrigger | internal/processor/processor.go:118-130 | a load trigger sets Coarse above its threshold and Fine otherwise; any other trigger changes nothing |
| Processor.Processor.OnTrigger | internal/processor/processor.go:106-116 | the oldest trigger, if any, is taken and obeyed |
| Processor.Processor.ProcessDecision | internal/processor/processor.go:132-199 | the buffer, the exports and the ledger change as one decision step prescribes; an unreadable identifier changes nothing |
| Processor.Processor.OnDecision | internal/processor/processor.go:93-104 | the oldest decision, if any, is taken and processed |
| Processor.Processor.PerformRollup | internal/processor/processor.go:217-257 | the buffer, the evicted lists, the exports and the ledger change as one rollup step prescribes, or the process ends exactly when that step says so |
| Processor.HeldAreGenuine | internal/processor/processor.go:217-240 | what a node rolls up is what it has received, so the precondition of a rollup holds in every run |
| Processor.WindowBounds | internal/processor/processor.go:172-173 | wrapping a bound when it is computed and again in the buffer reads as wrapping it once |
| Processor.ZeroInstantReads | internal/processor/processor.go:220 | the zero time's nanosecond reading, which wraps around, is the lower bound of the rollup's window |
| Wal.Log.Write | internal/wal/manager.go:56-96 | appends the signal with its type and instant at the next index, or fails and changes nothing |
| Wal.Log.Replay | internal/wal/manager.go:98-156 | hands on every readable record, in order, skipping the others; an empty log hands on nothing |
| Wal.Log.TruncateFront | internal/wal/manager.go:190-192 | the library cuts up to an index within the log, and otherwise fails and changes nothing |
| Wal.Log.TruncateBefore | internal/wal/manager.go:160-194 | cuts at the scan's cut point, and fails exactly when that would cut everything |
| Wal.CutMeaning | internal/wal/manager.go:173-188 | the scan stops at the first recent record and cuts after the last old one before it |
| Wal.TruncationCutsAPrefix | internal/wal/manager.go:160-194 | only a prefix goes, and no readable record at or after the cutoff is in it, in whatever order the timestamps are |
| Wal.TruncationIsExact | internal/wal/manager.go:160-194 | with readable records in order of time, the survivors are exactly the recent ones if and only if none is old or one is recent |
| Wal.ReplayAfterTruncation | internal/wal/manager.go:98-194 | a replay after a truncation yields what one before would have, short of a prefix of signals older than the cutoff |
| Wal.ReplayIsRecent | internal/wal/manager.go:98-194 | with readable records in order of time, one of them recent, it yields exactly the signals from the cutoff on, in order |
| Wal.ReplayGivesBackWrites | internal/wal/manager.go:98-156 | written records come back in order with type, contents and instant |
| Server.MainConsumer.Consume | cmd/server/main.go:36-60 | log, then buffer, then decide; when the log refuses, the buffer, the log and the broadcasts stay as they were |
| Server.ReplayInto | cmd/server/main.go:119-133 | at start-up every readable record of the log is stored, in order, into an empty buffer, which ends as the rebuilding used in the crash theorems says |
| Node.Node.Consume | cmd/server/main.go:36-60 | a node put together from consumer, buffer, engine, gossip and processor goes, on every signal, to the state of the process and of the channels that the run theorems and the crash theorems prescribe |
| Node.Start | cmd/server/main.go:108-223 | a started node is what rebuilding from the log prescribes, with empty channels |
| Node.ConsumeIsMove | cmd/server/main.go:36-60 | that state is what the corresponding cluster move makes of the node |
| Node.TurnsAreMoves | internal/processor/processor.go:69-116 | what the processor makes of a node on decisions, triggers, queued signals, the clock and evictions is what the corresponding cluster moves make of it |
| Node.MessagesAreMoves | internal/gossip/gossip.go:134-222 | and so for triggers raised and messages heard |
| Node.OthersStay | cmd/server/main.go:36-60 | a move changes its own node and no other |
| Node.FreshIsLegal | internal/buffer/buffer.go:343-376 | a store with a fresh key is a legal step of a run |
| Recovery.OnlyStaleWritesBreakIt | internal/buffer/buffer.go:272 | a write of spans keeps the buffered spans a suffix of the history, for all contents, if and only if it succeeds or takes the old entry with it |
| Recovery.RestartBringsEverythingBack | cmd/server/main.go:126-133 | a replay into an empty buffer whose writes succeed and spare a trace brings back all that the log holds for it |
| Recovery.BufferAndLogAgree | cmd/server/main.go:36-223 | across consumes, decisions, evictions, truncations, crashes and restarts in which records stay readable and a failed write of spans takes the old entry with it, the buffered spans of a trace and those a replay would bring back are suffixes of what the log acknowledged, hence one of the other |
| Restarts.BufferAndLogInOrder | cmd/server/main.go:36-223 | for all writes and with records that become unreadable: the buffered spans of a trace, and those a replay would bring back, come in order and each at most once from what the log acknowledged for it |
| Restarts.ExportedAtMostOncePerLife | cmd/server/main.go:119-133 | over every run with r restarts, whatever writes and records come to, each acknowledged span is exported at most r + 1 times, before and after the restarts together |
| LoadControl.LoadMonitor.Tick | cmd/server/main.go:183-203 | a trigger is broadcast exactly when the load crosses the threshold, and the flag follows |
| LoadControl.LevelFollowsLoad | cmd/server/main.go:170-205 | triggers alternate from a high one; with the channel drained the level is Coarse exactly under high load, if and only if an even number of triggers was lost to a full channel since the last that got in |
| LoadControl.NothingMissed | internal/gossip/gossip.go:157-162 | no trigger is lost in a run whose channel is never full |
| LoadControl.LevelIsCoarseExactlyUnderLoad | internal/processor/processor.go:118-130 | so without overflow, whenever the channel is drained, the level is Coarse exactly under high load |

## Left out

- MetricComposition.RollupComposes: for integer points that repeat no allowed attribute; floating-point addition is not associative, and doubles are modelled as reals.
- ValueLedger.MetricValueLedger: for names whose points are integers, for the same reason.
- Recovery.BufferAndLogAgree: logged records stay readable, and a failed write of spans takes the old entry with it; `OnlyStaleWritesBreakIt` shows that the latter is needed. `Restarts.BufferAndLogInOrder` says what remains without either.
- LoadControl.LevelIsCoarseExactlyUnderLoad: one node on its own; in a cluster a peer's trigger sets the level too, as the moves of `Cluster` show.
- Rollup.Processor.RollupMetrics: a typed accessor used on a metric of another type is taken to end the process, as pdata documents; a mark that no received signal carries stands for it.
- Telemetry values are datatypes, and a lookup map holds positions: that moving a batch empties its source, and that references into a growing slice stay valid, is not captured.
- Serialisation (protobuf, gob) is taken to round-trip; the schema URL and other fields nothing reads are not modelled.
- The cache is a finite map that may evict any key but the one written; which entries it evicts, and how a write goes, are parameters. Hash collisions and capacity are not modelled.
- Generated identifiers are taken to be fresh; the clock, the order in which a map is walked and failures of the log are parameters, and one store reads the clock once.
- Instants are unbounded integers, except that timestamps, the bounds of a decision's window and the zero time are read as 64-bit nanoseconds. The rollup's clock is between 1970 and 2262.
- A body's length is counted in characters, which are taken to be bytes.
- Each store, decision, rollup, eviction and trigger is one step, except where `LateArrivals` splits a rollup. Locks, racing stores and lock order are not modelled.
- A policy name or decision that protobuf refuses to marshal (text that is not UTF-8) is not modelled.
- The load threshold is a real number; its floating-point product is not modelled.
- The `sampler.processed` label: exports are recorded before it is put on. Export errors are ignored by the source and not modelled.
- `ClearMetrics` and `ClearLogs`, which nothing but tests call.
- Receivers, exporters, telemetry, discovery, membership, configuration, tickers and shutdown.
