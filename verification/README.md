# Verified model of nabiz

This project models the algorithmic core of nabiz, an APM collector, its query API, its web
views and its Kubernetes operator, and proves properties of that model with Dafny 4.11.
`dafny verify dfyconfig.toml` checks everything.

## What is modelled

**The topology engine** (`internal/topology/graph.go`). CLIENT and SERVER spans arrive out of
order from concurrent workers and are joined on the span id in a striped table with two
generations. `Spans`, `PairTable` and `ShardIndex` hold the pure parts and the stripe as a class.
`TopologySystem` is the whole engine as atomic steps: one lock section of a stripe, one lock section of
the aggregate map, one counter update, the rotation of one stripe, the swap of the aggregates, the
end of a write, a background merge in the storage. What is between two of them is explicitly in flight.
`TopologySafety` proves what every reachable state satisfies, `EdgeFlow` that the recorded edges are
exactly those the pairing rule yields, `KeyProjection` and `PairWindow` the exact pairing window,
`Sharding` that striping is transparent, `Confluence` that order does not matter. `TopologyBuilder` is the
builder as an object with fields updated in place; each of its methods hands back the trace of steps
it performed and is proved to be that run of the step system.

**What the aggregates mean** (`schema.go`, `server.go`). `EdgeSamples` relates samples, merge columns
and queries to raw calls; `Quantile` the percentile estimator to order statistics; `TopologyView` the
service map at its three levels to the stored calls; `TraceIndex` the index rows to the spans of a
trace, `TraceSearch` what filtered searches and the window lookup get out of them; `TraceDetail` self times, slices and hotspots to span durations.

**The ingest pipeline** (`internal/pipeline/pipeline.go`): `IngestPipeline` is a step system of a bounded
queue and N batching workers, and a class whose methods are runs of it.

**Further algorithms**: the waterfall walk (`Waterfall`), the layered first guess of the map (`Layers`),
dump jobs under concurrent stop and delete requests (`DumpJobs`), the login limiter
(`LoginLimiter`), the dump retention (`DumpJanitor`) and pod injection (`Injection`).

Clocks are integers handed in or picked arbitrarily, hash functions are arbitrary, replies of the
network, the database and the instrumented application are arbitrary. Durations are whole
nanoseconds; ratios, shares and percentiles are reals.

## Where the code and its documentation differ

The model follows the code.

- `QueueSize` is documented as the cap on the spans waiting in the queue. The channel counts chunks, so
  the tight bound is its capacity times the largest chunk; the documented cap holds exactly for chunks
  that are small enough (`IngestPipeline.QueueSizeCaps`, `IngestPipeline.DefaultsOverrun`).
- `Stop` is documented to wait until the workers flushed. With processors to serve, that is sure to drain
  the queue exactly when there is a worker and the context was not cancelled
  (`IngestPipeline.StopDrainsIff`).
- A stop request answered with `cancelled: true` may leave its record `pending` for good: the
  completion is written under the context that the request cancels (`DumpJobs.PendingForGood`,
  `DumpJobs.LateStopNeverSettles`).
- Shutting the topology engine down rotates once, so the records of the current generation are never
  emitted (`TopologyBuilder.Builder.Shutdown`).
- The index table is meant to hold one row per trace, but searches filter its rows before they combine
  them. An answer is the whole trace iff each row of the trace passes, a background merge shows iff the
  filter tells the merged row from its parts, and a merge can even hide a trace
  (`TraceSearch.AnswerIsWholeIff`, `TraceSearch.MergeShowsUnless`, `TraceSearch.MergeHidesTrace`).
- A reader restricted to some services gets the spans of a trace around the rows in scope only, and a merge
  changes which those are (`TraceSearch.LookupSeesMergeIff`, `TraceSearch.DetailIsWholeIff`,
  `TraceSearch.ScopedReaderMisses`).

## Model

| member | source | states |
|---|---|---|
| Spans.PeerNameEmptyIff | internal/topology/graph.go:490-520 | a client leaves no inferred edge exactly when it carries none of the five naming attributes |
| ShardIndex.RoundShards | internal/topology/graph.go:180-193 | the stripe count is the least power of two not below the request, or the default when none is asked for |
| ShardIndex.MaskedIndexIsValid | internal/topology/graph.go:443-446 | masking any hash yields a valid stripe, and every stripe is reached |
| PairTable.AfterIsSound | internal/topology/graph.go:284-300 | an arrival keeps the generations disjoint, at home and within the cap, whatever it finds |
| PairTable.ArrivalAccount | internal/topology/graph.go:326-340 | every arrival is stored, pairs two records, is refused or displaces one; no record appears or vanishes otherwise |
| PairTable.Shard.Take | internal/topology/graph.go:456-466 | finds the record in the current generation first and removes just that one |
| PairTable.Shard.Rotate | internal/topology/graph.go:407-412 | hands back the old generation and leaves the current one as the old one |
| TopologySystem.ShardOfIsValid | internal/topology/graph.go:443-446 | the stripe of a key exists, for any hash function |
| TopologySystem.PairEdgeMeaning | internal/topology/graph.go:346-363 | the pair edge is the same whichever span came first: client's to server's service, failed if either failed, with the server's time unless that is zero |
| TopologySystem.NodeDimensionOff | internal/topology/graph.go:446-453 | without the node dimension, spans that differ only in their node yield the same edges |
| TopologySafety.NothingIsLost | internal/topology/graph.go:270-441 | in every reachable state: keyed spans = 2 paired + dropped + evicted + waiting + displaced, and counted emissions = recorded, flushed or lost calls, with items in flight counted where they stand |
| TopologySafety.MemoryIsBounded | internal/topology/graph.go:284-340 | in every reachable state the generations share no key, each key is in the stripe of its hash, and at most 2 * shards * cap records are held |
| TopologySafety.StepKeepsTableSound | internal/topology/graph.go:270-412 | each step keeps that |
| TopologySafety.StepConservesSpans | internal/topology/graph.go:270-420 | each step keeps the span account |
| TopologySafety.StepConservesCalls | internal/topology/graph.go:346-441 | each step keeps the call account, including failed writes |
| TopologySafety.AggregatesAreFaithful | internal/topology/graph.go:381-401 | in every reachable state each in-memory sample is the fold of exactly the calls recorded for its minute and edge since the last swap |
| TopologySafety.MergeIsInvisible | internal/storage/clickhouse/schema.go:80-115 | merging two stored rows of a key changes no query |
| TopologySafety.QueriesAgreeWithRawCalls | internal/storage/clickhouse/schema.go:80-115 | in every reachable state, for any set of minutes and edges, the query equals the sample of the raw calls it covers, wherever the flushes and merges fell |
| TopologySafety.StoredCallsAreComplete | internal/topology/graph.go:423-441 | once everything is written, stored calls plus those of failed writes are all pairings, inferred edges and entries |
| EdgeFlow.StepMovesEdges | internal/topology/graph.go:346-420 | a step adds to the edges in flight or recorded exactly those it decides on: none is forged, lost or altered |
| EdgeFlow.EdgesAreAccounted | internal/topology/graph.go:258-420 | in every run, each edge stands in flight or in the ledger exactly as often as entry spans and the pairing table decided on it |
| EdgeFlow.DecidedByKey | internal/topology/graph.go:270-420 | what the striped table decides is the sum of what it emits key by key |
| EdgeFlow.RecordedEdgesAreThePairings | internal/topology/graph.go:258-420 | end to end: when no stripe fills up, each edge is in flight or recorded exactly as often as the entry spans and, key by key, the pairing rule yield it |
| EdgeFlow.PairYields | internal/topology/graph.go:270-379 | a client and a server alone under a key yield one pair edge iff fewer than two rotations separate them; otherwise an evicted client yields one inferred edge iff its target has a name |
| EdgeFlow.LonelyYields | internal/topology/graph.go:366-420 | an unpaired span yields its inferred edge once, at its second rotation, and never before |
| KeyProjection.StepProjects | internal/topology/graph.go:284-340 | one operation of a stripe moves every key as the key's own automaton does |
| KeyProjection.RunProjects | internal/topology/graph.go:284-420 | a whole run of a stripe seen from one key is the run of that automaton |
| KeyProjection.SameViewSameFate | internal/topology/graph.go:284-420 | two runs that show a key the same operations leave it the same record and emit the same for it |
| PairWindow.PairingWindow | internal/topology/graph.go:270-420 | whichever side comes first, the two pair up iff fewer than two rotations separate them; otherwise the first is evicted exactly once and the second iff two rotations follow |
| PairWindow.LonelyRecord | internal/topology/graph.go:405-420 | a lone record waits through one rotation and is evicted once by the second |
| PairWindow.Aging | internal/topology/graph.go:405-412 | what any number of rotations does to a waiting record |
| Sharding.StripeIsLocal | internal/topology/graph.go:405-446 | a stripe evolves by its own operations alone |
| Sharding.TraceIsLocal | internal/topology/graph.go:405-446 | a key hears only from its own stripe |
| Sharding.StripingIsTransparent | internal/topology/graph.go:184-207 | for any hash and any power-of-two count, a striped run leaves and emits for every key what one unstriped two-generation table does, though the stripes rotate one after the other |
| Sharding.OneTableServesAllKeys | internal/topology/graph.go:405-420 | between rotation rounds one and the same unstriped run accounts for all keys at once |
| Confluence.OutcomeIgnoresOrder | internal/topology/graph.go:258-363 | any rearrangement of the spans leaves the same records waiting and emits the same edges |
| Confluence.CalmRunEnds | internal/topology/graph.go:258-401 | a run without rotation or refusal ends with the records and edges of the spans it observed, under any interleaving |
| Confluence.RunsConverge | internal/topology/graph.go:258-401 | two such runs over the same spans agree on the pending table and on the aggregate map |
| TopologyBuilder.Builder.constructor | internal/topology/graph.go:180-208 | starts as the initial state of the step system, with the rounded stripe count |
| TopologyBuilder.Builder.LockSection | internal/topology/graph.go:284-340 | the lock section is one arrival step and returns its verdict |
| TopologyBuilder.Builder.RecordCall | internal/topology/graph.go:381-401 | folds the call into the sample of its minute and edge and changes nothing else |
| TopologyBuilder.Builder.EmitPair | internal/topology/graph.go:346-363 | completes the arrival that matched: counter, then record |
| TopologyBuilder.Builder.EmitInferred | internal/topology/graph.go:366-379 | counts and records the inferred edge iff the target has a name |
| TopologyBuilder.Builder.ObserveClient | internal/topology/graph.go:270-300 | is a run with exactly this arrival, or nothing for a span without id |
| TopologyBuilder.Builder.ObserveServer | internal/topology/graph.go:303-340 | is a run with exactly this arrival, or an entry for a span without parent |
| TopologyBuilder.Builder.Process | internal/topology/graph.go:251-268 | observes exactly the relevant spans of the batch, in order |
| TopologyBuilder.Builder.Rotate | internal/topology/graph.go:405-420 | rotates every stripe once, in order, and walks each discarded generation before the next |
| TopologyBuilder.Builder.Flush | internal/topology/graph.go:423-441 | empties the aggregates in one swap; the batch is stored or lost as a whole |
| TopologyBuilder.Builder.Shutdown | internal/topology/graph.go:217-248 | rotates each stripe once in order, observes nothing, and leaves no aggregate in memory and exactly the current generations pending |
| TopologyBuilder.OneRoundLeaves | internal/topology/graph.go:217-248 | what stays pending after that is as many records as the current generations held, and none iff they were all empty |
| EdgeSamples.BucketIndex | internal/topology/graph.go:522-530 | the bucket is the first whose bound the duration does not exceed |
| EdgeSamples.FindBucket | internal/topology/graph.go:522-530 | the loop finds that bucket |
| EdgeSamples.FoldInto | internal/topology/graph.go:387-400 | the in-place update is one step of the fold |
| EdgeSamples.SampleCounts | internal/topology/graph.go:381-401 | calls, errors and duration sum are those of the folded events |
| EdgeSamples.SampleBuckets | internal/topology/graph.go:381-401 | each bucket counts the events whose duration falls in it |
| EdgeSamples.MaximumBounds | internal/topology/graph.go:396-398 | the maximum bounds every folded duration |
| EdgeSamples.MaximumIsAttained | internal/topology/graph.go:396-398 | the maximum is one of the folded durations |
| EdgeSamples.BucketsSumToCalls | internal/topology/graph.go:381-401 | the buckets add up to the calls |
| EdgeSamples.SampleBounds | internal/topology/graph.go:381-401 | errors <= calls and maximum <= sum <= calls * maximum |
| EdgeSamples.CombineAssociates | internal/storage/clickhouse/schema.go:92-110 | rows merge in any grouping |
| EdgeSamples.CombineCommutes | internal/storage/clickhouse/schema.go:92-110 | rows merge in any order |
| EdgeSamples.CombineIsConcat | internal/storage/clickhouse/schema.go:92-110 | merging two samples is folding the events of both |
| EdgeSamples.SelectSplits | internal/storage/clickhouse/schema.go:92-110 | disjoint groups merge to the sample of their union |
| EdgeSamples.RecordSummarises | internal/topology/graph.go:381-401 | recording keeps the map a summary of all recorded events |
| EdgeSamples.FlushedRowsTotal | internal/topology/graph.go:423-441 | the rows one flush writes answer every query as the raw events would |
| EdgeSamples.SampleIgnoresOrder | internal/topology/graph.go:381-401 | the sample of a group does not depend on the order of recording |
| Quantile.HistogramQuantile | internal/api/server.go:915-946 | the loop computes the estimate of the first bucket whose cumulative count reaches the target |
| Quantile.ChosenBucketIsRankBucket | internal/api/server.go:923-930 | that bucket holds the observation of rank ceil(q*n) |
| Quantile.EstimateIsRankCorrect | internal/api/server.go:915-946 | estimate and true quantile lie in the same finite bucket and differ by at most its width; in the unbounded bucket the estimate is the last bound |
| Quantile.EstimateMonotone | internal/api/server.go:915-946 | a larger quantile never has a smaller estimate, so p95 <= p99 |
| Quantile.RankExists | internal/api/server.go:923-923 | every q in (0,1] has its rank among n > 0 observations |
| Quantile.SampleHistogram | internal/topology/graph.go:522-530 | the histogram columns are the histogram of the calls' durations |
| TopologyView.LevelsLoseNothing | internal/api/server.go:324-340 | at every level, the groups of an answer add up to the calls the query could see |
| TopologyView.Graph.UpsertNode | internal/api/server.go:435-448 | adds a node once; later mentions only fill an empty namespace or workload |
| TopologyView.Graph.AddRow | internal/api/server.go:377-386 | both ends become nodes and the traffic counts for the target alone |
| TopologyView.DrawGraph | internal/api/server.go:350-401 | nodes carry the identity of their mentions and the traffic of the edges into them, edges the numbers of their group |
| TopologyView.NodesReceiveAllCalls | internal/api/server.go:383-386 | the calls on the nodes add up to the calls on the edges |
| TopologyView.MapAccountsForStoredCalls | internal/api/server.go:291-401 | in every reachable state, at every level, the calls on the nodes add up to the number of raw calls stored in range and scope |
| TopologyView.ShownPercentileIsRankCorrect | internal/api/server.go:397-398 | the percentile on an edge is rank-correct for the raw calls behind it, however they were flushed and merged |
| TopologyView.EdgeNumbersAreOrdered | internal/api/server.go:388-400 | p95 <= p99, mean <= maximum, error rate within [0,1] |
| TraceIndex.MergeIsInvisible | internal/storage/clickhouse/schema.go:156-173 | a merge of two index rows changes no column of any unfiltered answer, root service and name included |
| TraceIndex.MergeInvisibleIff | internal/storage/clickhouse/schema.go:156-173 | behind a filter it changes none iff the filter treats the merged row as it treats both parts |
| TraceIndex.DigestMeaning | internal/storage/clickhouse/schema.go:175-187 | there is a digest iff the trace has spans; its window, services and duration cover every span, and each bound, the duration and every listed service is that of some span |
| TraceIndex.DigestCounts | internal/storage/clickhouse/schema.go:183-184 | the sums count the spans and the errors of the trace |
| TraceSearch.AnswerIsWholeIff | internal/api/server.go:478-525 | in every reachable index, a search shows the digest of all spans of the trace iff every row of the trace passes its filter |
| TraceSearch.ShownRootIsReal | internal/api/server.go:511-525 | whatever the filter, the service and name shown are those of roots of the trace or empty, and of roots whenever all rows pass and there is one |
| TraceSearch.SureToBeWholeIff | internal/api/server.go:478-525 | a search shows the whole trace under every cutting into blocks and every merge iff each single span passes its filter |
| TraceSearch.MergeShowsUnless | internal/api/server.go:478-525 | a merge leaves the answer of a search unchanged iff it concerns another trace or the filter treats the merged row as it treats both parts |
| TraceSearch.MergeHidesTrace | internal/api/server.go:473-525 | a reachable index in which a merge removes a trace from a search by time: a concrete run |
| TraceSearch.WindowLosesNothing | internal/api/server.go:638-662 | reading spans only around the indexed window costs an unrestricted reader no span |
| TraceSearch.LookupSeesMergeIff | internal/api/server.go:638-647 | a merge changes the window of a reader iff one of the two rows mentions a service in scope and the other does not and reaches beyond that window |
| TraceSearch.DetailIsWholeIff | internal/api/server.go:638-662 | a reader gets every span of the trace iff each row of the trace, in scope or not, lies within the margin around the window of the rows in scope |
| TraceSearch.ScopedReaderMisses | internal/api/server.go:638-662 | a reachable index in which a restricted reader misses a span and gets it after a merge: a concrete run |
| TraceDetail.ComputeSelfTimes | internal/api/server.go:668-730 | the two passes compute duration minus children, clamped at zero, for every row |
| TraceDetail.SelfTimeAccounts | internal/api/server.go:716-730 | total self time is the duration of the roots plus the excess of children over their parents |
| TraceDetail.SelfTimeCoversRoots | internal/api/server.go:716-730 | total self time is at least the duration of the roots, with equality iff no span's children exceed it |
| TraceDetail.TallyMeaning | internal/api/server.go:817-858 | each slice holds the time and number of exactly its spans |
| TraceDetail.TallyPartitions | internal/api/server.go:817-858 | the slices partition the total self time |
| TraceDetail.BuildBreakdown | internal/api/server.go:817-858 | both lists present their tally in descending order and add up to the total |
| TraceDetail.BuildHotspots | internal/api/server.go:862-901 | the ten most expensive groups, each with exactly its spans' time and count; every group left out is no larger than each one shown |
| TraceDetail.SharesSum | internal/api/server.go:842-849 | the shares of a list add up to its part of the total |
| Waterfall.ChainDoesNotRepeat | web/app.js:757-765 | a parent chain from a root never comes back to a span, whatever cycles exist elsewhere |
| Waterfall.ChainIsUnique | web/app.js:757-765 | a span has at most one chain |
| Waterfall.WaterfallIsExact | web/app.js:757-840 | a row shows a span at depth d iff a chain of d links leads from a root to it, and no span is shown twice |
| Waterfall.GroupByParent | web/app.js:757-762 | the map lists the children of every parent |
| Waterfall.FindRoots | web/app.js:763-764 | the roots are the spans without parent or with an unknown one |
| Waterfall.View.WalkSpan | web/app.js:767-838 | appends the rows of a span and everything below it, and ends |
| Waterfall.View.Render | web/app.js:752-840 | the container holds exactly the rows of the walk |
| Layers.FindFrontier | web/topology.js:169-174 | the frontier is the nodes no link leads to, or else the first busiest node |
| Layers.BuildOut | web/topology.js:177-181 | lists the targets of every node in link order |
| Layers.Round | web/topology.js:183-188 | one round deepens exactly the targets of the current nodes |
| Layers.SeedDepths | web/topology.js:182-189 | stops when a round meets nothing, at the latest after nodes + 2 rounds, and leaves the last round that met each node |
| Layers.ReachedByWalk | web/topology.js:182-189 | being met in round d is being the end of a walk of d links from the frontier |
| Layers.AcyclicFrontier | web/topology.js:173-174 | an acyclic graph has sources, and they are the frontier |
| Layers.AcyclicRunsEmpty | web/topology.js:183-183 | the frontier of an acyclic graph runs empty before the cap |
| Layers.AcyclicSeeding | web/topology.js:168-189 | on an acyclic graph every node gets the length of the longest walk that ends in it, and every link leads strictly deeper |
| Layers.AssignLayers | web/topology.js:192-197 | the layers hold the nodes of their depth, in node order |
| Layers.SeedPositions | web/topology.js:168-197 | all of that for the whole function, for acyclic and cyclic graphs |
| IngestPipeline.ChunkCapIsLargest | internal/pipeline/pipeline.go:67-76 | the channel has as many places as chunks of a quarter batch fit into `QueueSize`, or 64 if those are fewer |
| IngestPipeline.StepKeepsInv | internal/pipeline/pipeline.go:87-168 | each step keeps conservation, the offers, the counters and the shape |
| IngestPipeline.SpansAreConserved | internal/pipeline/pipeline.go:87-168 | in every reachable state each accepted span is queued, batched or dispatched, exactly as often as it was sent, and Enqueued = waiting + batched + Processed |
| IngestPipeline.EverySpanIsCounted | internal/pipeline/pipeline.go:87-100 | over any run Enqueued + Dropped is the number of spans handed to Accept, up to updates under way |
| IngestPipeline.NeverOfferedTwice | internal/pipeline/pipeline.go:159-168 | no processor sees a span more often than it was accepted, and each sees every dispatched one, whatever the others answer |
| IngestPipeline.StoppedAccount | internal/pipeline/pipeline.go:117-120 | when Stop returns, every processor was offered what was accepted except the chunks left in the channel |
| IngestPipeline.StopDrains | internal/pipeline/pipeline.go:117-168 | without cancellation and with a worker, each accepted span was offered exactly once to every processor and the counters agree |
| IngestPipeline.StopDrainsIff | internal/pipeline/pipeline.go:106-151 | for any number of workers, and with the context cancelled or not: every such stop has drained iff there is no processor, or a worker and no cancellation |
| IngestPipeline.CancellationStrands | internal/pipeline/pipeline.go:149-151 | workers that leave one by one after a cancellation, or no workers at all, leave a chunk behind: a run for any number of workers |
| IngestPipeline.WaitingBound | internal/pipeline/pipeline.go:71-82 | the tight bound on the waiting spans is the chunk capacity times the chunk size |
| IngestPipeline.QueueSizeCaps | internal/pipeline/pipeline.go:26-27 | QueueSize caps the waiting spans iff capacity times chunk size does not exceed it |
| IngestPipeline.DefaultsOverrun | internal/pipeline/pipeline.go:37-44 | the defaults hold the cap for chunks up to 1250 spans, and batch-sized chunks reach 800000 waiting spans |
| IngestPipeline.Pipeline.Accept | internal/pipeline/pipeline.go:87-100 | queues a chunk or refuses it as a whole, and never waits |
| IngestPipeline.Pipeline.Dispatch | internal/pipeline/pipeline.go:159-168 | offers the batch to every processor in turn and counts failures without stopping |
| IngestPipeline.Pipeline.CloseQueue | internal/pipeline/pipeline.go:117-118 | the part of a stop that precedes the wait is the closing step |
| IngestPipeline.Pipeline.Turn | internal/pipeline/pipeline.go:122-157 | one turn of the worker loop is exactly the event it woke for and the flush that follows |
| DumpJobs.StepIsLocal | internal/api/diagnostics.go:206-230 | jobs do not disturb each other |
| DumpJobs.RecordsSettleOnce | internal/identity/diagnostics.go:224-314 | under any interleaving a record leaves pending at most once, a settled record never changes, a deleted one never reappears |
| DumpJobs.StatusIsJustified | internal/api/diagnostics.go:206-387 | cancelled only if some stop request found the application unreachable; ready only with the name and byte count that were copied |
| DumpJobs.MarksAreHistory | internal/api/diagnostics.go:206-387 | the marks on a job are facts about its run: a stop request found the application unreachable, its context was cancelled or expired, its completion was refused after that |
| DumpJobs.PendingForGood | internal/api/diagnostics.go:326-328 | with a healthy database the record of a finished job is still pending iff, in its run, the completion was refused after the context had been cancelled or had expired; its file had then arrived |
| DumpJobs.FinishedIsFinal | internal/api/diagnostics.go:219-230 | nothing but a deletion touches the record of a finished job |
| DumpJobs.LateStopNeverSettles | internal/api/diagnostics.go:339-387 | a stop between copy and completion leaves the record pending whatever follows: a concrete run |
| DumpJobs.InterruptedNeverFails | internal/api/diagnostics.go:232-247 | a job interrupted before it decided how to end never ends as failed or ready |
| DumpJobs.DumpServer.HandleCapture | internal/api/diagnostics.go:143-203 | opens a record and a job iff every check passes, and changes nothing otherwise |
| DumpJobs.DumpServer.BeginFetch | internal/api/diagnostics.go:209-224 | registers the job's cancel function |
| DumpJobs.DumpServer.EndFetch | internal/api/diagnostics.go:226-334 | writes the outcome once and removes the entry |
| DumpJobs.DumpServer.WriteCompletion | internal/identity/diagnostics.go:234-239 | takes effect iff the job's context is live and the database answers |
| DumpJobs.DumpServer.BeginStop | internal/api/diagnostics.go:340-353 | goes on to ask the application iff the record exists and is pending |
| DumpJobs.DumpServer.EndStop | internal/api/diagnostics.go:355-387 | gives up the own wait iff the application was unreachable and the job still runs, and answers accordingly |
| DumpJobs.DumpServer.HandleDelete | internal/api/diagnostics.go:466-483 | removes the record, or finds none |
| LoginLimiter.SweepIsUnobservable | internal/api/auth.go:57-89 | with a clock that never runs backwards the limiter answers as one that never sweeps |
| LoginLimiter.AnswersAreLocal | internal/api/auth.go:57-89 | the answer for a key depends on that key's calls alone |
| LoginLimiter.WindowPassesQuota | internal/api/auth.go:57-70 | within a window exactly the first max attempts pass, and at least the one that opened it |
| LoginLimiter.RateIsBounded | internal/api/auth.go:57-70 | no span of time as long as a window lets more than two quotas of attempts under one key pass |
| LoginLimiter.RunPassesQuota | internal/api/auth.go:57-89 | in any run over interleaved keys, with all its sweeps: of the attempts of a key within a window exactly the first max pass, and at least the one that opened it |
| LoginLimiter.RunBoundsRate | internal/api/auth.go:57-89 | in any such run, a stretch no longer than a window without a successful login lets at most two quotas under a key pass |
| LoginLimiter.Limiter.TryLogin | internal/api/auth.go:57-70 | answers and counts as specified |
| LoginLimiter.Limiter.Reset | internal/api/auth.go:73-77 | forgets the key |
| LoginLimiter.Limiter.Sweep | internal/api/auth.go:80-89 | keeps exactly the unexpired counters once there are a thousand |
| DumpJanitor.KeepsLongestPrefix | internal/api/dumpjanitor.go:79-85 | the quota pass keeps the longest newest prefix that fits |
| DumpJanitor.UnexpiredIsFilter | internal/api/dumpjanitor.go:64-77 | the age pass keeps exactly the unexpired dumps |
| DumpJanitor.KeptAreNewest | internal/api/dumpjanitor.go:61-85 | whatever is kept is at least as new as whatever was removed for the quota |
| DumpJanitor.AnotherRoundIsIdle | internal/api/dumpjanitor.go:54-85 | another round at the same instant removes nothing, in whatever order equally old dumps are listed |
| DumpJanitor.Janitor.ExpireDumps | internal/api/dumpjanitor.go:64-77 | the walk leaves the unexpired records and their total |
| DumpJanitor.Janitor.EnforceQuota | internal/api/dumpjanitor.go:79-85 | the backward walk leaves the fitting prefix |
| DumpJanitor.Janitor.CleanDumps | internal/api/dumpjanitor.go:54-85 | the whole round, with its two counts |
| DumpJanitor.Janitor.RemoveDump | internal/api/dumpjanitor.go:98-107 | removes the record of the id and no other |
| Injection.IndexOfIsFirst | internal/k8s/inject.go:94-105 | the annotation selects the first container of that name, or none |
| Injection.InjectIsIdempotent | internal/k8s/inject.go:66-92 | injecting an injected pod changes nothing, even under another configuration |
| Injection.InjectionIsFramed | internal/k8s/inject.go:66-92 | only one container changes, and of it only mounts and environment, which are extended; images and everything around stay |
| Injection.InjectedIsEquipped | internal/k8s/inject.go:53-92 | an injected pod asks for no further injection and has what its container mounts |
| Injection.UserEnvWins | internal/k8s/inject.go:248-262 | a merge gives every name the values the user gave it, and only absent names the added ones |
| Injection.ServiceNameSeen | internal/k8s/inject.go:214-237 | the container sees its own service name or the derived one |
| Injection.MergeEnv | internal/k8s/inject.go:250-262 | keeps the list and appends the variables whose names it lacks, in order |
| Injection.AppendVolumeMount | internal/k8s/inject.go:264-271 | adds the mount unless one of that name exists |
| Injection.Pod.TargetContainer | internal/k8s/inject.go:94-105 | finds the container to instrument or reports the unknown name |
| Injection.Pod.AddVolume | internal/k8s/inject.go:107-118 | adds the shared volume unless one of that name exists |
| Injection.Pod.AddInitContainer | internal/k8s/inject.go:135-159 | adds the init container unless one of that name exists |
| Injection.Pod.Inject | internal/k8s/inject.go:66-92 | instruments the pod in place; a rejected pod stays as it was |

## Left out

- Integer width: counters and sums are unbounded; the 64-bit wrap-around of the source is not modelled.
- ShardIndex.RoundShards: requests above 2^62, for which the doubling of a 64-bit integer never reaches its target, are excluded.
- Floating point: ratios, shares and percentiles are reals, bucket bounds exact nanoseconds.
- Confluence.RunsConverge: is stated for runs in which no rotation intervenes, no stripe refuses, the minute is fixed and each key occurs at most once per side; once rotations intervene the outcome depends on their timing, which PairWindow.PairingWindow states exactly.
- EdgeFlow.RecordedEdgesAreThePairings: holds for runs that never find a stripe full; EdgeFlow.EdgesAreAccounted covers all runs.
- Waterfall.WaterfallIsExact: asks for distinct, non-empty span ids; without them the recursion of the source need not end.
- The order of equal keys: descending lists place equal times in any order, and the sort library is modelled by ordered insertion.
- Layout coordinates, the force simulation, drawing and dialogs of the web views.
- Kind, code location and label of a hotspot, and two different service/name pairs whose joined keys coincide.
- IngestPipeline: the reuse of a worker's batch slice; processors are taken not to keep it.
- A second close of the queue and a send on a closed queue, where the source panics.
- DumpJobs: files on disk, and a process that stops in the middle of a job.
- TopologyView.DrawGraph: which namespace and workload of a group the query's `any` picks; they are arbitrary.
- TopologyView: the limit of 2000 groups; DumpJanitor: the limit of 10000 records; trace detail: the limit of 10000 spans.
- DumpJanitor.Janitor.CleanDumps: database errors while deleting, orphaned files and disk usage.
- TraceSearch: the text of the minimum duration, the order and the limit of the answer; and which rows the storage chooses to merge, here any two of a trace.
- Receivers, protobuf decoding, drivers, SQL text, sessions, permissions, certificates, webhook plumbing and the .NET agent.
