# foghttp_benchmark, modelled and proved in Dafny

foghttp_benchmark measures HTTP clients. Around the measurements sits code that must not get its own book-keeping
wrong: observations shared by many concurrent streams under a cap, a lifecycle server and its observers, work queues,
and report rows that are produced in one place and checked in another. This project models that code and proves what
it promises, for all inputs, all schedules and all runs.

| Part | Modules |
|---|---|
| Bounded observation of concurrent streams, replay segmentation, timed windows and their later admission | `AttributionConsume`, `ObservationRuns`, `AttributionStreams`, `AttributionReplay`, `AttributionOverhead`, `AttributionWindow`, `AcceptedWindows`, `AttributionMeasure`, `AttributionBatch`, `AttributionAdmission`, `AttributionMeasurement`, `StreamOutcomes`, `HealthyBatches` |
| Lifecycle server, held-tail evidence, health between snapshots | `StreamMachine`, `ServerRuns`, `ServerHealth`, `LifecycleServer`, `StreamEndings` |
| Phase markers between two processes, capped resource sampler, the parent's loop over both | `PhaseMarkers`, `PhaseNames`, `ResourceSampler`, `LifecycleMonitor` |
| Work-queue load engine, mixed origins, serialised first request | `WorkQueue`, `FirstRequest` |
| Report rows: identity, checks, aggregation, merging, comparison, proxy ratios | `ReportRows`, `OrdinaryRows`, `ResourceCoverage`, `Medians`, `RequestAggregation`, `RequestAdmission`, `UnevenGroups`, `ReportMerge`, `RowChanges`, `MergedReports`, `BenchmarkRows`, `Comparison`, `ComparisonMeaning`, `RunsCompared`, `ProxyRatios` |
| Deterministic body, integrity verdicts, proxy header round trip | `BytesPayload`, `StreamConsume`, `HeadText`, `ProxyHeaders` |
| Shared vocabulary: counters, histograms, grouping, sorting, text, clocks, arithmetic | `Common`, `MapSums`, `Histograms`, `Grouping`, `Ordering`, `Text`, `Clocks`, `Arithmetic` |

How the concurrent parts are modelled: each coroutine, handler or thread is cut at the points where another may run. A
state machine takes one such segment per step, a run is any sequence of steps, and invariants hold over every run.
Beside each machine stand the objects of the program, with methods that execute the same segments in place and are
proved to take exactly the machine's steps (`AttributionStreams.Drive`, `LifecycleServer.Serve`,
`FirstRequest.Schedule`, `WorkQueue.RunLoad`, `PhaseMarkers.Worker.Mark`, `PhaseMarkers.CheckMarker`,
`LifecycleMonitor.MonitorClient`).

Idealisations: clocks are nondecreasing integers; floating-point numbers are reals; SHA-256 is an arbitrary function of
the concatenated updates, injective only where a lemma says so; JSON objects hold only the fields that are read; process
counters, network data and exceptions are whatever the environment delivers; octets that the program decodes as latin-1
are written as characters.

Four promises fail for some inputs. Each is stated with its exact condition and with an input that breaks it.

- Phase names on the two sides of the marker handshake. They agree in all interleavings of a worker's script if and only
  if the script, between a timeout and the next success, marks no other name than the one it gave up
  (`PhaseNames.NamesAgreeIff`). From every idle state another name splits them (`PhaseNames.TimeoutSplitsNames`). The
  program's own workers mark `after_client_close` in a `finally` block after any timed-out phase
  (foghttp_benchmark/streaming/lifecycle_worker.py:412-416 and 453-458), so their first phase can be recorded by the
  parent under its own name and by the worker as the closing one (`PhaseNames.ClosingSplitsNames`). Sequence numbers
  agree in every run (`PhaseMarkers.NumericLockstep`).
- The aggregate of admitted request runs is admitted exactly when its errors fit the first run's request count times the
  repeats (`RequestAdmission.AggregateAdmittedIff`), because the aggregate keeps the request count of the first run of its
  group only. One request that succeeded followed by ten that failed is refused (`UnevenGroups.SingleThenTen`).
- A batch whose clock does not move during the load is recorded but fails the timing check
  (`AttributionAdmission.TimingAcceptedIff`); a batch of no rounds read off at one instant is one
  (`AttributionAdmission.InstantRefused`), and so is any other batch had its clock stood still
  (`AttributionAdmission.StoppedClockRefused`).
- The merged report of decodable children passes the decoder exactly when every row would survive the legacy migration
  (`MergedReports.MergedDecodableIff`), because it is checked before it declares a schema version. A current child with a
  null `max_connections` decodes alone and is refused in a merge (`MergedReports.NullLimitRefused`). Once published, such
  a merge decodes, to itself, as far as the checks modelled here go.

## Model

| member | source | states |
|---|---|---|
| `AttributionConsume.ObservationBudget.TakeRecord` | foghttp_benchmark/streaming/attribution_consume.py:43-47 | a record is granted exactly while the cap is not reached, and charged once |
| `AttributionConsume.ObservationBudget.TakeHistogramBin` | foghttp_benchmark/streaming/attribution_consume.py:49-53 | a histogram bin is granted exactly while the cap is not reached, and charged once |
| `AttributionConsume.ChunkObservations.Observe` | foghttp_benchmark/streaming/attribution_consume.py:86-122 | one call on shared objects is exactly the step whose runs are analysed in ObservationRuns |
| `AttributionConsume.ChunkObservations.RecordTrace` | foghttp_benchmark/streaming/attribution_consume.py:288-300 | the diagnostic record shares the record cap with delivery samples |
| `ObservationRuns.RunKeepsWorld` | foghttp_benchmark/streaming/attribution_consume.py:34-165 | every interleaving of every set of streams keeps the whole invariant: tallies, extremes, samples, histograms and shared counters |
| `ObservationRuns.BudgetExactness` | foghttp_benchmark/streaming/attribution_consume.py:34-122 | after any run each histogram counts exactly every size it holds, is complete if and only if its counts add up to the chunks delivered, and the shared counters equal what the streams hold, within both caps |
| `ObservationRuns.StreamFacts` | foghttp_benchmark/streaming/attribution_consume.py:86-165 | delivery samples are the first deliveries numbered from one, their gaps telescope to last minus first, and min * chunks <= bytes <= max * chunks |
| `ObservationRuns.GapsTelescope` | foghttp_benchmark/streaming/attribution_consume.py:110-122 | the gaps of the first n samples add up to the n-th arrival minus the first |
| `AttributionStreams.PendingStream.Advance` | foghttp_benchmark/streaming/attribution_consume.py:268-300 | a consumer coroutine from one await to the next, error and end of file included |
| `AttributionStreams.Drive` | foghttp_benchmark/streaming/attribution_consume.py:238-300 | running any schedule on objects that share one budget gives exactly the state the machine reaches |
| `StreamOutcomes.OverflowIff` | foghttp_benchmark/streaming/attribution_consume.py:268-285 | after any schedule in which nothing was raised on a stream, the stream has failed, with a ValueError, exactly when more bytes arrived than its body declares |
| `StreamOutcomes.RaisedIsKept` | foghttp_benchmark/streaming/attribution_consume.py:249-264 | an exception ends a stream wherever it stands and stays its error whatever follows; what was received is kept, and on a stream that has ended it changes nothing |
| `StreamOutcomes.ServedIntactIff` | foghttp_benchmark/streaming/attribution_consume.py:184-300 | an exchange that runs to its end, in any chunking and with anything interleaved, leaves the stream intact exactly when its head is the declared one and the delivered bytes have the declared length and digest |
| `StreamOutcomes.ServedIsIntact` | foghttp_benchmark/streaming/attribution_consume.py:184-300 | so a stream that is sent the declared body ends intact |
| `StreamOutcomes.TraceIsPrefix` | foghttp_benchmark/streaming/attribution_consume.py:288-300 | with diagnostics, trace k is about the k-th consumed chunk, with that chunk's own times, until the trace cap or the shared one is reached |
| `HealthyBatches.WindowCompleteIff` | foghttp_benchmark/streaming/attribution_consume.py:95-102 | after any schedule the window's histogram is complete exactly when no more different sizes arrived than it may hold |
| `HealthyBatches.HealthyWindowAdmitted` | foghttp_benchmark/streaming/attribution_window.py:16-157 | a timed batch whose streams are all served the declared body, in few enough different sizes and segments, passes both later checks |
| `AttributionReplay.PlaceSize` | foghttp_benchmark/streaming/attribution_measure.py:119-131 | the inner loop places every chunk of one size and terminates |
| `AttributionReplay.SegmentsPartition` | foghttp_benchmark/streaming/attribution_measure.py:116-133 | the counts of all segments add up to the input histogram, size by size |
| `AttributionReplay.SegmentsWithin` | foghttp_benchmark/streaming/attribution_measure.py:116-133 | every segment is nonempty and within both limits, all but the last are full, and sizes never decrease |
| `AttributionReplay.ReplaySegments` | foghttp_benchmark/streaming/attribution_measure.py:116-133 | the drained generator has all of these properties |
| `AttributionReplay.SegmentCount` | foghttp_benchmark/streaming/attribution_measure.py:116-133 | at most B/(Mb-s+1) + C/Mc + 1 segments for B bytes, C chunks and largest size s |
| `AttributionOverhead.ObservedHistogram` | foghttp_benchmark/streaming/attribution_measure.py:104-113 | the merged histogram is exact on the sizes it keeps, whatever the order of entries, and complete if and only if every part is and nothing was dropped |
| `AttributionOverhead.ReplayFailureReason` | foghttp_benchmark/streaming/attribution_measure.py:159-182 | no reason exactly when a whole histogram of everything observed fits the limits; otherwise the reason is true of the observations and comes before every other that is |
| `AttributionOverhead.ReplayHistogram` | foghttp_benchmark/streaming/attribution_measure.py:136-156 | byte and chunk totals of one histogram and three nonnegative durations |
| `AttributionOverhead.ReplayHarnessOverhead` | foghttp_benchmark/streaming/attribution_measure.py:185-273 | a successful window replay satisfies every later replay check; it gives up on segments only if the segment bound exceeds 64; a failed one reports nothing replayed |
| `AttributionWindow.ReadHistogram` | foghttp_benchmark/streaming/attribution_window.py:105-115 | reads saved bins one by one; a repeated size or nonpositive entry makes the list unusable |
| `AttributionWindow.ParsedCounts` | foghttp_benchmark/streaming/attribution_window.py:105-115 | a usable list stands for the histogram with exactly its counts |
| `AttributionWindow.ListedReads` | foghttp_benchmark/streaming/attribution_window.py:105-115 | reading back the sorted items of a histogram gives the histogram |
| `AttributionWindow.ReplayMatches` | foghttp_benchmark/streaming/attribution_window.py:118-157 | accepts exactly the replays whose segments are well formed, within limits, add up to the histogram and to the reported totals |
| `AttributionWindow.WindowDistributionMatches` | foghttp_benchmark/streaming/attribution_window.py:47-88 | accepts exactly the batches whose window histogram, samples and replay agree |
| `AcceptedWindows.DistributionTells` | foghttp_benchmark/streaming/attribution_window.py:47-157 | conservation in any accepted batch, whoever wrote it: the bytes its replay segments add up to are one body for each stream, the chunks are those its streams read, in at most 64 segments each within the declared limits |
| `AcceptedWindows.SamplesTell` | foghttp_benchmark/streaming/attribution_window.py:47-102 | every stream of an accepted batch fits the window's bins: its smallest and largest chunk occur there, and chunks of such sizes can make up its body |
| `AcceptedWindows.WorkloadTells` | foghttp_benchmark/streaming/attribution_window.py:16-44 | an accepted batch ran whole rounds of verified streams within the declared limits, and its stop reason is the true one: it reached its duration, or not one more round fits |
| `AcceptedWindows.TimingTells` | foghttp_benchmark/streaming/attribution_aggregation.py:303-342 | the load of an accepted batch lies between the probes of both processes, and the overhang is exactly the time between the probes outside it |
| `AttributionMeasure.Finalize` | foghttp_benchmark/streaming/attribution_consume.py:184-213 | the saved sample of one stream, error verdict included |
| `AttributionMeasure.FailureIff` | foghttp_benchmark/streaming/attribution_consume.py:184-224 | a stream has no failure exactly when it ended, with status 200, the declared Content-Length, identity HTTP/1.1 framing, the declared number of bytes and the expected digest |
| `AttributionMeasure.ConsumeLoad` | foghttp_benchmark/streaming/attribution_measure.py:285-328 | whole rounds only; the loop ends with the first round whose stop condition holds, or with the last prepared one |
| `AttributionMeasure.StopsIff` | foghttp_benchmark/streaming/attribution_measure.py:318-323 | the stop condition holds exactly when the minimum rounds have run and the seconds since the start reach the declared duration |
| `AttributionBatch.Probe` | foghttp_benchmark/streaming/attribution_measure.py:46-60 | a probe lies between two clock readings |
| `AttributionBatch.CpuDeltaFacts` | foghttp_benchmark/streaming/attribution_measure.py:63-101 | a CPU delta is available exactly when both probes were and no counter decreased, is never negative, and added to the first probe gives the second, user and system time apart |
| `AttributionBatch.MaximumRoundsFit` | foghttp_benchmark/streaming/attribution_measure.py:360-364 | a timed batch prepares as many whole rounds as its stream limit holds, any other exactly those asked for |
| `AttributionBatch.FinalizeAll` | foghttp_benchmark/streaming/attribution_measure.py:388-397 | samples are numbered 1, 2, ... in stream order |
| `AttributionAdmission.RecordAccounts` | foghttp_benchmark/streaming/attribution_measure.py:384-428 | the record's totals are those of its streams: verified bytes are the body times the verified streams, failed streams are listed exactly, and recorded plus dropped deliveries are all deliveries |
| `AttributionAdmission.RecordsCharged` | foghttp_benchmark/streaming/attribution_measure.py:394-405 | recorded deliveries and traces are together what the shared budget was charged, within its cap; with diagnostics every chunk has a trace or counts as dropped |
| `AttributionAdmission.WindowWorkloadAccepted` | foghttp_benchmark/streaming/attribution_window.py:16-44 | a timed batch always matches its declared window; a missed target means all limit // concurrency rounds ran |
| `AttributionAdmission.WorkloadAccepted` | foghttp_benchmark/streaming/attribution_aggregation.py:290-300 | a batch of whole rounds passes the workload check if and only if every stream was verified |
| `AttributionAdmission.DistributionAccepted` | foghttp_benchmark/streaming/attribution_window.py:47-102 | verified streams, a complete histogram and a successful replay pass the distribution check |
| `AttributionAdmission.WindowAcceptedIff` | foghttp_benchmark/streaming/attribution_window.py:16-157 | the workload and distribution checks together accept a timed batch if and only if all streams were verified, the histogram is complete and the replay succeeded |
| `AttributionAdmission.TimingAcceptedIff` | foghttp_benchmark/streaming/attribution_aggregation.py:303-342 | the timing check passes if and only if the clock moved during the load, hence whenever a target was reached |
| `AttributionAdmission.StoppedClockRefused` | foghttp_benchmark/streaming/attribution_measure.py:373-394 | any batch whose clock stands still during the load is consistent and refused |
| `AttributionAdmission.OwnHistogramMatchesIff` | foghttp_benchmark/streaming/attribution_aggregation.py:224-237 | outside a window, a verified stream's own histogram passes its check if and only if it is complete |
| `AttributionAdmission.CoverageNeverFails` | foghttp_benchmark/streaming/attribution_measure.py:174-179 | a complete histogram made from a run always covers every observed byte and chunk, so that failure reason never occurs |
| `AttributionAdmission.ReplaySucceeds` | foghttp_benchmark/streaming/attribution_measure.py:185-273 | a complete window that saw a chunk is replayed whenever no chunk exceeds the replay limit and the segment bound is at most 64 |
| `AttributionAdmission.BoundedReplayAdmitted` | foghttp_benchmark/streaming/attribution_measure.py:185-273 | so a verified, complete window within these bounds is admitted, with nothing left to the replay |
| `AttributionMeasurement.MeasureAsyncBatch` | foghttp_benchmark/streaming/attribution_measure.py:331-487 | for every valid request, schedule and clock, the record stands up to every later check exactly when streams, histogram and replay succeeded, and the replay of a complete window does when no chunk exceeds its limit and the segment bound is at most 64; invalid requests are refused |
| `StreamMachine.EventKeepsStream` | foghttp_benchmark/streaming/lifecycle_server.py:250-330 | every event at every await keeps the stream invariant: bytes written are whole chunks, barriers hold, counters match the chunks begun and drained |
| `StreamMachine.LastChunk` | foghttp_benchmark/streaming/lifecycle_server.py:295-310 | the chunk that reaches the end of the body is number ceil(body / write) |
| `ServerRuns.RunKeepsServer` | foghttp_benchmark/streaming/lifecycle_server.py:123-330 | every schedule of every set of handlers keeps the server invariant |
| `ServerRuns.StreamSafety` | foghttp_benchmark/streaming/lifecycle_server.py:250-330 | end of file means the whole body was written and excludes a disconnect; an unreleased held-tail stream wrote at most one chunk, an unreleased body-wait stream nothing |
| `ServerRuns.Conservation` | foghttp_benchmark/streaming/lifecycle_server.py:147-156 | an inactive stream is exactly one of ended, disconnected or charged one handler error, and all charges are accounted for |
| `ServerRuns.ReleasedIff` | foghttp_benchmark/streaming/lifecycle_server.py:138-140 | a stream is released exactly by an explicit release request for it |
| `ServerRuns.EvidenceBeforeEof` | foghttp_benchmark/streaming/lifecycle_controls.py:104-133 | held-tail evidence holds exactly once the first chunk drained before a release, and the end of file needs a release after it |
| `StreamEndings.ExceptionDecides` | foghttp_benchmark/streaming/lifecycle_server.py:147-156 | an exception out of a write or a drain ends the stream: a connection error leaves it disconnected, any other failed, and nothing else fails a stream |
| `StreamEndings.DisconnectedIff` | foghttp_benchmark/streaming/lifecycle_server.py:250-330 | a stream becomes disconnected exactly by a connection error or by losing its peer while it waits for its release |
| `StreamEndings.EofIff` | foghttp_benchmark/streaming/lifecycle_server.py:295-330 | the end of file is sent exactly when the drain of the last chunk succeeds |
| `StreamEndings.ChargedExactly` | foghttp_benchmark/streaming/lifecycle_server.py:147-151 | after any schedule the handler errors are the exceptions other than connection errors that left an accepted stream, plus the replies outside them that could not be written |
| `StreamEndings.WholeBodyServed` | foghttp_benchmark/streaming/lifecycle_server.py:250-330 | with every write and drain successful and every wait released, a stream of any kind writes its whole body and ends after ceil(body / write) chunks |
| `ServerHealth.HealthIff` | foghttp_benchmark/streaming/lifecycle_worker.py:281-363 | between snapshots, the first quiet, the health check passes if and only if exactly the expected new normal streams were accepted, all ended, nothing was charged and the configuration is the declared one; the delivery totals then always agree |
| `ServerHealth.HealthyStreams` | foghttp_benchmark/streaming/lifecycle_worker.py:281-363 | each new normal stream of a passing comparison wrote the whole body in exactly ceil(body / write) writes, drains and completed drains |
| `ServerHealth.CompletedCounts` | foghttp_benchmark/streaming/lifecycle_server.py:208-232 | a completed body has ceil(body / write) write calls, drain calls and completed drains |
| `LifecycleServer.BodyDelivery.BeginWrite` | foghttp_benchmark/streaming/lifecycle_server.py:38-50 | a write counts once, its drain only if the write did not raise |
| `LifecycleServer.BodyDelivery.EndDrain` | foghttp_benchmark/streaming/lifecycle_server.py:50-55 | an interrupted drain keeps its elapsed time but is not completed |
| `LifecycleServer.StreamState.Advance` | foghttp_benchmark/streaming/lifecycle_server.py:250-330 | a handler from one await to the next is one step of the machine, and raises out of the handler exactly when the stream becomes failed |
| `LifecycleServer.LifecycleServer.Handle` | foghttp_benchmark/streaming/lifecycle_server.py:123-156 | one segment of any handler on the shared table is one step of the machine |
| `LifecycleServer.Serve` | foghttp_benchmark/streaming/lifecycle_server.py:103-156 | serving any schedule with objects is a run of the machine |
| `PhaseMarkers.NumericLockstep` | foghttp_benchmark/streaming/lifecycle_worker.py:87-106 | worker acks <= parent sequence <= worker acks + 1 in every interleaving, recorded sequences are 1, 2, ... without gap or repeat, and the out-of-order branch needs all 256 phases acknowledged |
| `PhaseMarkers.ReadDecides` | foghttp_benchmark/isolation/lifecycle.py:209-230 | the parent takes a marker exactly when it bears the next number within the limit and a name that fits, and refuses exactly what is neither that nor the marker it already has |
| `PhaseNames.NamesAgreeIff` | foghttp_benchmark/streaming/lifecycle_worker.py:87-106 | for every script of a worker: in all interleavings the acknowledged phases are a prefix of the recorded ones, names included, if and only if no other name follows one given up before the next success |
| `PhaseNames.NamesAgree` | foghttp_benchmark/isolation/lifecycle.py:209-230 | in every single run in which that holds of the markers actually written, the names agree |
| `PhaseNames.PatientNamesAgree` | foghttp_benchmark/streaming/lifecycle_worker.py:100-102 | in particular in every run without a timeout |
| `PhaseNames.TimeoutSplitsNames` | foghttp_benchmark/streaming/lifecycle_worker.py:88-106 | from every idle state with room for a phase, giving one up after the parent took it and marking any other makes the two sides name it differently |
| `PhaseNames.ClosingSplitsNames` | foghttp_benchmark/streaming/lifecycle_worker.py:412-416 | the script of the program's own workers has such a run |
| `PhaseMarkers.PhaseCompletes` | foghttp_benchmark/isolation/lifecycle.py:209-230 | with nothing in its way, a phase completes on both sides |
| `PhaseMarkers.Worker.Mark` | foghttp_benchmark/streaming/lifecycle_worker.py:87-106 | the marker is always written; the phase is recorded exactly when a look before the deadline passes sees its acknowledgement; with any parent steps between the looks, the call is a run of the machine |
| `PhaseMarkers.CheckMarker` | foghttp_benchmark/isolation/lifecycle.py:209-230 | an uninterrupted check is one read and one acknowledgement step, and a refused marker changes nothing |
| `LifecycleMonitor.MonitorClient` | foghttp_benchmark/isolation/lifecycle.py:275-311 | with any worker steps between the rounds, the whole loop is a run of the machine; what it returns is decided by the first round that is not calm, tested in the program's order; it ends without complaint exactly when every round was calm, the sampler had nothing to say, and server and client ended as they should |
| `ResourceSampler.LifecycleResourceSampler.Take` | foghttp_benchmark/isolation/lifecycle_resources.py:144-159 | one observation: stored while there is room, always in the peaks, cap failure exactly when the cap is first exceeded, ceiling verdict |
| `ResourceSampler.LifecycleResourceSampler.TakeAll` | foghttp_benchmark/isolation/lifecycle_resources.py:141-160 | any series of calls keeps: stored samples are the first max_samples, truncated iff exceeded and reported exactly once, peaks exact; besides the cap the failures are the verdicts on the samples, in order |
| `ResourceSampler.LifecycleResourceSampler.MarkPhase` | foghttp_benchmark/isolation/lifecycle_resources.py:162-173 | a mark samples every role and adds one CPU delta to each role marked before |
| `ResourceSampler.PeakIsMaximum` | foghttp_benchmark/isolation/lifecycle_resources.py:150-154 | a peak is attained by some observation, stored or not, bounds all of them, and is null exactly when none was measured |
| `ResourceSampler.CeilingEnforcedIff` | foghttp_benchmark/isolation/lifecycle_resources.py:155-159 | in any series of samples a role is reported over the ceiling exactly when its peak is over it, stored or not, and as unenforceable exactly when a sample without a termination lacks its memory |
| `ResourceSampler.DeltasTelescope` | foghttp_benchmark/isolation/lifecycle_resources.py:162-173 | when every delta of a role is available they add up to its last mark minus its first |
| `ResourceSampler.DeltasChain` | foghttp_benchmark/isolation/lifecycle_resources.py:166-171 | the deltas of a role lead from each of its marks to the next one |
| `ResourceSampler.DeltaAvailable` | foghttp_benchmark/isolation/lifecycle_resources.py:210-230 | a delta is available exactly when both counters are and none decreased |
| `WorkQueue.Conservation` | foghttp_benchmark/load.py:53-83 | queued + held + finished == requests, and every taken index belongs to exactly one worker and one result |
| `WorkQueue.JoinIffFinished` | foghttp_benchmark/load.py:80-83 | join returns exactly when everything finished, which all workers returning implies |
| `WorkQueue.RunLogged` | foghttp_benchmark/load.py:57-78 | after any schedule each worker holds the latencies of exactly the requests it finished, in order, or none when the load does not collect |
| `WorkQueue.MergedLatencies` | foghttp_benchmark/load.py:150-157 | the merged latencies are those of all finished requests, as a multiset |
| `WorkQueue.RunLoad` | foghttp_benchmark/load.py:17-125 | under an arbitrary scheduler a load always ends with every index finished once, one latency per request when collecting, which are the latencies measured, errors equal to the sum by type and at most requests, each type counted exactly |
| `WorkQueue.MergeLoadResults` | foghttp_benchmark/load.py:150-157 | latencies concatenated, counters added by key, errors equal to their sum |
| `WorkQueue.Increment` | foghttp_benchmark/load.py:146-147 | one counter goes up by one, all others stay, the total goes up by one |
| `WorkQueue.MergedTotals` | foghttp_benchmark/load.py:150-157 | what the merged result of all workers contains |
| `WorkQueue.ParitySplit` | foghttp_benchmark/resource/runner.py:372-390 | the requests sent are the indices in order, so ceil(n/2) go to the primary origin and floor(n/2) to the secondary |
| `FirstRequest.Serialised` | foghttp_benchmark/clients/zapros_client.py:51-62 | while the flag is clear at most one request is in flight and it is the lock holder's; the flag means exactly one request completed under the lock |
| `FirstRequest.NextIsSerialised` | foghttp_benchmark/clients/zapros_client.py:56-62 | a raising first request leaves the flag clear, and the next waiter calls under the lock |
| `FirstRequest.Unserialised` | foghttp_benchmark/clients/zapros_client.py:46-54 | without serialisation nobody waits |
| `FirstRequest.HolderMoves` | foghttp_benchmark/clients/zapros_client.py:57-62 | the lock holder always has a next step |
| `FirstRequest.EachCallRequestsOnce` | foghttp_benchmark/clients/zapros_client.py:51-62 | under every schedule each call of the adapter makes exactly one request, a waiter that finds the flag set included, and none returns without it |
| `FirstRequest.MovesIff` | foghttp_benchmark/clients/zapros_client.py:51-62 | a thread outside the client can always go on, except a waiter while the lock is held; inside, exactly when its request ends |
| `FirstRequest.ZaprosSyncAdapter.Advance` | foghttp_benchmark/clients/zapros_client.py:51-62 | one thread between two switch points, on the shared fields |
| `FirstRequest.Schedule` | foghttp_benchmark/clients/zapros_client.py:45-62 | threads sharing one adapter object behave as the machine |
| `ReportRows.IdentityDetermines` | foghttp_benchmark/report_schema/identity.py:34-67 | identities are equal if and only if mode, client, every workload field and the declared streaming scopes are |
| `ReportRows.GroupAndClient` | foghttp_benchmark/report_schema/identity.py:70-72 | group and client together determine an identity |
| `ReportRows.ValidateUniqueIdentities` | foghttp_benchmark/report_schema/identity.py:84-99 | accepts exactly the distinct lists and reports the first repetition with the position it repeats |
| `ReportRows.ValidateUniqueRows` | foghttp_benchmark/report_schema/identity.py:75-99 | accepts exactly the rows that all have an identity of their own, and otherwise reports the first row that has none or repeats one |
| `OrdinaryRows.ValidateErrorMap` | foghttp_benchmark/report_schema/ordinary.py:273-284 | accepts exactly the maps of nonnegative counts with nonblank keys that add up to the total |
| `OrdinaryRows.AdmittedIdentity` | foghttp_benchmark/report_schema/ordinary.py:176-197 | an admitted row has an identity |
| `OrdinaryRows.AdmittedKinds` | foghttp_benchmark/report_schema/ordinary.py:176-197 | admitted rows give each identity field the same kind of value, so identities are injective on them |
| `OrdinaryRows.AggregateTells` | foghttp_benchmark/report_schema/ordinary.py:200-221 | the errors of an admitted aggregate of any suite fit what its repeats can have recorded: requests that did not succeed, or the events its operations can raise |
| `OrdinaryRows.RunTells` | foghttp_benchmark/report_schema/ordinary.py:224-264 | and those of an admitted run what it can |
| `OrdinaryRows.ErrorMapWithinRequests` | foghttp_benchmark/report_schema/ordinary.py:224-245 | no error type of an admitted run exceeds its errors, nor these its requests |
| `ResourceCoverage.OptionalMaxFacts` | foghttp_benchmark/resource_metrics.py:29-31 | null exactly when nothing was observed, otherwise the largest observation |
| `ResourceCoverage.ResourceValues` | foghttp_benchmark/resource_metrics.py:47-59 | the observations that are there, in order |
| `ResourceCoverage.ValidateResourceCoverage` | foghttp_benchmark/report_schema/resources.py:78-120 | accepts exactly the aggregates whose coverage agrees with their own columns, repeats and runs |
| `ResourceCoverage.CoverageTells` | foghttp_benchmark/report_schema/resources.py:78-140 | an accepted metric expects as many observations as there are runs with the row's identity, has as many as of these recorded it, and is null exactly when none did |
| `RequestAggregation.AggregateResults` | foghttp_benchmark/reports.py:76-120 | one row per distinct key, in ascending order of key, every column the median, maximum, sum or share of that column over exactly the runs with that key |
| `RequestAggregation.MergeErrorTypes` | foghttp_benchmark/statistics.py:25-30 | counters added by key |
| `Medians.MedianIff` | foghttp_benchmark/reports.py:95-102 | the median is the one number half way between the two middle values, each with at most half of the values on either side |
| `Medians.MedianBetween` | foghttp_benchmark/reports.py:95-102 | it lies between any bounds of its values |
| `RequestAggregation.RowSummarises` | foghttp_benchmark/reports.py:84-118 | every column of an aggregate is computed from its own column of the runs: five medians, three maxima with their coverage, error sums and error types with warm-up apart, the share of failed requests and the spread of the rates |
| `RequestAdmission.AggregateAdmittedIff` | foghttp_benchmark/reports.py:84-118 | the aggregate of admitted runs passes every row check if and only if the summed errors fit the first run's requests times the repeats |
| `RequestAdmission.ErrorsFit` | foghttp_benchmark/report_schema/ordinary.py:209-213 | which they do when all runs of the group made the same number of requests |
| `UnevenGroups.RunAdmittedIff` | foghttp_benchmark/report_schema/ordinary.py:224-245 | which request runs the row checks admit, column by column |
| `UnevenGroups.UnevenGroupRefused` | foghttp_benchmark/reports.py:84-118 | after any admitted run, an admitted run of the same key that fails more than twice as many requests makes the aggregate be refused |
| `UnevenGroups.SingleThenTen` | foghttp_benchmark/reports.py:84-118 | one request that succeeded, then ten that failed: both runs admitted, their aggregate refused |
| `RequestAdmission.AggregationAdmitted` | foghttp_benchmark/reports.py:76-120 | aggregates of individually admitted runs with uniform requests per group pass the row checks and the coverage checks against those runs, with distinct identities |
| `RequestAdmission.RunsByKey` | foghttp_benchmark/report_schema/resources.py:85-87 | grouping runs by written identity is grouping them by key |
| `ReportMerge.MigrateLegacyRows` | foghttp_benchmark/report_schema/decoding.py:138-147 | legacy limits become request limits, or the report is refused |
| `ReportMerge.VersionsDecide` | foghttp_benchmark/report_schema/decoding.py:162-176 | only legacy reports and those of exactly the supported versions decode |
| `ReportMerge.DecodeTwice` | foghttp_benchmark/report_schema/decoding.py:41-82 | decoding an already decoded report changes nothing |
| `ReportMerge.MergePayloadLists` | foghttp_benchmark/isolation/reports.py:224-238 | child rows concatenated in order |
| `ReportMerge.MergeAdmitted` | foghttp_benchmark/isolation/reports.py:124-140 | children that are admitted, cover exactly their own aggregates and share no identity merge into an admitted report |
| `ReportMerge.MergeMixed` | foghttp_benchmark/isolation/reports.py:176-182 | with children of different ages the merged report is held to the current rules exactly when all children are |
| `ReportMerge.LoadSuccessful` | foghttp_benchmark/isolation/reports.py:124-140 | one decoded report per successful child, from its own path, in order; refused exactly when one does not load or an aggregate row of all children together has no identity of its own |
| `ReportMerge.UniqueDisjoint` | foghttp_benchmark/isolation/reports.py:139 | that closing check rules out an identity in two children |
| `ReportMerge.ChildDiagnostics` | foghttp_benchmark/isolation/reports.py:255-270 | each successful child gets its own payload and the iterator never runs out |
| `ReportMerge.LoadAndAnnotate` | foghttp_benchmark/isolation/reports.py:124-140 | loading and annotating together pair every child with the report of its own path |
| `MergedReports.FinalizeMergedData` | foghttp_benchmark/isolation/reports.py:95-121 | accepts exactly the finalisers that keep one row per identity in order and add no reserved metadata |
| `MergedReports.RatiosPass` | foghttp_benchmark/proxy_connect/finalization.py:12-30 | the proxy finaliser passes whenever it returns |
| `MergedReports.RatiosKeepAdmitted` | foghttp_benchmark/proxy_connect/finalization.py:27-30 | and keeps an admitted report admitted |
| `MergedReports.MigrationKeepsAdmitted` | foghttp_benchmark/report_schema/decoding.py:138-147 | migrating admitted rows, where it is not refused, keeps them admitted |
| `MergedReports.MergedCurrentIff` | foghttp_benchmark/isolation/reports.py:176-182 | a merge is held to the current resource rules exactly when it has children and all of them were |
| `MergedReports.MergedDecodableIff` | foghttp_benchmark/isolation/reports.py:57-60 | the merged report passes the decoder exactly when every row survives the legacy migration, and once published decodes to itself |
| `MergedReports.NullLimitRefused` | foghttp_benchmark/isolation/reports.py:57-60 | a current child that decodes and whose merge is refused |
| `MergedReports.WriteIsolationReport` | foghttp_benchmark/isolation/reports.py:26-73 | written exactly when children load, rows are unique, the finaliser preserves them and the result decodes; what is published is the result itself |
| `MergedReports.PreservedReportWritten` | foghttp_benchmark/report_finalization.py:19-20 | for suites that hand their rows back: exactly when children share no identity and every row is migratable |
| `BenchmarkRows.AdmittedLoads` | foghttp_benchmark/compare/loading.py:49-336 | a row of any suite that passed the row and coverage checks is never refused when it is read for a comparison |
| `BenchmarkRows.LoadedIdentity` | foghttp_benchmark/compare/loading.py:79-103 | what is read carries the row's identity, whose client is the row's own, and a measured nonnegative primary value |
| `RunsCompared.ReportIsRead` | foghttp_benchmark/compare/loading.py:15-34 | a report of good runs is read in full, with distinct identities; each row's primary, p95 and p99 are the medians, its errors the sums and its resources the maxima of exactly the runs with its key |
| `RunsCompared.RunsAreCompared` | foghttp_benchmark/compare/analysis.py:37-53 | from runs to verdict: two reports of good runs, aggregated, written, read and compared, have one comparison for each key of the client measured in both, which relates the medians of exactly those old and new runs, new against old, and no other |
| `Comparison.CanonicalRows` | foghttp_benchmark/compare/analysis.py:169-174 | refuses exactly the repeated identities, then sorts by identity |
| `Comparison.CanonicalForgetsOrder` | foghttp_benchmark/compare/analysis.py:169-174 | the canonical order does not depend on the given order and keeps exactly the rows |
| `Comparison.ComparisonForgetsOrder` | foghttp_benchmark/compare/analysis.py:37-94 | permuting the rows of either report does not change the comparison |
| `ComparisonMeaning.ComparisonTells` | foghttp_benchmark/compare/analysis.py:37-94 | a comparison has one entry for each identity of the client that both reports measure, new against old; the segments' means are of their own ratios; improvements are the best ratios, best first, regressions the worst, worst first, ties by identity, and nothing left out beats an entry that is in |
| `ComparisonMeaning.ComparisonAccounts` | foghttp_benchmark/compare/analysis.py:281-330 | it lists one error entry per new row with errors, compares peaks only where the scopes agree, and counts the identities measured in one report only |
| `ComparisonMeaning.RefusedIff` | foghttp_benchmark/compare/analysis.py:97-111 | a comparison is refused exactly for an unknown suite, different suites, a repeated identity or nothing shared, in that order |
| `ComparisonMeaning.SharedCompares` | foghttp_benchmark/compare/analysis.py:177-196 | each entry pairs an old and a new measured row of one identity; the ratio times the old value is the new value, infinite or one where the old value is not positive, and likewise for p95 and p99 |
| `ComparisonMeaning.TopsAreBestAndWorst` | foghttp_benchmark/compare/analysis.py:73-74 | the first n of the sorted comparisons are the n best and the n worst, with ties in order of identity |
| `Comparison.SharedAll` | foghttp_benchmark/compare/analysis.py:46-53 | every identity both reports have is compared |
| `Comparison.SharedAscends` | foghttp_benchmark/compare/analysis.py:46-53 | once each and in ascending order |
| `Comparison.RatioWithin` | foghttp_benchmark/compare/analysis.py:333-336 | a nonnegative value at most another is a fraction of it in [0, 1] |
| `Comparison.ScoreFacts` | foghttp_benchmark/compare/analysis.py:259-277 | rank is one if and only if the client wins, and its ratio to the winner lies in [0, 1] |
| `ComparisonMeaning.ScoreMeans` | foghttp_benchmark/compare/analysis.py:259-277 | the score of a client is that of its one row: the ratio times the group's best value is its own value, and its rank lies behind all better rows and not behind worse ones |
| `Comparison.OneWinner` | foghttp_benchmark/compare/analysis.py:263-273 | a group with a measured row has exactly one winning client |
| `Comparison.SegmentsPartition` | foghttp_benchmark/compare/analysis.py:199-220 | segments come in ascending order of name and every comparison belongs to exactly one |
| `Comparison.WinsForReport` | foghttp_benchmark/compare/analysis.py:243-278 | the record over all groups |
| `Comparison.RecordFacts` | foghttp_benchmark/compare/analysis.py:255-278 | one ratio and one rank per counted group, and as many wins as first ranks |
| `ProxyRatios.FinalizeProxyConnectRows` | foghttp_benchmark/proxy_connect/finalization.py:12-30 | refused exactly for rows without an identity, repeated identities or two direct reused-client rows with one baseline key, in that order; otherwise every row gets its ratio |
| `ProxyRatios.BaselineIsTheDirectRow` | foghttp_benchmark/proxy_connect/finalization.py:16-25 | every ratio is against the one direct row of its key |
| `ProxyRatios.NoBaseline` | foghttp_benchmark/proxy_connect/finalization.py:16-29 | without such a row there is no baseline |
| `ProxyRatios.RatioToDirect` | foghttp_benchmark/proxy_connect/finalization.py:27-45 | an admitted row's ratio times what its baseline measured is what the row measured, and null exactly when the baseline measured nothing positive; the baseline is the direct, reused-client row of the same mode, client, scheme and concurrency |
| `ProxyRatios.NoRatio` | foghttp_benchmark/proxy_connect/finalization.py:27-45 | and null without such a row |
| `ProxyRatios.FinalizeTwice` | foghttp_benchmark/proxy_connect/finalization.py:27-30 | finalising keeps identities and order and is idempotent |
| `ProxyRatios.FinalizeMerged` | foghttp_benchmark/proxy_connect/finalization.py:12-30 | finalising concatenated finalised children equals finalising their concatenated raw rows, refusals included |
| `BytesPayload.PayloadIsPattern` | foghttp_benchmark/streaming/bytes_payloads.py:11-13 | byte i of the payload is i mod 256 |
| `BytesPayload.StreamingBytesSha256` | foghttp_benchmark/streaming/bytes_payloads.py:17-23 | the blockwise digest is the digest of the payload |
| `BytesPayload.ServerBodyIsPattern` | foghttp_benchmark/streaming/lifecycle_server.py:121 | the server sends the same bytes |
| `StreamConsume.ConsumeStream` | foghttp_benchmark/streaming/lifecycle_consume.py:127-216 | accepted exactly when the head is as declared, something arrived, and the bytes taken have the declared length and digest; a refusal names the first thing that is wrong |
| `StreamConsume.ServedBodyAccepted` | foghttp_benchmark/streaming/lifecycle_consume.py:106-124 | any chunking of the served body passes, empty chunks included |
| `StreamConsume.ServedPrefixAccepted` | foghttp_benchmark/streaming/lifecycle_consume.py:119-121 | so does any first nonempty chunk of it |
| `StreamConsume.AcceptedBytes` | foghttp_benchmark/streaming/lifecycle_consume.py:106-124 | with an injective hash, acceptance means the bytes are exactly the payload, or a nonempty prefix of it |
| `ProxyHeaders.ParseRequestHeaders` | foghttp_benchmark/server.py:87-95 | the header dictionary a block defines, in insertion order |
| `ProxyHeaders.ParseClean` | foghttp_benchmark/server.py:87-95 | parsed names are lower-case, trimmed, free of colons and distinct; values are trimmed; neither holds a line end |
| `ProxyHeaders.ProxyOriginRequest` | foghttp_benchmark/proxy_connect/proxy_server.py:264-270 | the forwarded request |
| `HeadText.SplitJoin` | foghttp_benchmark/server.py:88 | splitting joined lines gives the lines back |
| `HeadText.HeadEnds` | foghttp_benchmark/proxy_connect/proxy_server.py:264-270 | the first blank line of printed lines is where they end |
| `ProxyHeaders.RoundTrip` | foghttp_benchmark/proxy_connect/proxy_server.py:264-270 | parsing the forwarded head gives the request line, the target host and all headers but the dropped ones, unchanged and in order, and the body is unchanged |

## Left out

- Sockets, TLS, HTTP clients and their factories, process probes, subprocesses and signals: foreign calls, present only as the steps and values they deliver.
- Provenance, research evidence and profiler checks: field-by-field guards over Git, wheel and tool output.
- Rendering, command line, progress output and report publication: user interface and file output.
- Cancellation of handlers at server shutdown: the server machine describes the time before it.
- Async cancellation controls and their settlement timeouts: sequencing of foreign tasks; the release barrier they rely on is proved.
- The load engines of the one-upstream and proxy suites and the aggregators of the other suites: copies of the ones modelled.
- Proxy-suite runs in which both load errors and the routing guard are counted can report more errors than requests (foghttp_benchmark/proxy_connect/runner.py:191-195) and are then refused; no admission is claimed for them.
- Research profiles of streaming rows (lifecycle, async-bytes) in identities and decoding: their dimensions are serialised configurations. `ReportRows.HasIdentity` is false for such rows.
- Inferring the suite of a legacy report from its columns, metadata objects, layout markers and row scopes: checks without arithmetic or state. `ReportMerge.Decode` covers reports that name their suite.
- Columns of a run that no aggregate reads (p90, min, max, client statistics): their optional checks are part of `OrdinaryRows.ValidOptionalFields` but the columns are not part of `RequestAggregation.RunRow`.
- Standard deviation, geometric mean and percentiles: arbitrary functions, nonnegative where that is used.
- Latency fields of stream samples: they compare wall-clock readings of one stream and need the clock to advance.
- Attaching a role to the sampler a second time, which restarts its peaks: `ResourceSampler.LifecycleResourceSampler.Attach` covers first attachments.
- Text of error messages: refusals carry their kind and the positions involved.
- AttributionOverhead.ReplayHistogram: does not model the observer and digest work inside the timed passes, because only their durations and totals are kept.
- ProxyRatios.FinalizeProxyConnectRows: baseline keys read string columns as text and anything else as empty, where the program would print it, because admitted rows hold strings there.
- StreamConsume.ConsumeStream: the response ends normally; an exception from the client passes through before any verdict.
- AttributionMeasure.Finalize: leaves out the latency and trace fields of a sample; the latencies compare clock readings of one stream, and the trace records are those of `AttributionConsume.ChunkObservations`.
- AttributionBatch.CpuDeltaFacts: leaves out the CPU time per byte and per wall-clock second, quotients nothing else reads.
- AttributionAdmission.RecordAccounts: leaves out the rates per second, quotients nothing else reads.
- AttributionMeasurement.MeasureAsyncBatch: leaves out the range checks on delays, read size, instrumentation and profiler of a configuration; they read nothing the measurement writes. The replay is proved to succeed under the segment bound; beyond it the record says which way it went.
- ServerRuns.EvidenceBeforeEof: leaves out the conditions on the client's own sample, which are those of `StreamConsume.ConsumeStream`.
- PhaseMarkers.Worker.Mark: leaves out the high-water memory data a marker carries; the parent stores it without reading it.
- LifecycleMonitor.MonitorClient: leaves out profiler ticks, and takes the phase label of a sample from the samples delivered to it.
- ReportRows.IdentityDetermines: leaves out research profiles of streaming rows, for which `ReportRows.HasIdentity` is false.
- ReportRows.ValidateUniqueRows: refuses research streaming rows as having no identity, where the program computes one from their serialised configuration.
- ResourceCoverage.ResourceValues: excludes booleans and infinite values by the type of its elements, where the program refuses them.
- ResourceCoverage.ValidateResourceCoverage: takes coverage entries as already typed records, so refusals of mistyped entries are left out.
- ReportMerge.DecodeTwice: leaves out suite inference, layout markers, row scopes and metadata checks, which do not change the rows.
- MergedReports.WriteIsolationReport: leaves out timing scopes, skipped clients, validity and provenance of the metadata.
- Comparison.ComparisonForgetsOrder: leaves out error rates, thread and descriptor summaries, p95 and p99 means, coverage tuples and the timing-compatibility check, columnwise copies of what is compared; `rankable` and `scope` are given as inputs.
- BenchmarkRows.LoadedIdentity: leaves out the research profiles of streaming rows and the error rate, which no comparison modelled here reads; refusals carry no text.
- Comparison.WinsForReport: covers rankable suites; the null result for the others is decided by the `rankable` input.
