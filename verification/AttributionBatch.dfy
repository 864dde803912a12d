/** The record of one measured batch, and the measurement that produces it. */
module AttributionBatch {
  import opened Common
  import opened MapSums
  import opened Histograms
  import opened Clocks
  import opened AttributionConsume
  import opened ObservationRuns
  import opened AttributionStreams
  import opened AttributionWindow
  import opened AttributionOverhead
  import opened AttributionMeasure

  // ---------------------------------------------------------------- CPU probes

  /** A process counter probe; the counters themselves are whatever the platform reports. */
  method Probe(clock: Clock, pid: int) returns (snapshot: CpuSnapshot)
    modifies clock
    ensures snapshot.pid == pid
    ensures old(clock.now) <= snapshot.probeStartedNs <= snapshot.probeFinishedNs == clock.now
  {
    var started := clock.Read();
    var user: real, system: real, reason: Option<string> := *, *, *;
    var finished := clock.Read();
    snapshot := CpuSnapshot(pid, started, user, system, reason, finished);
  }

  function CpuDeltaOf(before: CpuSnapshot, after: CpuSnapshot, startedNs: int, finishedNs: int): CpuDelta {
    var reason :=
      if before.reason.Some? then before.reason
      else if after.reason.Some? then after.reason
      else if after.userS < before.userS || after.systemS < before.systemS then Some("Process CPU counter decreased")
      else None;
    var user := if reason.None? then Some(after.userS - before.userS) else None;
    var system := if reason.None? then Some(after.systemS - before.systemS) else None;
    CpuDelta(before.pid, user, system,
             if reason.None? then Some(user.value + system.value) else None,
             reason, before, after,
             startedNs - before.probeStartedNs + after.probeFinishedNs - finishedNs)
  }

  /** A CPU delta is available exactly when both probes were and no counter ran backwards, and is never negative. */
  lemma CpuDeltaFacts(before: CpuSnapshot, after: CpuSnapshot, startedNs: int, finishedNs: int)
    ensures var d := CpuDeltaOf(before, after, startedNs, finishedNs);
      && (d.totalS.Some? <==>
            before.reason.None? && after.reason.None? && before.userS <= after.userS && before.systemS <= after.systemS)
      && (d.totalS.Some? <==> d.unavailableReason.None?)
      && (d.totalS.Some? ==> d.userS.Some? && d.systemS.Some? && d.userS.value >= 0.0 && d.systemS.value >= 0.0
                             && d.totalS.value == d.userS.value + d.systemS.value)
      && (d.totalS.Some? ==> before.userS + d.userS.value == after.userS)
      && (d.totalS.Some? ==> before.systemS + d.systemS.value == after.systemS)
      && (d.totalS.None? ==> d.userS.None? && d.systemS.None?)
      && (before.reason.Some? ==> d.unavailableReason == before.reason)
      && (before.reason.None? && after.reason.Some? ==> d.unavailableReason == after.reason)
  {
  }

  // ---------------------------------------------------------------- the record

  /** Everything a batch has in hand once its streams are finalised. */
  datatype Measurement = Measurement(
    samples: seq<Sample>,
    observations: seq<Observations>,
    globalBins: seq<Bin>,
    globalComplete: bool,
    startedNs: nat,
    finishedNs: nat,
    finalizeNs: nat,
    clientBefore: CpuSnapshot,
    clientAfter: CpuSnapshot,
    serverBefore: CpuSnapshot,
    serverAfter: CpuSnapshot,
    overhead: Overhead)

  function OkStreams(samples: seq<Sample>): nat {
    if samples == [] then 0
    else OkStreams(samples[..|samples| - 1]) + if samples[|samples| - 1].error.None? then 1 else 0
  }

  function FailedStreams(samples: seq<Sample>): seq<int> {
    if samples == [] then []
    else FailedStreams(samples[..|samples| - 1])
         + if samples[|samples| - 1].error.Some? then [samples[|samples| - 1].stream] else []
  }

  function VerifiedBytes(samples: seq<Sample>): int {
    if samples == [] then 0 else VerifiedBytes(samples[..|samples| - 1]) + samples[|samples| - 1].verifiedBytes
  }

  function Recorded(observations: seq<Observations>): nat {
    if observations == [] then 0
    else Recorded(observations[..|observations| - 1]) + |observations[|observations| - 1].deliverySamples|
  }

  function TraceRecords(observations: seq<Observations>): nat {
    if observations == [] then 0
    else TraceRecords(observations[..|observations| - 1]) + |observations[|observations| - 1].trace|
  }

  function RecordOf(m: Measurement, config: Config, concurrency: nat, rounds: int, window: bool): Batch
    requires concurrency > 0
  {
    var requests := |m.samples|;
    var duration := Seconds(m.finishedNs - m.startedNs);
    var verified := VerifiedBytes(m.samples);
    var observed := Sum(Field(m.observations, AttributionOverhead.Bytes));
    var chunks := Sum(Field(m.observations, Chunks));
    var reached := duration >= config.minimumDurationS;
    Batch(requests / concurrency, requests, OkStreams(m.samples), duration, verified, observed, observed - verified,
          chunks, FailedStreams(m.samples), m.samples,
          Recorded(m.observations), chunks - Recorded(m.observations),
          TraceRecords(m.observations), if config.diagnostic then chunks - TraceRecords(m.observations) else 0,
          CpuDeltaOf(m.clientBefore, m.clientAfter, m.startedNs, m.finishedNs),
          CpuDeltaOf(m.serverBefore, m.serverAfter, m.startedNs, m.finishedNs),
          Timing(m.startedNs, m.finishedNs, m.finalizeNs),
          m.overhead,
          if window then
            Some(Window(config.minimumDurationS, rounds, config.maxWindowStreams, reached, reached,
                        GlobalHistogram(m.globalBins, m.globalComplete, chunks, observed, config.histogramBinsCap)))
          else None)
  }

  /** How a measurement relates to the machine state `w` its load ended in. */
  ghost predicate Measures<D>(
    m: Measurement, w: World, config: Config, window: bool, sha: Bytes -> D, body: nat, expected: D)
  {
    && |m.samples| == |m.observations| == |w.streams|
    && (forall i :: 0 <= i < |w.streams| ==>
          && Finalized(m.samples[i], i + 1, sha, w.streams[i], w.budget, config.histogramBinsCap, body, expected)
          && m.observations[i] == w.streams[i].observations)
    && w.budget.globalHistogram.Some? == window
    && (window ==>
          && Lists(m.globalBins, w.budget.globalHistogram.value)
          && m.globalComplete == w.budget.globalHistogramComplete
          && Reports(m.overhead, w.budget.globalHistogram.value, w.budget.globalHistogramComplete,
                     Sum(Field(m.observations, AttributionOverhead.Bytes)), Sum(Field(m.observations, Chunks)), config,
                     true))
    && m.clientBefore.pid == m.clientAfter.pid && m.serverBefore.pid == m.serverAfter.pid
    && 0 <= m.clientBefore.probeStartedNs <= m.clientBefore.probeFinishedNs <= m.startedNs
    && 0 <= m.serverBefore.probeStartedNs <= m.serverBefore.probeFinishedNs <= m.startedNs
    && m.startedNs <= m.finishedNs
    && m.finishedNs <= m.clientAfter.probeStartedNs <= m.clientAfter.probeFinishedNs
    && m.finishedNs <= m.serverAfter.probeStartedNs <= m.serverAfter.probeFinishedNs
  }

  /** A timed window's replay gives up on the number of segments only when the segment bound is beyond its limit. */
  ghost predicate ReplayBounded(m: Measurement, w: World, config: Config) {
    w.budget.globalHistogram.Some? ==> GivesUpOnlyBeyond(m.overhead, w.budget.globalHistogram.value, config)
  }

  predicate ValidConfig(config: Config) {
    && (config.minimumDurationS == 0.0 || 1.0 <= config.minimumDurationS <= MAX_WINDOW_DURATION_S)
    && MIN_WINDOW_STREAMS <= config.maxWindowStreams <= MAX_WINDOW_STREAMS
    && 1 <= config.chunkSampleCap <= 128
    && 1 <= config.histogramBinsCap <= MAX_HISTOGRAM_BINS
    && 1 <= config.replayMaxBytes <= 268435456
    && 1 <= config.replayMaxChunks <= 1000000
  }

  predicate ValidRequest(config: Config, body: int, concurrency: int, rounds: int, window: bool) {
    && ValidConfig(config)
    && 0 < body <= MAX_BODY_BYTES
    && (concurrency == 1 || concurrency == 10)
    && 0 <= rounds <= MAX_ROUNDS
    && (window ==> 0 < rounds && rounds * concurrency <= config.maxWindowStreams)
  }

  function WindowOf(config: Config, batch: int): bool {
    config.minimumDurationS > 0.0 && batch > 0
  }

  /** How many rounds the prepared URLs allow. */
  function MaximumRounds(config: Config, concurrency: nat, rounds: nat, window: bool): nat
    requires concurrency > 0
  {
    if window then config.maxWindowStreams / concurrency else rounds
  }

  /** As many whole rounds as the stream limit holds, or exactly those asked for. */
  lemma MaximumRoundsFit(config: Config, concurrency: nat, rounds: nat, window: bool)
    requires concurrency > 0
    ensures var n := MaximumRounds(config, concurrency, rounds, window);
      && (window ==> n * concurrency <= config.maxWindowStreams < (n + 1) * concurrency)
      && (!window ==> n == rounds)
  {
    var n := config.maxWindowStreams / concurrency;
    assert config.maxWindowStreams == n * concurrency + config.maxWindowStreams % concurrency;
    assert (n + 1) * concurrency == n * concurrency + concurrency;
  }

  function StartOf(config: Config, window: bool): World {
    StartWorld(BUDGET_RECORD_CAP, if window then config.histogramBinsCap else BUDGET_BINS_CAP, window)
  }

  /** Finalises every stream of the batch in order and reads off its observations. */
  method FinalizeAll<D(==)>(
    config: Config, budget: ObservationBudget, pending: seq<PendingStream>, sha: Bytes -> D, body: nat, expected: D,
    ghost w: World)
    returns (samples: seq<Sample>, observations: seq<Observations>)
    requires Separate(config, budget, pending) && Represents(w, budget, pending)
    ensures |samples| == |observations| == |w.streams|
    ensures forall i :: 0 <= i < |w.streams| ==>
      && Finalized(samples[i], i + 1, sha, w.streams[i], w.budget, config.histogramBinsCap, body, expected)
      && observations[i] == w.streams[i].observations
  {
    samples, observations := [], [];
    for k := 0 to |pending|
      invariant |samples| == |observations| == k
      invariant forall i :: 0 <= i < k ==>
        && Finalized(samples[i], i + 1, sha, w.streams[i], w.budget, config.histogramBinsCap, body, expected)
        && observations[i] == w.streams[i].observations
    {
      var sample := Finalize(pending[k], k + 1, sha, body, expected);
      samples := samples + [sample];
      observations := observations + [pending[k].observations.State()];
    }
  }
}
