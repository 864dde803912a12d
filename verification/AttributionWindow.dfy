/**
 The saved batch and the checks a report applies to it afterwards, without access to the run that made it.
 */
module AttributionWindow {
  import opened Common
  import opened MapSums
  import opened Histograms
  import opened AttributionConsume
  import opened Clocks

  const MAX_BODY_BYTES := 1048576
  const MIN_WINDOW_STREAMS := 20
  const MAX_WINDOW_STREAMS := 2048
  const MAX_WINDOW_DURATION_S := 5.0
  const MAX_HISTOGRAM_BINS := 1024
  const MAX_REPLAY_SEGMENTS := 64

  datatype Distribution = Distribution(
    histogram: seq<Bin>,
    complete: bool,
    observedCount: int,
    minBytes: Option<int>,
    maxBytes: Option<int>,
    binsCap: int,
    batchGlobal: bool)

  datatype Sample = Sample(
    stream: int,
    error: Option<string>,
    chunksRead: int,
    bytesRead: int,
    verifiedBytes: int,
    distribution: Distribution,
    deliverySamples: seq<DeliverySample>)

  /** The three replay timings. */
  datatype Durations = Durations(scalarOnlyS: real, sha256OnlyS: real, combinedS: real)

  datatype Segment = Segment(replayBytes: int, replayChunks: int, durations: Durations, histogram: seq<Bin>)

  datatype Reason =
    | Incomplete
    | NothingDelivered
    | OverReplayLimit
    | NotCovered
    | ChunkOverReplayLimit
    | TooManySegments

  datatype Overhead = Overhead(
    ok: bool,
    complete: bool,
    observedBytes: int,
    observedChunks: int,
    replayBytes: int,
    replayChunks: int,
    durations: Option<Durations>,
    segments: seq<Segment>,
    reason: Option<Reason>)

  datatype GlobalHistogram = GlobalHistogram(
    histogram: seq<Bin>,
    complete: bool,
    observedCount: int,
    observedBytes: int,
    binsCap: int)

  datatype Window = Window(
    minimumDurationS: real,
    minimumRounds: int,
    maxStreams: int,
    durationReached: bool,
    targetReached: bool,
    globalHistogram: GlobalHistogram)

  datatype CpuSnapshot = CpuSnapshot(
    pid: int,
    probeStartedNs: int,
    userS: real,
    systemS: real,
    reason: Option<string>,
    probeFinishedNs: int)

  datatype CpuDelta = CpuDelta(
    pid: int,
    userS: Option<real>,
    systemS: Option<real>,
    totalS: Option<real>,
    unavailableReason: Option<string>,
    before: CpuSnapshot,
    after: CpuSnapshot,
    loadBoundaryOverhangNs: int)

  datatype Timing = Timing(loadStartedNs: int, loadFinishedNs: int, digestFinalizeDurationNs: int)

  datatype Batch = Batch(
    rounds: int,
    requests: int,
    okStreams: int,
    durationS: real,
    verifiedSuccessBytes: int,
    totalObservedBytes: int,
    failedObservedBytes: int,
    chunksReadTotal: int,
    errors: seq<int>,
    samples: seq<Sample>,
    recordedDeliveries: int,
    droppedDeliveries: int,
    recordedTraces: int,
    droppedTraces: int,
    clientCpu: CpuDelta,
    serverCpu: CpuDelta,
    timing: Timing,
    overhead: Overhead,
    window: Option<Window>)

  /** What a case declares before it runs. */
  datatype Workload = Workload(bodyBytes: int, roundsPerBatch: int, attribution: Config)

  // ---------------------------------------------------------------- workload

  predicate WindowWorkloadMatches(batch: Batch, declared: Workload, concurrency: int)
    requires concurrency > 0
  {
    var target, limit := declared.attribution.minimumDurationS, declared.attribution.maxWindowStreams;
    && batch.window.Some?
    && 1.0 <= target <= MAX_WINDOW_DURATION_S
    && MIN_WINDOW_STREAMS <= limit <= MAX_WINDOW_STREAMS
    && declared.roundsPerBatch <= batch.rounds <= limit / concurrency
    && batch.window.value.minimumDurationS == target
    && batch.window.value.minimumRounds == declared.roundsPerBatch
    && batch.window.value.maxStreams == limit
    && batch.requests == batch.rounds * concurrency
    && var reached := batch.durationS >= target;
       && batch.window.value.targetReached == reached
       && if reached then batch.window.value.durationReached
          else !batch.window.value.durationReached && batch.rounds == limit / concurrency
  }

  predicate BatchWorkloadMatches(batch: Batch, rounds: int, concurrency: int) {
    var requests := rounds * concurrency;
    && batch.rounds == rounds
    && batch.requests == requests
    && |batch.samples| == requests
    && (forall i :: 0 <= i < |batch.samples| ==> batch.samples[i].stream == i + 1)
    && batch.errors == []
    && batch.okStreams == requests
  }

  function Abs(x: real): real {
    if x < 0.0 then -x else x
  }

  function Larger(x: real, y: real): real {
    if x < y then y else x
  }

  /** `math.isclose(a, b, rel_tol=1e-12, abs_tol=1e-12)`. */
  predicate IsClose(a: real, b: real) {
    var tolerance := 0.000000000001;
    Abs(a - b) <= Larger(tolerance * Larger(Abs(a), Abs(b)), tolerance)
  }

  predicate CpuBoundaryMatches(cpu: CpuDelta, loadStart: int, loadFinish: int) {
    && 0 <= cpu.before.probeStartedNs <= cpu.before.probeFinishedNs <= loadStart
    && loadStart < loadFinish <= cpu.after.probeStartedNs <= cpu.after.probeFinishedNs
    && cpu.before.pid == cpu.pid == cpu.after.pid
    && cpu.loadBoundaryOverhangNs
       == loadStart - cpu.before.probeStartedNs + cpu.after.probeFinishedNs - loadFinish
  }

  predicate BatchTimingMatches(batch: Batch) {
    var start, finish := batch.timing.loadStartedNs, batch.timing.loadFinishedNs;
    && 0 <= start < finish
    && IsClose(batch.durationS, Seconds(finish - start))
    && batch.timing.digestFinalizeDurationNs >= 0
    && CpuBoundaryMatches(batch.clientCpu, start, finish)
    && CpuBoundaryMatches(batch.serverCpu, start, finish)
  }

  // ---------------------------------------------------------------- distribution

  /** Bins read back one by one; a repeated size or a nonpositive entry makes the list unusable. */
  function Parsed(bins: seq<Bin>): Option<map<nat, nat>> {
    if bins == [] then Some(map[])
    else
      var last := bins[|bins| - 1];
      var before := Parsed(bins[..|bins| - 1]);
      if before.None? || last.sizeBytes <= 0 || last.count <= 0 || last.sizeBytes as nat in before.value then None
      else Some(before.value[last.sizeBytes as nat := last.count])
  }

  /** The histogram a saved list of bins stands for. */
  function HistogramOf(bins: seq<Bin>): Option<map<nat, nat>> {
    if bins == [] then None else Parsed(bins)
  }

  method ReadHistogram(bins: seq<Bin>) returns (h: Option<map<nat, nat>>)
    ensures h == HistogramOf(bins)
  {
    if bins == [] { return None; }
    var result: map<nat, nat> := map[];
    for k := 0 to |bins|
      invariant Parsed(bins[..k]) == Some(result)
    {
      var size, count := bins[k].sizeBytes, bins[k].count;
      assert bins[..k + 1][..k] == bins[..k];
      if size <= 0 || count <= 0 || size as nat in result {
        Unusable(bins, k + 1);
        return None;
      }
      result := result[size as nat := count];
    }
    assert bins[..|bins|] == bins;
    h := Some(result);
  }

  lemma {:induction false} Unusable(bins: seq<Bin>, k: nat)
    requires k <= |bins| && Parsed(bins[..k]).None?
    ensures Parsed(bins).None?
    decreases |bins|
  {
    if k < |bins| {
      assert bins[..|bins| - 1][..k] == bins[..k];
      Unusable(bins[..|bins| - 1], k);
    } else {
      assert bins[..k] == bins;
    }
  }

  /** What a usable list of bins stands for: every size with its own count, all positive. */
  lemma {:induction false} ParsedCounts(bins: seq<Bin>)
    requires Parsed(bins).Some?
    ensures Positive(Parsed(bins).value) && |Parsed(bins).value| == |bins|
    ensures forall s: nat :: Get(Parsed(bins).value, s) == CountIn(bins, s)
  {
    if bins != [] {
      ParsedCounts(bins[..|bins| - 1]);
    }
  }

  lemma {:induction false} AscendingParses(bins: seq<Bin>)
    requires forall i :: 0 <= i < |bins| ==> bins[i].sizeBytes > 0 && bins[i].count > 0
    requires forall i, j :: 0 <= i < j < |bins| ==> bins[i].sizeBytes < bins[j].sizeBytes
    ensures Parsed(bins).Some?
  {
    if bins != [] {
      var init, last := bins[..|bins| - 1], bins[|bins| - 1];
      AscendingParses(init);
      ParsedCounts(init);
      CountInDistinct(init, last.sizeBytes);
      assert Get(Parsed(init).value, last.sizeBytes as nat) == 0;
    }
  }

  /** Writing a histogram out and reading it back gives the same histogram. */
  lemma ListedReads(bins: seq<Bin>, h: map<nat, nat>)
    requires Lists(bins, h) && Positive(h) && h != map[]
    ensures HistogramOf(bins) == Some(h)
  {
    AscendingParses(bins);
    ParsedCounts(bins);
    var read := Parsed(bins).value;
    forall s: nat ensures Get(read, s) == Get(h, s) {
      ListsCount(bins, h, s);
    }
    SameCounts(read, h);
  }

  predicate StreamChunkBoundsMatch(sample: Sample, body: int) {
    var chunks, minimum, maximum := sample.chunksRead, sample.distribution.minBytes, sample.distribution.maxBytes;
    && 1 <= chunks <= body
    && minimum.Some? && maximum.Some?
    && 1 <= minimum.value <= maximum.value <= body
    && minimum.value * chunks <= body <= maximum.value * chunks
  }

  function ChunksRead(samples: seq<Sample>): int {
    if samples == [] then 0 else ChunksRead(samples[..|samples| - 1]) + samples[|samples| - 1].chunksRead
  }

  /** One saved stream of a window: its own histogram is empty and its extremes occur in the window's. */
  predicate SampleInWindow(sample: Sample, h: map<nat, nat>, body: int) {
    && sample.distribution.batchGlobal
    && sample.distribution.histogram == []
    && sample.distribution.minBytes.Some? && sample.distribution.minBytes.value >= 0
    && sample.distribution.minBytes.value as nat in h
    && sample.distribution.maxBytes.Some? && sample.distribution.maxBytes.value >= 0
    && sample.distribution.maxBytes.value as nat in h
    && StreamChunkBoundsMatch(sample, body)
  }

  predicate NonNegative(d: Durations) {
    d.scalarOnlyS >= 0.0 && d.sha256OnlyS >= 0.0 && d.combinedS >= 0.0
  }

  function AddDurations(a: Durations, b: Durations): Durations {
    Durations(a.scalarOnlyS + b.scalarOnlyS, a.sha256OnlyS + b.sha256OnlyS, a.combinedS + b.combinedS)
  }

  const NO_TIME := Durations(0.0, 0.0, 0.0)

  function SumDurations(segments: seq<Segment>): Durations {
    if segments == [] then NO_TIME
    else AddDurations(SumDurations(segments[..|segments| - 1]), segments[|segments| - 1].durations)
  }

  predicate CloseDurations(a: Durations, b: Durations) {
    && IsClose(a.scalarOnlyS, b.scalarOnlyS) && IsClose(a.sha256OnlyS, b.sha256OnlyS)
    && IsClose(a.combinedS, b.combinedS)
  }

  /** One saved segment agrees with its own histogram and the declared limits. */
  ghost predicate SegmentMatches(segment: Segment, config: Config) {
    var h := HistogramOf(segment.histogram);
    && h.Some?
    && segment.replayBytes == BytesIn(h.value) <= config.replayMaxBytes
    && segment.replayChunks == Total(h.value) <= config.replayMaxChunks
    && NonNegative(segment.durations)
  }

  function Combined(segments: seq<Segment>): map<nat, nat> {
    if segments == [] then map[]
    else
      var h := HistogramOf(segments[|segments| - 1].histogram);
      Add(Combined(segments[..|segments| - 1]), if h.Some? then h.value else map[])
  }

  ghost predicate TotalsMatch(replay: Overhead, h: map<nat, nat>) {
    && replay.replayBytes == BytesIn(h)
    && replay.replayChunks == Total(h)
    && replay.durations.Some?
    && CloseDurations(replay.durations.value, SumDurations(replay.segments))
  }

  /** An admitted replay: its at most 64 segments are within limits and add up to `h`. */
  ghost predicate ReplayAdmitted(replay: Overhead, h: map<nat, nat>, config: Config) {
    && 0 < |replay.segments| <= MAX_REPLAY_SEGMENTS
    && (forall i :: 0 <= i < |replay.segments| ==> SegmentMatches(replay.segments[i], config))
    && Combined(replay.segments) == h
    && TotalsMatch(replay, h)
  }

  method ReplayMatches(replay: Overhead, h: map<nat, nat>, config: Config) returns (ok: bool)
    ensures ok <==> ReplayAdmitted(replay, h, config)
  {
    if replay.segments == [] || |replay.segments| > MAX_REPLAY_SEGMENTS { return false; }
    var combined: map<nat, nat> := map[];
    for k := 0 to |replay.segments|
      invariant forall i :: 0 <= i < k ==> SegmentMatches(replay.segments[i], config)
      invariant combined == Combined(replay.segments[..k])
    {
      var bins := CheckSegment(replay.segments[k], config);
      if bins.None? { return false; }
      combined := AddCounters(combined, bins.value);
      assert replay.segments[..k + 1][..k] == replay.segments[..k];
    }
    assert replay.segments[..|replay.segments|] == replay.segments;
    if combined != h { return false; }
    ok := CheckTotals(replay, h);
  }

  /** The checks on one segment; it yields the histogram to combine. */
  method CheckSegment(segment: Segment, config: Config) returns (bins: Option<map<nat, nat>>)
    ensures bins.Some? <==> SegmentMatches(segment, config)
    ensures bins.Some? ==> bins == HistogramOf(segment.histogram)
  {
    bins := ReadHistogram(segment.histogram);
    if bins.None? { return; }
    var size := SumValues(Scaled(bins.value));
    var chunks := SumValues(bins.value);
    if segment.replayBytes != size || segment.replayChunks != chunks
       || size > config.replayMaxBytes || chunks > config.replayMaxChunks || !NonNegative(segment.durations)
    {
      bins := None;
    }
  }

  method CheckTotals(replay: Overhead, h: map<nat, nat>) returns (ok: bool)
    ensures ok <==> TotalsMatch(replay, h)
  {
    var size := SumValues(Scaled(h));
    var chunks := SumValues(h);
    ok := replay.replayBytes == size && replay.replayChunks == chunks && replay.durations.Some?
      && CloseDurations(replay.durations.value, SumDurations(replay.segments));
  }

  /** Everything a saved window distribution must satisfy. */
  ghost predicate DistributionAdmitted(batch: Batch, declared: Workload) {
    && batch.window.Some?
    && var h := HistogramOf(batch.window.value.globalHistogram.histogram);
    && h.Some?
    && HistogramAdmitted(batch, declared, batch.window.value.globalHistogram, h.value)
  }

  ghost predicate HistogramAdmitted(batch: Batch, declared: Workload, d: GlobalHistogram, h: map<nat, nat>) {
    var body, cap := declared.bodyBytes, declared.attribution.histogramBinsCap;
    && 1 <= cap <= MAX_HISTOGRAM_BINS && |h| <= cap
    && (forall s :: s in h ==> s <= body)
    && d.complete && d.binsCap == cap && batch.samples != []
    && Total(h) == ChunksRead(batch.samples)
    && BytesIn(h) == body * |batch.samples|
    && d.observedCount == batch.chunksReadTotal == Total(h)
    && d.observedBytes == batch.totalObservedBytes == BytesIn(h)
    && (forall i :: 0 <= i < |batch.samples| ==> SampleInWindow(batch.samples[i], h, body))
    && ReplayAdmitted(batch.overhead, h, declared.attribution)
  }

  method WindowDistributionMatches(batch: Batch, declared: Workload) returns (ok: bool)
    ensures ok <==> DistributionAdmitted(batch, declared)
  {
    if batch.window.None? { return false; }
    var d := batch.window.value.globalHistogram;
    var h := ReadHistogram(d.histogram);
    if h.None? { return false; }
    ok := CheckHistogram(batch, declared, d, h.value);
  }

  method CheckHistogram(batch: Batch, declared: Workload, d: GlobalHistogram, h: map<nat, nat>) returns (ok: bool)
    ensures ok <==> HistogramAdmitted(batch, declared, d, h)
  {
    var body, cap := declared.bodyBytes, declared.attribution.histogramBinsCap;
    if !(1 <= cap <= MAX_HISTOGRAM_BINS) || |h| > cap || (exists s :: s in h && s > body)
       || !d.complete || d.binsCap != cap || batch.samples == []
    {
      return false;
    }
    var chunks := SumValues(h);
    var observed := SumValues(Scaled(h));
    if chunks != ChunksRead(batch.samples) || observed != body * |batch.samples|
       || d.observedCount != chunks || d.observedBytes != observed
       || batch.chunksReadTotal != chunks || batch.totalObservedBytes != observed
    {
      return false;
    }
    if !(forall i :: 0 <= i < |batch.samples| ==> SampleInWindow(batch.samples[i], h, body)) {
      return false;
    }
    ok := ReplayMatches(batch.overhead, h, declared.attribution);
  }
}
