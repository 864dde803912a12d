/**
 Streams of one batch as a state machine: every coroutine of a round is cut at its awaits, and a run is
 any interleaving of the resulting segments over the budget they share.
 */
module ObservationRuns {
  import opened Common
  import opened MapSums
  import opened Histograms
  import opened AttributionConsume

  datatype Head = Head(
    statusCode: int,
    contentLength: Option<string>,
    contentEncoding: Option<string>,
    transferEncoding: Option<string>,
    httpVersion: Option<string>)

  datatype Arrival = Arrival(size: nat, ns: int)

  /** Where a coroutine is suspended. */
  datatype Phase =
    | Connecting
    | Awaiting
    | Consuming(awaitStartedNs: int, arrivedNs: int)
    | Exiting
    | Closed

  /** A `PendingStream`; `arrivals` is the history of its nonempty deliveries. */
  datatype Stream = Stream(
    startedNs: int,
    observations: Observations,
    digest: Bytes,
    phase: Phase,
    eof: bool,
    head: Option<Head>,
    error: Option<string>,
    arrivals: seq<Arrival>)

  /** One await-free segment of one stream. */
  datatype Event =
    | Connected(head: Head)
    | Delivered(chunk: Bytes, awaitStartedNs: int, arrivedNs: int)
    | Consumed(finishedNs: int)
    | Exhausted
    | Raised(errorType: string)
    | Left

  datatype Move = Open(startedNs: int) | On(stream: nat, event: Event)

  /** The batch: its budget, its streams, and the history of all nonempty sizes in delivery order. */
  datatype World = World(budget: Budget, streams: seq<Stream>, sizes: seq<nat>)

  function FreshStream(startedNs: int): Stream {
    Stream(startedNs, NOTHING_OBSERVED, [], Connecting, false, None, None, [])
  }

  function Arrived(s: Stream, chunk: Bytes, ns: int): seq<Arrival> {
    if chunk == [] then s.arrivals else s.arrivals + [Arrival(|chunk|, ns)]
  }

  /** `_consume_iterator` between two awaits. */
  function StreamStep(config: Config, body: nat, b: Option<Budget>, s: Stream, e: Event): (Option<Budget>, Stream) {
    match e
    case Connected(head) =>
      if s.phase == Connecting then (b, s.(head := Some(head), phase := Awaiting)) else (b, s)
    case Delivered(chunk, awaitStartedNs, arrivedNs) =>
      if s.phase != Awaiting then (b, s)
      else
        var (b1, o) := ObserveStep(config, b, s.observations, |chunk|, arrivedNs, s.startedNs);
        var s1 := s.(observations := o, digest := s.digest + chunk, arrivals := Arrived(s, chunk, arrivedNs));
        if chunk == [] then (b1, s1)
        else if o.bytesRead > body then (b1, s1.(error := Some("ValueError"), phase := Closed))
        else (b1, s1.(phase := Consuming(awaitStartedNs, arrivedNs)))
    case Consumed(finishedNs) =>
      if !s.phase.Consuming? then (b, s)
      else
        var (b1, o) :=
          TraceStep(config, b, s.observations, s.phase.awaitStartedNs, s.phase.arrivedNs, finishedNs);
        (b1, s.(observations := o, phase := Awaiting))
    case Exhausted =>
      if s.phase == Awaiting then (b, s.(eof := true, phase := Exiting)) else (b, s)
    case Raised(errorType) =>
      if s.phase == Closed then (b, s) else (b, s.(error := Some(errorType), phase := Closed))
    case Left =>
      if s.phase == Exiting then (b, s.(phase := Closed)) else (b, s)
  }

  function Step(config: Config, body: nat, w: World, m: Move): World {
    match m
    case Open(startedNs) => w.(streams := w.streams + [FreshStream(startedNs)])
    case On(i, e) =>
      if i >= |w.streams| then w
      else
        var (b, s) := StreamStep(config, body, Some(w.budget), w.streams[i], e);
        World(if b.Some? then b.value else w.budget,
              w.streams[i := s],
              if |s.arrivals| > |w.streams[i].arrivals| then w.sizes + [s.arrivals[|s.arrivals| - 1].size] else w.sizes)
  }

  function Run(config: Config, body: nat, w: World, moves: seq<Move>): World {
    if moves == [] then w
    else Step(config, body, Run(config, body, w, moves[..|moves| - 1]), moves[|moves| - 1])
  }

  function StartWorld(recordCap: nat, histogramBinsCap: nat, global: bool): World {
    World(Budget(recordCap, histogramBinsCap, 0, 0, if global then Some(map[]) else None, true), [], [])
  }

  // ---------------------------------------------------------------- what one stream records

  function SizesOf(a: seq<Arrival>): seq<nat> {
    seq(|a|, k requires 0 <= k < |a| => a[k].size)
  }

  /** The record of delivery k, computed from the deliveries alone. */
  function SampleOf(startedNs: int, a: seq<Arrival>, k: nat): DeliverySample
    requires k < |a|
  {
    DeliverySample(
      k + 1, a[k].size,
      if k == 0 then None else Some((a[k].ns - a[k - 1].ns) as real / 1000000.0),
      a[k].ns - startedNs)
  }

  ghost predicate Tallied(s: Stream) {
    && s.observations.chunksRead == |s.arrivals|
    && s.observations.bytesRead == Sum(SizesOf(s.arrivals)) == |s.digest|
    && (forall k :: 0 <= k < |s.arrivals| ==> s.arrivals[k].size > 0)
  }

  ghost predicate Bounded(s: Stream) {
    var o, a := s.observations, s.arrivals;
    if a == [] then o.firstNs == None && o.previousNs == None && o.minBytes == None && o.maxBytes == None
    else
      && o.firstNs == Some(a[0].ns) && o.previousNs == Some(a[|a| - 1].ns)
      && o.minBytes.Some? && o.minBytes.value in SizesOf(a)
      && o.maxBytes.Some? && o.maxBytes.value in SizesOf(a)
      && forall k :: 0 <= k < |a| ==> o.minBytes.value <= a[k].size <= o.maxBytes.value
  }

  ghost predicate SampledPrefix(config: Config, s: Stream) {
    var samples := s.observations.deliverySamples;
    && |samples| <= |s.arrivals| && |samples| <= config.chunkSampleCap
    && forall k :: 0 <= k < |samples| ==> samples[k] == SampleOf(s.startedNs, s.arrivals, k)
  }

  ghost predicate Traced(config: Config, s: Stream) {
    && |s.observations.trace| + (if s.phase.Consuming? then 1 else 0) <= |s.arrivals|
    && |s.observations.trace| <= config.chunkSampleCap
    && (!config.diagnostic ==> s.observations.trace == [])
  }

  ghost predicate Concluded(body: nat, s: Stream) {
    && (s.observations.bytesRead > body ==> s.error.Some?)
    && (s.error.Some? ==> s.phase == Closed)
    && (s.phase == Closed ==> s.eof || s.error.Some?)
    && (s.phase == Exiting ==> s.eof)
    && (s.eof ==> s.phase == Exiting || s.phase == Closed)
  }

  /** Everything one stream holds is determined by its own deliveries. */
  ghost predicate StreamOk(config: Config, body: nat, s: Stream) {
    Tallied(s) && Bounded(s) && SampledPrefix(config, s) && Traced(config, s) && Concluded(body, s)
  }

  // ---------------------------------------------------------------- what the streams share

  function RecordsOf(s: Stream): nat {
    |s.observations.deliverySamples| + |s.observations.trace|
  }

  function BinsOf(s: Stream): nat {
    |s.observations.histogram|
  }

  function ChunksOf(s: Stream): nat {
    s.observations.chunksRead
  }

  function BytesOf(s: Stream): nat {
    s.observations.bytesRead
  }

  function Each(streams: seq<Stream>, f: Stream -> nat): seq<nat> {
    seq(|streams|, i requires 0 <= i < |streams| => f(streams[i]))
  }

  function SumOver(streams: seq<Stream>, f: Stream -> nat): nat {
    Sum(Each(streams, f))
  }

  /** A stream stopped sampling only because a cap was reached, and a reached cap stays reached. */
  ghost predicate SamplingBlocked(config: Config, b: Budget, s: Stream) {
    |s.observations.deliverySamples| < |s.arrivals| ==>
      |s.observations.deliverySamples| >= config.chunkSampleCap || b.records >= b.recordCap
  }

  /** A size without a bin was seen only if no further bin can be opened. */
  ghost predicate BinsExact(h: map<nat, nat>, complete: bool, sizes: seq<nat>, full: bool) {
    && Exact(h, sizes)
    && (complete <==> Covers(h, sizes))
    && (!Covers(h, sizes) ==> full)
  }

  ghost predicate LocalHistogram(config: Config, b: Budget, s: Stream) {
    var o := s.observations;
    if b.globalHistogram.Some? then o.histogram == map[] && o.histogramComplete
    else BinsExact(o.histogram, o.histogramComplete, SizesOf(s.arrivals),
                   |o.histogram| >= config.histogramBinsCap || b.histogramBins >= b.histogramBinsCap)
  }

  ghost predicate GlobalHistogram(w: World) {
    var b := w.budget;
    b.globalHistogram.Some? ==>
      && BinsExact(b.globalHistogram.value, b.globalHistogramComplete, w.sizes, b.histogramBins >= b.histogramBinsCap)
      && b.histogramBins == |b.globalHistogram.value|
  }

  /** The shared counters are what the streams hold. */
  ghost predicate Budgeted(b: Budget, streams: seq<Stream>) {
    && b.records == SumOver(streams, RecordsOf) <= b.recordCap
    && b.histogramBins <= b.histogramBinsCap
    && (b.globalHistogram.None? ==> b.histogramBins == SumOver(streams, BinsOf))
  }

  /** The history of sizes is what the streams received. */
  ghost predicate Remembered(streams: seq<Stream>, sizes: seq<nat>) {
    && |sizes| == SumOver(streams, ChunksOf)
    && Sum(sizes) == SumOver(streams, BytesOf)
    && forall i, k :: 0 <= i < |streams| && 0 <= k < |streams[i].arrivals| ==> streams[i].arrivals[k].size in sizes
  }

  ghost predicate Accounted(w: World) {
    Budgeted(w.budget, w.streams) && Remembered(w.streams, w.sizes)
  }

  ghost predicate WorldOk(config: Config, body: nat, w: World) {
    && (forall i :: 0 <= i < |w.streams| ==> StreamOk(config, body, w.streams[i]))
    && (forall i :: 0 <= i < |w.streams| ==>
          SamplingBlocked(config, w.budget, w.streams[i]) && LocalHistogram(config, w.budget, w.streams[i]))
    && GlobalHistogram(w)
    && Accounted(w)
  }

  // ---------------------------------------------------------------- proofs

  lemma SumOverUpdate(streams: seq<Stream>, i: nat, s: Stream, f: Stream -> nat)
    requires i < |streams|
    ensures SumOver(streams[i := s], f) + f(streams[i]) == SumOver(streams, f) + f(s)
  {
    assert Each(streams[i := s], f) == Each(streams, f)[i := f(s)];
    SumUpdate(Each(streams, f), i, f(s));
  }

  lemma SumOverAppend(streams: seq<Stream>, s: Stream, f: Stream -> nat)
    ensures SumOver(streams + [s], f) == SumOver(streams, f) + f(s)
  {
    assert Each(streams + [s], f) == Each(streams, f) + [f(s)];
    SumSnoc(Each(streams, f), f(s));
  }

  lemma SizesOfSnoc(a: seq<Arrival>, last: Arrival)
    ensures SizesOf(a + [last]) == SizesOf(a) + [last.size]
  {
  }

  /** The part of one nonempty delivery that does not depend on the histograms. */
  ghost predicate Grown(config: Config, b: Budget, s: Stream, s': Stream, size: nat, ns: int) {
    var o, o' := s.observations, s'.observations;
    && s'.startedNs == s.startedNs
    && s'.arrivals == s.arrivals + [Arrival(size, ns)]
    && |s'.digest| == |s.digest| + size
    && o'.chunksRead == o.chunksRead + 1
    && o'.bytesRead == o.bytesRead + size
    && o'.minBytes == Some(if o.minBytes.None? then size else Min(o.minBytes.value, size))
    && o'.maxBytes == Some(if o.maxBytes.None? then size else Max(o.maxBytes.value, size))
    && o'.firstNs == (if o.firstNs.None? then Some(ns) else o.firstNs)
    && o'.previousNs == Some(ns)
    && o'.trace == o.trace
    && o'.deliverySamples ==
         if |o.deliverySamples| < config.chunkSampleCap && b.records < b.recordCap
         then o.deliverySamples + [DeliverySample(o'.chunksRead, size, GapMs(o.previousNs, ns), ns - s.startedNs)]
         else o.deliverySamples
  }

  /** Binning touches nothing but the histograms and the bin counter. */
  lemma BinnedOnlyBins(config: Config, b: Budget, o: Observations, size: nat)
    ensures var (b1, o1) := Binned(config, Some(b), o, size);
            && o1 == o.(histogram := o1.histogram, histogramComplete := o1.histogramComplete)
            && b1.Some? && b1.value == b.(histogramBins := b1.value.histogramBins,
                                          globalHistogram := b1.value.globalHistogram,
                                          globalHistogramComplete := b1.value.globalHistogramComplete)
  {
  }

  /** Sampling touches nothing but the samples, the arrival times and the record counter. */
  lemma SampledOnlySamples(config: Config, b: Budget, o: Observations, size: nat, ns: int, startedNs: int)
    ensures var (b1, o1) := Sampled(config, Some(b), o, size, ns, startedNs);
            var taken := |o.deliverySamples| < config.chunkSampleCap && b.records < b.recordCap;
            var sample := DeliverySample(o.chunksRead, size, GapMs(o.previousNs, ns), ns - startedNs);
            && b1 == Some(if taken then b.(records := b.records + 1) else b)
            && o1 == o.(firstNs := if o.firstNs.None? then Some(ns) else o.firstNs, previousNs := Some(ns),
                        deliverySamples := if taken then o.deliverySamples + [sample] else o.deliverySamples)
  {
  }

  lemma DeliveryGrows(config: Config, body: nat, b: Budget, s: Stream, chunk: Bytes, startNs: int, ns: int)
    requires s.phase == Awaiting && chunk != []
    ensures Grown(config, b, s, StreamStep(config, body, Some(b), s, Delivered(chunk, startNs, ns)).1, |chunk|, ns)
  {
    var measured := Measured(s.observations, |chunk|);
    var binned := Binned(config, Some(b), measured, |chunk|);
    BinnedOnlyBins(config, b, measured, |chunk|);
    SampledOnlySamples(config, binned.0.value, binned.1, |chunk|, ns, s.startedNs);
    var o := ObserveStep(config, Some(b), s.observations, |chunk|, ns, s.startedNs).1;
    assert o == Sampled(config, binned.0, binned.1, |chunk|, ns, s.startedNs).1;
    assert StreamStep(config, body, Some(b), s, Delivered(chunk, startNs, ns)).1.observations == o;
  }

  lemma GrownTallied(config: Config, b: Budget, s: Stream, s': Stream, size: nat, ns: int)
    requires Grown(config, b, s, s', size, ns) && Tallied(s) && size > 0
    ensures Tallied(s')
  {
    SizesOfSnoc(s.arrivals, Arrival(size, ns));
    SumSnoc(SizesOf(s.arrivals), size);
  }

  lemma GrownBounded(config: Config, b: Budget, s: Stream, s': Stream, size: nat, ns: int)
    requires Grown(config, b, s, s', size, ns) && Bounded(s)
    ensures Bounded(s')
  {
    SizesOfSnoc(s.arrivals, Arrival(size, ns));
    var before, after := SizesOf(s.arrivals), SizesOf(s'.arrivals);
    assert size in after && forall x :: x in before ==> x in after;
  }

  lemma GrownSamples(config: Config, b: Budget, s: Stream, s': Stream, size: nat, ns: int)
    requires Grown(config, b, s, s', size, ns) && Tallied(s) && Bounded(s)
    requires SampledPrefix(config, s) && SamplingBlocked(config, b, s)
    ensures SampledPrefix(config, s')
  {
    forall k | 0 <= k < |s.observations.deliverySamples|
      ensures SampleOf(s'.startedNs, s'.arrivals, k) == SampleOf(s.startedNs, s.arrivals, k)
    {
    }
  }

  lemma DeliveryKeepsStream(config: Config, body: nat, b: Budget, s: Stream, e: Event)
    requires StreamOk(config, body, s) && SamplingBlocked(config, b, s)
    requires e.Delivered? && s.phase == Awaiting && e.chunk != []
    ensures StreamOk(config, body, StreamStep(config, body, Some(b), s, e).1)
  {
    var s', size := StreamStep(config, body, Some(b), s, e).1, |e.chunk|;
    DeliveryGrows(config, body, b, s, e.chunk, e.awaitStartedNs, e.arrivedNs);
    GrownTallied(config, b, s, s', size, e.arrivedNs);
    GrownBounded(config, b, s, s', size, e.arrivedNs);
    GrownSamples(config, b, s, s', size, e.arrivedNs);
  }

  lemma EventKeepsStream(config: Config, body: nat, b: Budget, s: Stream, e: Event)
    requires StreamOk(config, body, s)
    requires SamplingBlocked(config, b, s)
    ensures StreamOk(config, body, StreamStep(config, body, Some(b), s, e).1)
  {
    if e.Delivered? && s.phase == Awaiting {
      if e.chunk == [] {
        assert s.digest + e.chunk == s.digest;
      } else {
        DeliveryKeepsStream(config, body, b, s, e);
      }
    }
  }

  /** What one event may do to the shared budget. */
  ghost predicate Charged(b: Budget, s: Stream, b': Budget, s': Stream) {
    && b'.recordCap == b.recordCap && b'.histogramBinsCap == b.histogramBinsCap
    && b'.records + RecordsOf(s) == b.records + RecordsOf(s')
    && b.records <= b'.records && (b.records <= b.recordCap ==> b'.records <= b.recordCap)
    && b.histogramBins <= b'.histogramBins
    && (b.histogramBins <= b.histogramBinsCap ==> b'.histogramBins <= b.histogramBinsCap)
    && b'.globalHistogram.Some? == b.globalHistogram.Some?
    && (b.globalHistogram.None? ==> b'.histogramBins + BinsOf(s) == b.histogramBins + BinsOf(s'))
  }

  lemma BinnedCharges(config: Config, b: Budget, o: Observations, size: nat)
    ensures var (b1, o1) := Binned(config, Some(b), o, size);
            && b1.Some? && b.histogramBins <= b1.value.histogramBins
            && (b.histogramBins <= b.histogramBinsCap ==> b1.value.histogramBins <= b.histogramBinsCap)
            && b1.value.globalHistogram.Some? == b.globalHistogram.Some?
            && (b.globalHistogram.None? ==>
                  b1.value.histogramBins + |o.histogram| == b.histogramBins + |o1.histogram|)
  {
  }

  /** A nonempty delivery bins first and samples second. */
  lemma DeliveryParts(config: Config, body: nat, b: Budget, s: Stream, e: Event) returns (b1: Budget, o1: Observations)
    requires e.Delivered? && s.phase == Awaiting && e.chunk != []
    ensures Binned(config, Some(b), Measured(s.observations, |e.chunk|), |e.chunk|) == (Some(b1), o1)
    ensures var (b', s') := StreamStep(config, body, Some(b), s, e);
            var taken := |o1.deliverySamples| < config.chunkSampleCap && b1.records < b1.recordCap;
            && b' == Some(if taken then b1.(records := b1.records + 1) else b1)
            && s'.arrivals == s.arrivals + [Arrival(|e.chunk|, e.arrivedNs)]
            && s'.observations.histogram == o1.histogram
            && s'.observations.histogramComplete == o1.histogramComplete
            && s'.observations.trace == s.observations.trace
            && |s'.observations.deliverySamples| == |s.observations.deliverySamples| + if taken then 1 else 0
    ensures o1.deliverySamples == s.observations.deliverySamples
    ensures b1 == b.(histogramBins := b1.histogramBins, globalHistogram := b1.globalHistogram,
                     globalHistogramComplete := b1.globalHistogramComplete)
  {
    var size := |e.chunk|;
    var binned := Binned(config, Some(b), Measured(s.observations, size), size);
    BinnedOnlyBins(config, b, Measured(s.observations, size), size);
    b1, o1 := binned.0.value, binned.1;
    SampledOnlySamples(config, b1, o1, size, e.arrivedNs, s.startedNs);
  }

  lemma EventCharges(config: Config, body: nat, b: Budget, s: Stream, e: Event)
    ensures var (b', s') := StreamStep(config, body, Some(b), s, e); b'.Some? && Charged(b, s, b'.value, s')
  {
    if e.Delivered? && s.phase == Awaiting && e.chunk != [] {
      var b1, o1 := DeliveryParts(config, body, b, s, e);
      BinnedCharges(config, b, Measured(s.observations, |e.chunk|), |e.chunk|);
    }
  }

  /** A stream that was not stepped keeps its shared invariants, because caps never come back into reach. */
  lemma OthersKeepTheirs(config: Config, b: Budget, s: Stream, b': Budget, s': Stream, other: Stream)
    requires Charged(b, s, b', s')
    ensures SamplingBlocked(config, b, other) ==> SamplingBlocked(config, b', other)
    ensures LocalHistogram(config, b, other) ==> LocalHistogram(config, b', other)
  {
  }

  lemma EventKeepsSampling(config: Config, body: nat, b: Budget, s: Stream, e: Event)
    requires SamplingBlocked(config, b, s)
    ensures var (b', s') := StreamStep(config, body, Some(b), s, e);
            b'.Some? && SamplingBlocked(config, b'.value, s')
  {
    EventCharges(config, body, b, s, e);
    if e.Delivered? && s.phase == Awaiting && e.chunk != [] {
      DeliveryGrows(config, body, b, s, e.chunk, e.awaitStartedNs, e.arrivedNs);
    }
  }

  /** Counting one chunk into a histogram with a cap keeps it exact. */
  lemma BinsExactAfter(h: map<nat, nat>, complete: bool, sizes: seq<nat>, size: nat, full: bool, full': bool)
    requires BinsExact(h, complete, sizes, full)
    requires full ==> full'
    ensures size in h ==> BinsExact(Bump(h, size, 1), complete, sizes + [size], full')
    ensures size !in h && !full ==> BinsExact(Bump(h, size, 1), complete, sizes + [size], full')
    ensures size !in h && full' ==> BinsExact(h, false, sizes + [size], full')
  {
    ExactAfter(h, sizes, size);
    var grown := sizes + [size];
    assert size in grown && forall x :: x in sizes ==> x in grown;
  }

  lemma BinnedKeepsLocal(config: Config, b: Budget, o: Observations, size: nat, sizes: seq<nat>)
    requires b.globalHistogram.None?
    requires BinsExact(o.histogram, o.histogramComplete, sizes,
                       |o.histogram| >= config.histogramBinsCap || b.histogramBins >= b.histogramBinsCap)
    ensures var (b1, o1) := Binned(config, Some(b), o, size);
            BinsExact(o1.histogram, o1.histogramComplete, sizes + [size],
                      |o1.histogram| >= config.histogramBinsCap || b1.value.histogramBins >= b.histogramBinsCap)
  {
    var (b1, o1) := Binned(config, Some(b), o, size);
    BinsExactAfter(o.histogram, o.histogramComplete, sizes, size,
                   |o.histogram| >= config.histogramBinsCap || b.histogramBins >= b.histogramBinsCap,
                   |o1.histogram| >= config.histogramBinsCap || b1.value.histogramBins >= b.histogramBinsCap);
  }

  lemma BinnedKeepsGlobal(config: Config, b: Budget, o: Observations, size: nat, sizes: seq<nat>)
    requires b.globalHistogram.Some? && b.histogramBins == |b.globalHistogram.value|
    requires BinsExact(b.globalHistogram.value, b.globalHistogramComplete, sizes, b.histogramBins >= b.histogramBinsCap)
    ensures var (b1, o1) := Binned(config, Some(b), o, size);
            && o1 == o && b1.Some? && b1.value.globalHistogram.Some?
            && BinsExact(b1.value.globalHistogram.value, b1.value.globalHistogramComplete, sizes + [size],
                         b1.value.histogramBins >= b.histogramBinsCap)
            && b1.value.histogramBins == |b1.value.globalHistogram.value|
  {
    var (b1, o1) := Binned(config, Some(b), o, size);
    BinsExactAfter(b.globalHistogram.value, b.globalHistogramComplete, sizes, size,
                   b.histogramBins >= b.histogramBinsCap, b1.value.histogramBins >= b.histogramBinsCap);
  }

  lemma EventKeepsLocal(config: Config, body: nat, b: Budget, s: Stream, e: Event, all: seq<nat>)
    requires LocalHistogram(config, b, s)
    requires b.globalHistogram.Some? ==>
      && b.histogramBins == |b.globalHistogram.value|
      && BinsExact(b.globalHistogram.value, b.globalHistogramComplete, all, b.histogramBins >= b.histogramBinsCap)
    ensures var (b', s') := StreamStep(config, body, Some(b), s, e);
            b'.Some? && LocalHistogram(config, b'.value, s')
  {
    EventCharges(config, body, b, s, e);
    if e.Delivered? && s.phase == Awaiting && e.chunk != [] {
      var size := |e.chunk|;
      var measured := Measured(s.observations, size);
      var b1, o1 := DeliveryParts(config, body, b, s, e);
      SizesOfSnoc(s.arrivals, Arrival(size, e.arrivedNs));
      if b.globalHistogram.None? {
        BinnedKeepsLocal(config, b, measured, size, SizesOf(s.arrivals));
      } else {
        BinnedKeepsGlobal(config, b, measured, size, all);
      }
    }
  }

  lemma MoveKeepsGlobal(config: Config, body: nat, w: World, i: nat, e: Event)
    requires GlobalHistogram(w) && i < |w.streams|
    ensures GlobalHistogram(Step(config, body, w, On(i, e)))
  {
    var b, s := w.budget, w.streams[i];
    EventCharges(config, body, b, s, e);
    if b.globalHistogram.Some? && e.Delivered? && s.phase == Awaiting && e.chunk != [] {
      var b1, o1 := DeliveryParts(config, body, b, s, e);
      BinnedKeepsGlobal(config, b, Measured(s.observations, |e.chunk|), |e.chunk|, w.sizes);
    }
  }

  /** The history of sizes grows with the stream that received a chunk. */
  lemma EventArrivals(config: Config, body: nat, b: Budget, s: Stream, e: Event)
    requires Tallied(s)
    ensures var s' := StreamStep(config, body, Some(b), s, e).1;
            || (s'.arrivals == s.arrivals && ChunksOf(s') == ChunksOf(s) && BytesOf(s') == BytesOf(s))
            || exists a :: s'.arrivals == s.arrivals + [a] && ChunksOf(s') == ChunksOf(s) + 1
                           && BytesOf(s') == BytesOf(s) + a.size
  {
    if e.Delivered? && s.phase == Awaiting && e.chunk != [] {
      DeliveryGrows(config, body, b, s, e.chunk, e.awaitStartedNs, e.arrivedNs);
    }
  }

  lemma ChargeKeepsBudget(b: Budget, streams: seq<Stream>, i: nat, b': Budget, s': Stream)
    requires Budgeted(b, streams) && i < |streams| && Charged(b, streams[i], b', s')
    ensures Budgeted(b', streams[i := s'])
  {
    SumOverUpdate(streams, i, s', RecordsOf);
    SumOverUpdate(streams, i, s', BinsOf);
  }

  lemma SameKeepsMemory(streams: seq<Stream>, sizes: seq<nat>, i: nat, s': Stream)
    requires Remembered(streams, sizes) && i < |streams| && s'.arrivals == streams[i].arrivals
    requires ChunksOf(s') == ChunksOf(streams[i]) && BytesOf(s') == BytesOf(streams[i])
    ensures Remembered(streams[i := s'], sizes)
  {
    SumOverUpdate(streams, i, s', ChunksOf);
    SumOverUpdate(streams, i, s', BytesOf);
  }

  lemma ArrivalKeepsMemory(streams: seq<Stream>, sizes: seq<nat>, i: nat, s': Stream, a: Arrival)
    requires Remembered(streams, sizes) && i < |streams| && s'.arrivals == streams[i].arrivals + [a]
    requires ChunksOf(s') == ChunksOf(streams[i]) + 1 && BytesOf(s') == BytesOf(streams[i]) + a.size
    ensures Remembered(streams[i := s'], sizes + [a.size])
  {
    SumOverUpdate(streams, i, s', ChunksOf);
    SumOverUpdate(streams, i, s', BytesOf);
    SumSnoc(sizes, a.size);
    var after := sizes + [a.size];
    assert forall x :: x in sizes ==> x in after;
    assert a.size in after;
  }

  lemma MoveKeepsAccounts(config: Config, body: nat, w: World, i: nat, e: Event)
    requires i < |w.streams| && Tallied(w.streams[i]) && Accounted(w)
    ensures Accounted(Step(config, body, w, On(i, e)))
  {
    var s := w.streams[i];
    var (b', s') := StreamStep(config, body, Some(w.budget), s, e);
    EventCharges(config, body, w.budget, s, e);
    EventArrivals(config, body, w.budget, s, e);
    ChargeKeepsBudget(w.budget, w.streams, i, b'.value, s');
    if s'.arrivals == s.arrivals {
      SameKeepsMemory(w.streams, w.sizes, i, s');
    } else {
      var a :| s'.arrivals == s.arrivals + [a] && ChunksOf(s') == ChunksOf(s) + 1 && BytesOf(s') == BytesOf(s) + a.size;
      ArrivalKeepsMemory(w.streams, w.sizes, i, s', a);
    }
  }

  lemma FreshOk(config: Config, body: nat, b: Budget, startedNs: int)
    ensures var s := FreshStream(startedNs);
      StreamOk(config, body, s) && SamplingBlocked(config, b, s) && LocalHistogram(config, b, s)
  {
  }

  lemma OpenKeepsAccounts(w: World, startedNs: int)
    requires Accounted(w)
    ensures Accounted(w.(streams := w.streams + [FreshStream(startedNs)]))
  {
    var s := FreshStream(startedNs);
    SumOverAppend(w.streams, s, RecordsOf);
    SumOverAppend(w.streams, s, BinsOf);
    SumOverAppend(w.streams, s, ChunksOf);
    SumOverAppend(w.streams, s, BytesOf);
  }

  lemma OpenKeepsWorld(config: Config, body: nat, w: World, startedNs: int)
    requires WorldOk(config, body, w)
    ensures WorldOk(config, body, Step(config, body, w, Open(startedNs)))
  {
    FreshOk(config, body, w.budget, startedNs);
    OpenKeepsAccounts(w, startedNs);
  }

  lemma MoveKeepsWorld(config: Config, body: nat, w: World, m: Move)
    requires WorldOk(config, body, w)
    ensures WorldOk(config, body, Step(config, body, w, m))
  {
    if m.Open? {
      OpenKeepsWorld(config, body, w, m.startedNs);
    } else if m.stream < |w.streams| {
      var i, e, b := m.stream, m.event, w.budget;
      var s, w' := w.streams[i], Step(config, body, w, m);
      EventCharges(config, body, b, s, e);
      EventKeepsStream(config, body, b, s, e);
      EventKeepsSampling(config, body, b, s, e);
      EventKeepsLocal(config, body, b, s, e, w.sizes);
      MoveKeepsGlobal(config, body, w, i, e);
      MoveKeepsAccounts(config, body, w, i, e);
      forall j | 0 <= j < |w.streams| && j != i
        ensures SamplingBlocked(config, w'.budget, w.streams[j]) && LocalHistogram(config, w'.budget, w.streams[j])
      {
        OthersKeepTheirs(config, b, s, w'.budget, w'.streams[i], w.streams[j]);
      }
    }
  }

  /** Every interleaving of every set of streams keeps the invariant. */
  lemma {:induction false} RunKeepsWorld(config: Config, body: nat, w: World, moves: seq<Move>)
    requires WorldOk(config, body, w)
    ensures WorldOk(config, body, Run(config, body, w, moves))
  {
    if moves != [] {
      RunKeepsWorld(config, body, w, moves[..|moves| - 1]);
      MoveKeepsWorld(config, body, Run(config, body, w, moves[..|moves| - 1]), moves[|moves| - 1]);
    }
  }

  lemma StartOk(config: Config, body: nat, recordCap: nat, binsCap: nat, global: bool)
    ensures WorldOk(config, body, StartWorld(recordCap, binsCap, global))
  {
  }

  // ---------------------------------------------------------------- results

  /**
   Budget exactness: after any run, each histogram counts every size of its domain exactly, is complete if and
   only if its counts add up to the chunks delivered, and the shared counters are the totals actually held.
   */
  lemma BudgetExactness(config: Config, body: nat, recordCap: nat, binsCap: nat, global: bool, moves: seq<Move>)
    ensures var w := Run(config, body, StartWorld(recordCap, binsCap, global), moves);
      && w.budget.records == SumOver(w.streams, RecordsOf) <= recordCap
      && w.budget.histogramBins <= binsCap
      && (global ==>
            && w.budget.globalHistogram.Some?
            && var h := w.budget.globalHistogram.value;
               && w.budget.histogramBins == |h|
               && Exact(h, w.sizes)
               && (w.budget.globalHistogramComplete <==> Total(h) == SumOver(w.streams, ChunksOf))
               && (w.budget.globalHistogramComplete ==> BytesIn(h) == SumOver(w.streams, BytesOf)))
      && (!global ==>
            && w.budget.histogramBins == SumOver(w.streams, BinsOf)
            && forall i :: 0 <= i < |w.streams| ==>
                 var o := w.streams[i].observations;
                 && Exact(o.histogram, SizesOf(w.streams[i].arrivals))
                 && (o.histogramComplete <==> Total(o.histogram) == o.chunksRead)
                 && (o.histogramComplete ==> BytesIn(o.histogram) == o.bytesRead))
  {
    StartOk(config, body, recordCap, binsCap, global);
    var start := StartWorld(recordCap, binsCap, global);
    RunKeepsWorld(config, body, start, moves);
    RunKeepsBudgetShape(config, body, start, moves);
    var w := Run(config, body, start, moves);
    if global {
      CompleteIffTotal(w.budget.globalHistogram.value, w.sizes);
    } else {
      forall i | 0 <= i < |w.streams|
        ensures var o := w.streams[i].observations;
          && Exact(o.histogram, SizesOf(w.streams[i].arrivals))
          && (o.histogramComplete <==> Total(o.histogram) == o.chunksRead)
          && (o.histogramComplete ==> BytesIn(o.histogram) == o.bytesRead)
      {
        assert LocalHistogram(config, w.budget, w.streams[i]) && Tallied(w.streams[i]);
        CompleteIffTotal(w.streams[i].observations.histogram, SizesOf(w.streams[i].arrivals));
      }
    }
  }

  lemma {:induction false} RunKeepsBudgetShape(config: Config, body: nat, w: World, moves: seq<Move>)
    ensures var b, b' := w.budget, Run(config, body, w, moves).budget;
      && b'.recordCap == b.recordCap && b'.histogramBinsCap == b.histogramBinsCap
      && b'.globalHistogram.Some? == b.globalHistogram.Some?
  {
    if moves != [] {
      var before := Run(config, body, w, moves[..|moves| - 1]);
      RunKeepsBudgetShape(config, body, w, moves[..|moves| - 1]);
      var m := moves[|moves| - 1];
      if m.On? && m.stream < |before.streams| {
        EventCharges(config, body, before.budget, before.streams[m.stream], m.event);
      }
    }
  }

  function GapSum(samples: seq<DeliverySample>): real {
    if samples == [] then 0.0
    else
      var last := samples[|samples| - 1];
      GapSum(samples[..|samples| - 1]) + if last.gapMs.Some? then last.gapMs.value else 0.0
  }

  lemma {:induction false} GapsTelescope(config: Config, s: Stream, n: nat)
    requires SampledPrefix(config, s) && 0 < n <= |s.observations.deliverySamples|
    ensures GapSum(s.observations.deliverySamples[..n]) == (s.arrivals[n - 1].ns - s.arrivals[0].ns) as real / 1000000.0
  {
    var samples := s.observations.deliverySamples;
    assert samples[n - 1] == SampleOf(s.startedNs, s.arrivals, n - 1);
    assert samples[..n][..n - 1] == samples[..n - 1];
    if n == 1 {
      assert samples[..0] == [];
    } else {
      GapsTelescope(config, s, n - 1);
    }
  }

  lemma {:induction false} SumBetween(xs: seq<nat>, low: nat, high: nat)
    requires forall k :: 0 <= k < |xs| ==> low <= xs[k] <= high
    ensures low * |xs| <= Sum(xs) <= high * |xs|
  {
    if xs != [] {
      var n := |xs| - 1;
      SumBetween(xs[..n], low, high);
      assert low * (n + 1) == low * n + low && high * (n + 1) == high * n + high;
    }
  }

  /** A prefix of the deliveries, numbered from one, whose gaps telescope. */
  ghost predicate SamplesFaithful(s: Stream) {
    var o, samples := s.observations, s.observations.deliverySamples;
    && |samples| <= |s.arrivals| == o.chunksRead
    && (forall k :: 0 <= k < |samples| ==>
          && samples[k].index == k + 1
          && samples[k].sizeBytes == s.arrivals[k].size
          && samples[k].offsetNs == s.arrivals[k].ns - s.startedNs)
    && (samples != [] ==>
          GapSum(samples) == (samples[|samples| - 1].offsetNs - samples[0].offsetNs) as real / 1000000.0)
  }

  /** Extremes that bracket the average chunk. */
  ghost predicate ExtremesFaithful(o: Observations) {
    o.chunksRead > 0 ==>
      && o.minBytes.Some? && o.maxBytes.Some? && 1 <= o.minBytes.value
      && o.minBytes.value * o.chunksRead <= o.bytesRead <= o.maxBytes.value * o.chunksRead
  }

  lemma SamplesFacts(config: Config, s: Stream)
    requires Tallied(s) && SampledPrefix(config, s)
    ensures SamplesFaithful(s)
  {
    var samples := s.observations.deliverySamples;
    if samples != [] {
      GapsTelescope(config, s, |samples|);
      assert samples[..|samples|] == samples;
    }
  }

  lemma ExtremesFacts(s: Stream)
    requires Tallied(s) && Bounded(s)
    ensures ExtremesFaithful(s.observations)
  {
    if s.arrivals != [] {
      SumBetween(SizesOf(s.arrivals), s.observations.minBytes.value, s.observations.maxBytes.value);
    }
  }

  lemma OkIsFaithful(config: Config, body: nat, s: Stream)
    requires StreamOk(config, body, s)
    ensures SamplesFaithful(s) && ExtremesFaithful(s.observations)
  {
    SamplesFacts(config, s);
    ExtremesFacts(s);
  }

  /** What one stream reports after any run is faithful to what it received. */
  lemma StreamFacts(config: Config, body: nat, recordCap: nat, binsCap: nat, global: bool, moves: seq<Move>, i: nat)
    requires i < |Run(config, body, StartWorld(recordCap, binsCap, global), moves).streams|
    ensures SamplesFaithful(Run(config, body, StartWorld(recordCap, binsCap, global), moves).streams[i])
    ensures ExtremesFaithful(Run(config, body, StartWorld(recordCap, binsCap, global), moves).streams[i].observations)
  {
    StartOk(config, body, recordCap, binsCap, global);
    RunKeepsWorld(config, body, StartWorld(recordCap, binsCap, global), moves);
    OkIsFaithful(config, body, Run(config, body, StartWorld(recordCap, binsCap, global), moves).streams[i]);
  }
}
