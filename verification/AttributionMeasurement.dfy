/** Measuring one batch from end to end. */
module AttributionMeasurement {
  import opened Common
  import opened MapSums
  import opened Histograms
  import opened Clocks
  import opened Arithmetic
  import opened BytesPayload
  import opened AttributionConsume
  import opened ObservationRuns
  import opened AttributionStreams
  import opened AttributionWindow
  import opened AttributionOverhead
  import opened AttributionMeasure
  import opened AttributionBatch
  import opened AttributionAdmission

  lemma ReachedAtFinish(config: Config, k: nat, now: nat, started: nat, finished: nat, rounds: int)
    requires StopsAfter(k, now, started, rounds, config) && now <= finished
    ensures k >= rounds && Seconds(finished - started) >= config.minimumDurationS
  {
    var min := config.minimumDurationS;
    assert (finished - started) as real >= (now - started) as real;
    Scaled(min, (finished - started) as real);
  }

  lemma Scaled(a: real, ns: real)
    requires ns >= a * 1000000000.0
    ensures ns / 1000000000.0 >= a
  {
  }

  /** All that is known of the state a load ends in. */
  ghost predicate Reached(config: Config, body: nat, window: bool, w: World) {
    && WorldOk(config, body, w) && AllArose(w)
    && w.budget.globalHistogram.Some? == window
    && (window ==> w.budget.histogramBinsCap == config.histogramBinsCap)
  }

  lemma RunReaches(config: Config, body: nat, window: bool, moves: seq<Move>)
    ensures Reached(config, body, window, Run(config, body, StartOf(config, window), moves))
  {
    var start := StartOf(config, window);
    StartOk(config, body, BUDGET_RECORD_CAP, start.budget.histogramBinsCap, window);
    RunKeepsWorld(config, body, start, moves);
    RunKeepsBudgetShape(config, body, start, moves);
    RunArose(config, body, start, moves);
  }

  lemma OwnHistogramPositive(config: Config, b: Budget, s: Stream)
    requires Tallied(s) && LocalHistogram(config, b, s)
    ensures Positive(s.observations.histogram)
  {
    if b.globalHistogram.None? {
      CountedOnly(s.observations.histogram, SizesOf(s.arrivals));
    }
  }

  lemma OwnPositive(config: Config, body: nat, window: bool, w: World, i: nat)
    requires Reached(config, body, window, w) && i < |w.streams|
    ensures Positive(w.streams[i].observations.histogram)
  {
    OwnHistogramPositive(config, w.budget, w.streams[i]);
  }

  lemma SharedPositive(config: Config, body: nat, w: World)
    requires Reached(config, body, true, w)
    ensures Positive(w.budget.globalHistogram.value)
  {
    SizesWithinBody(config, body, w);
  }

  /** The replay, on what the streams of a reachable state observed. */
  method Replay(clock: Clock, config: Config, body: nat, window: bool, budget: ObservationBudget,
                observations: seq<Observations>, ghost w: World)
    returns (o: Overhead)
    requires 1 <= config.replayMaxChunks && Reached(config, body, window, w) && w.budget == budget.State()
    requires |observations| == |w.streams|
    requires forall i :: 0 <= i < |w.streams| ==> observations[i] == w.streams[i].observations
    modifies clock
    ensures old(clock.now) <= clock.now
    ensures window ==>
      && Reports(o, w.budget.globalHistogram.value, w.budget.globalHistogramComplete,
                 Sum(Field(observations, AttributionOverhead.Bytes)), Sum(Field(observations, Chunks)), config, true)
      && GivesUpOnlyBeyond(o, w.budget.globalHistogram.value, config)
  {
    forall i | 0 <= i < |observations| ensures Positive(observations[i].histogram) {
      OwnPositive(config, body, window, w, i);
    }
    if window { SharedPositive(config, body, w); }
    ghost var h: map<nat, nat>, complete: bool;
    o, h, complete :=
      ReplayHarnessOverhead(clock, observations, config, if window then Some(budget.State()) else None);
  }

  /** Everything after the load: end probes, finalisation and replay. */
  method Conclude<D(==)>(
    clock: Clock, config: Config, body: nat, window: bool, budget: ObservationBudget, pending: seq<PendingStream>,
    clientBefore: CpuSnapshot, serverBefore: CpuSnapshot, started: nat, finished: nat,
    sha: Bytes -> D, expected: D, ghost w: World)
    returns (m: Measurement)
    requires 1 <= config.replayMaxChunks && Reached(config, body, window, w)
    requires Separate(config, budget, pending) && Represents(w, budget, pending)
    requires 0 <= clientBefore.probeStartedNs <= clientBefore.probeFinishedNs <= started <= finished <= clock.now
    requires 0 <= serverBefore.probeStartedNs <= serverBefore.probeFinishedNs <= started
    modifies clock
    ensures Measures(m, w, config, window, sha, body, expected) && ReplayBounded(m, w, config)
    ensures m.startedNs == started && m.finishedNs == finished
    ensures m.clientBefore == clientBefore && m.serverBefore == serverBefore
  {
    var samples, observations := FinalizeAll(config, budget, pending, sha, body, expected, w);
    var bins := SortedItems(if budget.globalHistogram.Some? then budget.globalHistogram.value else map[]);
    m := Close(clock, config, body, window, budget, clientBefore, serverBefore, started, finished,
               samples, observations, bins, w);
  }

  method Close(
    clock: Clock, config: Config, body: nat, window: bool, budget: ObservationBudget,
    clientBefore: CpuSnapshot, serverBefore: CpuSnapshot, started: nat, finished: nat,
    samples: seq<Sample>, observations: seq<Observations>, bins: seq<Bin>, ghost w: World)
    returns (m: Measurement)
    requires 1 <= config.replayMaxChunks && Reached(config, body, window, w) && w.budget == budget.State()
    requires |observations| == |w.streams|
    requires forall i :: 0 <= i < |w.streams| ==> observations[i] == w.streams[i].observations
    requires started <= finished <= clock.now
    modifies clock
    ensures m.samples == samples && m.observations == observations && m.globalBins == bins
    ensures m.globalComplete == w.budget.globalHistogramComplete
    ensures m.startedNs == started && m.finishedNs == finished
    ensures m.clientBefore == clientBefore && m.serverBefore == serverBefore
    ensures m.clientAfter.pid == clientBefore.pid && m.serverAfter.pid == serverBefore.pid
    ensures finished <= m.clientAfter.probeStartedNs <= m.clientAfter.probeFinishedNs
    ensures finished <= m.serverAfter.probeStartedNs <= m.serverAfter.probeFinishedNs
    ensures window ==>
      Reports(m.overhead, w.budget.globalHistogram.value, w.budget.globalHistogramComplete,
              Sum(Field(observations, AttributionOverhead.Bytes)), Sum(Field(observations, Chunks)), config, true)
    ensures ReplayBounded(m, w, config)
  {
    var complete := budget.globalHistogramComplete;
    var clientAfter := Probe(clock, clientBefore.pid);
    var serverAfter := Probe(clock, serverBefore.pid);
    var finalizeStarted := clock.Read();
    var finalizeFinished := clock.Read();
    var overhead := Replay(clock, config, body, window, budget, observations, w);
    m := Measurement(samples, observations, bins, complete, started, finished, finalizeFinished - finalizeStarted,
                     clientBefore, clientAfter, serverBefore, serverAfter, overhead);
  }

  /** Whether a record stands up to the checks that are applied to it later. */
  ghost predicate Judged<D>(
    batch: Batch, w: World, config: Config, concurrency: nat, rounds: nat, window: bool, done: nat,
    sha: Bytes -> D, body: nat, expected: D)
  {
    && (concurrency > 0 && window ==>
          && WindowWorkloadMatches(batch, Workload(body, rounds, config), concurrency)
          && (BatchWorkloadMatches(batch, done, concurrency)
              && DistributionAdmitted(batch, Workload(body, rounds, config))
              <==> Verified(w, sha, body, expected) && w.budget.globalHistogramComplete && batch.overhead.ok))
    && (concurrency > 0 && window && w.budget.globalHistogram.Some?
          && FewSegments(w.budget.globalHistogram.value, config)
          && Verified(w, sha, body, expected) && w.budget.globalHistogramComplete ==>
          batch.overhead.ok && DistributionAdmitted(batch, Workload(body, rounds, config)))
    && (BatchWorkloadMatches(batch, done, concurrency) <==> Verified(w, sha, body, expected))
    && (BatchTimingMatches(batch) <==> batch.timing.loadStartedNs < batch.timing.loadFinishedNs)
    && (window && batch.window.Some? && batch.window.value.targetReached ==> BatchTimingMatches(batch))
  }

  lemma JudgeBatch<D>(
    m: Measurement, w: World, config: Config, concurrency: nat, rounds: nat, window: bool, done: nat,
    limit: nat, sha: Bytes -> D, body: nat, expected: D)
    requires Measures(m, w, config, window, sha, body, expected) && ReplayBounded(m, w, config)
    requires Reached(config, body, window, w)
    requires concurrency > 0 && ValidRequest(config, body, concurrency, rounds, window)
    requires |w.streams| == done * concurrency
    requires limit == config.maxWindowStreams / concurrency
    requires window ==> WindowOf(config, 1) && Ended(m, config, rounds, limit, done) && done > 0
    ensures Judged(RecordOf(m, config, concurrency, rounds, window), w, config, concurrency, rounds, window, done,
                   sha, body, expected)
  {
    WorkloadAccepted(m, w, config, window, sha, body, expected, concurrency, rounds, done);
    TimingAcceptedIff(m, w, config, window, sha, body, expected, concurrency, rounds);
    if window {
      Apart(0, done, concurrency);
      WindowWorkloadAccepted(m, w, config, sha, body, expected, concurrency, rounds, done);
      WindowAcceptedIff(m, w, config, sha, body, expected, concurrency, rounds, done);
      if FewSegments(w.budget.globalHistogram.value, config) && Verified(w, sha, body, expected)
         && w.budget.globalHistogramComplete {
        BoundedReplayAdmitted(m, w, config, sha, body, expected, concurrency, rounds);
      }
    }
  }

  lemma EndedAsDeclared(m: Measurement, config: Config, concurrency: nat, rounds: nat, limit: nat, checks: seq<nat>)
    requires concurrency > 0 && 0 < rounds && rounds * concurrency <= config.maxWindowStreams
    requires limit == config.maxWindowStreams / concurrency && |checks| <= limit
    requires forall k :: 0 <= k < |checks| ==> checks[k] <= m.finishedNs
    requires |checks| < limit ==>
      checks != [] && StopsAfter(|checks|, checks[|checks| - 1], m.startedNs, rounds, config)
    ensures Ended(m, config, rounds, limit, |checks|) && |checks| > 0
  {
    QuotientAtLeast(rounds, concurrency, config.maxWindowStreams);
    if |checks| < limit {
      ReachedAtFinish(config, |checks|, checks[|checks| - 1], m.startedNs, m.finishedNs, rounds);
    }
  }

  /** The measurement itself, once the request is known to be valid. */
  method MeasureLoad<D(==)>(
    clock: Clock, config: Config, body: nat, concurrency: nat, rounds: nat, window: bool,
    clientPid: int, serverPid: int, sha: Bytes -> D, schedules: seq<seq<Move>>)
    returns (made: Measurement, ghost w: World, ghost done: nat)
    requires ValidRequest(config, body, concurrency, rounds, window) && (window ==> WindowOf(config, 1))
    requires |schedules| == MaximumRounds(config, concurrency, rounds, window)
    requires Gathered(config, body, StartOf(config, window), schedules, concurrency)
    modifies clock
    ensures done <= |schedules| && (!window ==> done == rounds)
    ensures w == Run(config, body, StartOf(config, window), Flat(schedules[..done]))
    ensures |w.streams| == done * concurrency
    ensures Measures(made, w, config, window, sha, body, sha(Pattern(body)))
    ensures made.clientBefore.pid == clientPid && made.serverBefore.pid == serverPid
    ensures Judged(RecordOf(made, config, concurrency, rounds, window), w, config, concurrency, rounds, window, done,
                   sha, body, sha(Pattern(body)))
  {
    w := StartOf(config, window);
    var expected := StreamingBytesSha256(sha, body);
    var clientBefore := Probe(clock, clientPid);
    var serverBefore := Probe(clock, serverPid);
    var budget := new ObservationBudget(
      BUDGET_RECORD_CAP, if window then config.histogramBinsCap else BUDGET_BINS_CAP,
      if window then Some(map[]) else None);
    var pending, started, finished, checks :=
      ConsumeLoad(clock, config, body, concurrency, rounds, budget, window, schedules, w);
    done := |checks|;
    w := Run(config, body, StartOf(config, window), Flat(schedules[..done]));
    RunReaches(config, body, window, Flat(schedules[..done]));
    made := Conclude(clock, config, body, window, budget, pending, clientBefore, serverBefore, started, finished,
                     sha, expected, w);
    if window {
      EndedAsDeclared(made, config, concurrency, rounds, |schedules|, checks);
    }
    QuotientNat(config.maxWindowStreams, concurrency);
    JudgeBatch(made, w, config, concurrency, rounds, window, done, config.maxWindowStreams / concurrency,
               sha, body, expected);
  }

  /**
   Measures one batch. For every valid request, every schedule of its rounds and every clock, the record is the one
   the machine's final state `w` determines, and it stands up to every later check exactly when the streams were
   verified and, for a timed window, the shared histogram is complete and its replay succeeded.
   */
  method MeasureAsyncBatch<D(==)>(
    clock: Clock, config: Config, body: int, concurrency: int, rounds: int, batch: int, clientPid: int, serverPid: int,
    sha: Bytes -> D, schedules: seq<seq<Move>>)
    returns (r: Result<Batch, string>, ghost w: World, ghost done: nat, ghost m: Option<Measurement>)
    requires ValidRequest(config, body, concurrency, rounds, WindowOf(config, batch)) ==>
      && |schedules| == MaximumRounds(config, concurrency, rounds, WindowOf(config, batch))
      && Gathered(config, body, StartOf(config, WindowOf(config, batch)), schedules, concurrency)
    modifies clock
    ensures r.Ok? <==> ValidRequest(config, body, concurrency, rounds, WindowOf(config, batch))
    ensures r.Ok? ==>
      && done <= |schedules|
      && w == Run(config, body, StartOf(config, WindowOf(config, batch)), Flat(schedules[..done]))
      && r.value.requests == |w.streams| == done * concurrency
      && m.Some? && Measures(m.value, w, config, WindowOf(config, batch), sha, body, sha(Pattern(body)))
      && r.value == RecordOf(m.value, config, concurrency, rounds, WindowOf(config, batch))
      && (!WindowOf(config, batch) ==> done == rounds)
      && (r.value.window.Some? <==> config.minimumDurationS > 0.0 && batch > 0)
      && r.value.clientCpu.pid == clientPid && r.value.serverCpu.pid == serverPid
      && Judged(r.value, w, config, concurrency, rounds, WindowOf(config, batch), done, sha, body,
                sha(Pattern(body)))
  {
    var window := WindowOf(config, batch);
    w, done, m := StartOf(config, window), 0, None;
    if !ValidConfig(config) { return Err("invalid attribution configuration"), w, done, m; }
    if !(0 < body <= MAX_BODY_BYTES) { return Err("payload must be positive and within 1 MiB"), w, done, m; }
    if (concurrency != 1 && concurrency != 10) || !(0 <= rounds <= MAX_ROUNDS) {
      return Err("concurrency 1/10 and zero to twenty rounds"), w, done, m;
    }
    if window && (rounds <= 0 || rounds * concurrency > config.maxWindowStreams) {
      return Err("minimum rounds must fit the stream bound"), w, done, m;
    }
    var made: Measurement;
    made, w, done :=
      MeasureLoad(clock, config, body, concurrency, rounds, window, clientPid, serverPid, sha, schedules);
    r, m := Ok(RecordOf(made, config, concurrency, rounds, window)), Some(made);
  }
}
