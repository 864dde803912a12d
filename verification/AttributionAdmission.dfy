/** Whatever a timed batch records, the later checks accept it exactly when its streams and its replay succeeded. */
module AttributionAdmission {
  import opened Common
  import opened MapSums
  import opened Histograms
  import opened Clocks
  import opened Arithmetic
  import opened AttributionConsume
  import opened ObservationRuns
  import opened AttributionStreams
  import opened AttributionReplay
  import opened AttributionWindow
  import opened AttributionOverhead
  import opened AttributionMeasure
  import opened AttributionBatch

  // ---------------------------------------------------------------- where window sizes come from

  ghost predicate Arose(w: World, size: nat) {
    exists i, k :: 0 <= i < |w.streams| && 0 <= k < |w.streams[i].arrivals| && w.streams[i].arrivals[k].size == size
  }

  ghost predicate AllArose(w: World) {
    forall size :: size in w.sizes ==> Arose(w, size)
  }

  lemma EventOnlyAppends(config: Config, body: nat, b: Budget, s: Stream, e: Event)
    ensures var s' := StreamStep(config, body, Some(b), s, e).1;
            s'.arrivals == s.arrivals || exists a :: s'.arrivals == s.arrivals + [a]
  {
    if e.Delivered? && s.phase == Awaiting && e.chunk != [] {
      DeliveryGrows(config, body, b, s, e.chunk, e.awaitStartedNs, e.arrivedNs);
    }
  }

  lemma StepArose(config: Config, body: nat, w: World, m: Move)
    requires AllArose(w)
    ensures AllArose(Step(config, body, w, m))
  {
    var w' := Step(config, body, w, m);
    if m.On? && m.stream < |w.streams| {
      EventOnlyAppends(config, body, w.budget, w.streams[m.stream], m.event);
    }
    forall size | size in w'.sizes ensures Arose(w', size) {
      if size in w.sizes {
        var i, k :| 0 <= i < |w.streams| && 0 <= k < |w.streams[i].arrivals| && w.streams[i].arrivals[k].size == size;
        assert w'.streams[i].arrivals[k].size == size;
      } else {
        var a := w'.streams[m.stream].arrivals;
        assert a[|a| - 1].size == size;
      }
    }
  }

  lemma {:induction false} RunArose(config: Config, body: nat, w: World, moves: seq<Move>)
    requires AllArose(w)
    ensures AllArose(Run(config, body, w, moves))
  {
    if moves != [] {
      RunArose(config, body, w, moves[..|moves| - 1]);
      StepArose(config, body, Run(config, body, w, moves[..|moves| - 1]), moves[|moves| - 1]);
    }
  }

  // ---------------------------------------------------------------- sums of the record

  lemma FieldsAgree(m: seq<Observations>, streams: seq<Stream>)
    requires |m| == |streams| && forall i :: 0 <= i < |m| ==> m[i] == streams[i].observations
    ensures Sum(Field(m, AttributionOverhead.Bytes)) == SumOver(streams, BytesOf)
    ensures Sum(Field(m, Chunks)) == SumOver(streams, ChunksOf)
  {
    forall i | 0 <= i < |m|
      ensures Field(m, AttributionOverhead.Bytes)[i] == Each(streams, BytesOf)[i]
      ensures Field(m, Chunks)[i] == Each(streams, ChunksOf)[i]
    {
      assert AttributionOverhead.Bytes(m[i]) == BytesOf(streams[i]) && Chunks(m[i]) == ChunksOf(streams[i]);
    }
    assert Field(m, AttributionOverhead.Bytes) == Each(streams, BytesOf);
    assert Field(m, Chunks) == Each(streams, ChunksOf);
  }

  lemma {:induction false} ChunksReadIs(samples: seq<Sample>, observations: seq<Observations>)
    requires |samples| == |observations|
    requires forall i :: 0 <= i < |samples| ==> samples[i].chunksRead == observations[i].chunksRead
    ensures ChunksRead(samples) == Sum(Field(observations, Chunks))
  {
    if samples != [] {
      var n := |samples| - 1;
      ChunksReadIs(samples[..n], observations[..n]);
      assert Field(observations, Chunks)[..n] == Field(observations[..n], Chunks);
    }
  }

  /** No stream is reported failed exactly when all are reported ok. */
  lemma {:induction false} OkIffNoneFailed(samples: seq<Sample>)
    ensures OkStreams(samples) <= |samples|
    ensures OkStreams(samples) == |samples| <==> forall i :: 0 <= i < |samples| ==> samples[i].error.None?
    ensures OkStreams(samples) + |FailedStreams(samples)| == |samples|
  {
    if samples != [] {
      var n := |samples| - 1;
      OkIffNoneFailed(samples[..n]);
      assert samples == samples[..n] + [samples[n]];
    }
  }

  ghost predicate Verified<D>(w: World, sha: Bytes -> D, body: nat, expected: D) {
    forall i :: 0 <= i < |w.streams| ==> Intact(sha, w.streams[i], body, expected)
  }

  lemma ErrorsAreFailures<D>(
    m: Measurement, w: World, config: Config, window: bool, sha: Bytes -> D, body: nat, expected: D)
    requires Measures(m, w, config, window, sha, body, expected)
    ensures (forall i :: 0 <= i < |m.samples| ==> m.samples[i].error.None?) <==> Verified(w, sha, body, expected)
  {
    forall i | 0 <= i < |w.streams|
      ensures m.samples[i].error.None? <==> Intact(sha, w.streams[i], body, expected)
    {
      FailureIff(sha, w.streams[i], body, expected);
    }
  }

  // ---------------------------------------------------------------- the record's own accounts

  /** Samples numbered in order, as finalisation numbers them. */
  ghost predicate InOrder(samples: seq<Sample>) {
    forall i :: 0 <= i < |samples| ==> samples[i].stream == i + 1
  }

  /** The failed streams are listed by number, in ascending order, and are exactly those with an error. */
  lemma {:induction false} FailedListed(samples: seq<Sample>)
    requires InOrder(samples)
    ensures var failed := FailedStreams(samples);
      && (forall n :: n in failed <==> 1 <= n <= |samples| && samples[n - 1].error.Some?)
      && (forall i, j :: 0 <= i < j < |failed| ==> failed[i] < failed[j])
  {
    if samples != [] {
      var init := samples[..|samples| - 1];
      FailedListed(init);
      forall i | 0 <= i < |FailedStreams(init)| ensures FailedStreams(init)[i] < |samples| {
        assert FailedStreams(init)[i] in FailedStreams(init);
      }
    }
  }

  /** Only verified streams contribute verified bytes, each the whole body. */
  lemma {:induction false} VerifiedBytesAre(samples: seq<Sample>, body: nat)
    requires forall i :: 0 <= i < |samples| ==> samples[i].verifiedBytes == if samples[i].error.None? then body else 0
    ensures VerifiedBytes(samples) == OkStreams(samples) * body
  {
    if samples != [] {
      var n := |samples| - 1;
      VerifiedBytesAre(samples[..n], body);
      OneMore(OkStreams(samples[..n]), body);
    }
  }

  /** Recorded delivery samples never exceed the deliveries. */
  lemma {:induction false} RecordedWithin(observations: seq<Observations>)
    requires forall i :: 0 <= i < |observations| ==> |observations[i].deliverySamples| <= observations[i].chunksRead
    ensures Recorded(observations) <= Sum(Field(observations, Chunks))
  {
    if observations != [] {
      var n := |observations| - 1;
      RecordedWithin(observations[..n]);
      assert Field(observations, Chunks)[..n] == Field(observations[..n], Chunks);
      assert Field(observations, Chunks)[n] == Chunks(observations[n]);
    }
  }

  lemma SampleAccounts<D>(
    m: Measurement, w: World, config: Config, window: bool, sha: Bytes -> D, body: nat, expected: D, i: nat)
    requires Measures(m, w, config, window, sha, body, expected) && WorldOk(config, body, w) && i < |w.streams|
    ensures m.samples[i].stream == i + 1
    ensures m.samples[i].verifiedBytes == if m.samples[i].error.None? then body else 0
    ensures |m.observations[i].deliverySamples| <= m.observations[i].chunksRead
  {
    FailureIff(sha, w.streams[i], body, expected);
    OkIsFaithful(config, body, w.streams[i]);
  }

  /** Totals that agree with each other and with what was observed in all. */
  ghost predicate Balanced(batch: Batch, body: nat, observed: nat, chunks: nat) {
    && batch.okStreams + |batch.errors| == batch.requests == |batch.samples|
    && (forall n :: n in batch.errors <==> 1 <= n <= |batch.samples| && batch.samples[n - 1].error.Some?)
    && batch.verifiedSuccessBytes == batch.okStreams * body
    && batch.totalObservedBytes == observed
    && batch.verifiedSuccessBytes + batch.failedObservedBytes == observed
    && batch.chunksReadTotal == chunks
    && batch.recordedDeliveries + batch.droppedDeliveries == chunks && batch.droppedDeliveries >= 0
  }

  lemma BooksBalance(m: Measurement, config: Config, concurrency: nat, rounds: int, window: bool, body: nat)
    requires InOrder(m.samples) && concurrency > 0
    requires forall i :: 0 <= i < |m.samples| ==>
      m.samples[i].verifiedBytes == if m.samples[i].error.None? then body else 0
    requires forall i :: 0 <= i < |m.observations| ==>
      |m.observations[i].deliverySamples| <= m.observations[i].chunksRead
    ensures Balanced(RecordOf(m, config, concurrency, rounds, window), body,
                     Sum(Field(m.observations, AttributionOverhead.Bytes)), Sum(Field(m.observations, Chunks)))
  {
    OkIffNoneFailed(m.samples);
    FailedListed(m.samples);
    VerifiedBytesAre(m.samples, body);
    RecordedWithin(m.observations);
  }

  // ---------------------------------------------------------------- diagnostic records

  /** Every stream's trace has at most one record per chunk, and none without diagnostics. */
  ghost predicate TracesWithin(observations: seq<Observations>, diagnostic: bool) {
    forall i :: 0 <= i < |observations| ==>
      |observations[i].trace| <= if diagnostic then observations[i].chunksRead else 0
  }

  lemma {:induction false} TracedWithin(observations: seq<Observations>, diagnostic: bool)
    requires TracesWithin(observations, diagnostic)
    ensures TraceRecords(observations) <= if diagnostic then Sum(Field(observations, Chunks)) else 0
  {
    if observations != [] {
      var n := |observations| - 1;
      TracedWithin(observations[..n], diagnostic);
      assert Field(observations, Chunks)[..n] == Field(observations[..n], Chunks);
      assert Field(observations, Chunks)[n] == Chunks(observations[n]);
    }
  }

  lemma {:induction false} RecordsAdd(observations: seq<Observations>, streams: seq<Stream>)
    requires |observations| == |streams|
    requires forall i :: 0 <= i < |observations| ==> observations[i] == streams[i].observations
    ensures Recorded(observations) + TraceRecords(observations) == SumOver(streams, RecordsOf)
  {
    if observations != [] {
      var n := |observations| - 1;
      RecordsAdd(observations[..n], streams[..n]);
      assert Each(streams, RecordsOf)[..n] == Each(streams[..n], RecordsOf);
      assert Each(streams, RecordsOf)[n] == RecordsOf(streams[n]);
    }
  }

  lemma StreamTraces(config: Config, body: nat, s: Stream)
    requires StreamOk(config, body, s)
    ensures |s.observations.trace| <= if config.diagnostic then s.observations.chunksRead else 0
  {
  }

  /**
   Deliveries and diagnostic records together are exactly what the shared budget was charged, within its cap; with
   diagnostics every chunk has a trace record or counts as dropped, without there are none of either.
   */
  lemma RecordsCharged<D>(
    m: Measurement, w: World, config: Config, window: bool, sha: Bytes -> D, body: nat, expected: D,
    concurrency: nat, rounds: int)
    requires Measures(m, w, config, window, sha, body, expected) && WorldOk(config, body, w) && concurrency > 0
    ensures var batch := RecordOf(m, config, concurrency, rounds, window);
      && batch.recordedDeliveries + batch.recordedTraces == w.budget.records <= w.budget.recordCap
      && batch.recordedTraces + batch.droppedTraces
         == (if config.diagnostic then SumOver(w.streams, ChunksOf) else 0)
      && batch.droppedTraces >= 0
  {
    forall i | 0 <= i < |m.observations|
      ensures |m.observations[i].trace| <= if config.diagnostic then m.observations[i].chunksRead else 0
    {
      StreamTraces(config, body, w.streams[i]);
    }
    TracedWithin(m.observations, config.diagnostic);
    RecordsAdd(m.observations, w.streams);
    FieldsAgree(m.observations, w.streams);
  }

  // ---------------------------------------------------------------- balance

  /**
   The totals of a record are those of its streams: verified bytes are the body times the verified streams, every
   stream is either verified or listed as failed, and every delivery is either recorded or counted as dropped.
   */
  lemma RecordAccounts<D>(
    m: Measurement, w: World, config: Config, window: bool, sha: Bytes -> D, body: nat, expected: D,
    concurrency: nat, rounds: int)
    requires Measures(m, w, config, window, sha, body, expected) && WorldOk(config, body, w) && concurrency > 0
    ensures Balanced(RecordOf(m, config, concurrency, rounds, window), body,
                     SumOver(w.streams, BytesOf), SumOver(w.streams, ChunksOf))
  {
    SamplesAccount(m, w, config, window, sha, body, expected);
    FieldsAgree(m.observations, w.streams);
    BooksBalance(m, config, concurrency, rounds, window, body);
  }

  lemma SamplesAccount<D>(
    m: Measurement, w: World, config: Config, window: bool, sha: Bytes -> D, body: nat, expected: D)
    requires Measures(m, w, config, window, sha, body, expected) && WorldOk(config, body, w)
    ensures InOrder(m.samples)
    ensures forall i :: 0 <= i < |m.samples| ==>
      m.samples[i].verifiedBytes == if m.samples[i].error.None? then body else 0
    ensures forall i :: 0 <= i < |m.observations| ==>
      |m.observations[i].deliverySamples| <= m.observations[i].chunksRead
  {
    forall i | 0 <= i < |w.streams|
      ensures m.samples[i].stream == i + 1
      ensures m.samples[i].verifiedBytes == if m.samples[i].error.None? then body else 0
      ensures |m.observations[i].deliverySamples| <= m.observations[i].chunksRead
    {
      SampleAccounts(m, w, config, window, sha, body, expected, i);
    }
  }

  // ---------------------------------------------------------------- workload

  /** Any batch of whole rounds passes the workload check exactly when every stream was verified. */
  lemma WorkloadAccepted<D>(
    m: Measurement, w: World, config: Config, window: bool, sha: Bytes -> D, body: nat, expected: D,
    concurrency: nat, rounds: int, done: nat)
    requires Measures(m, w, config, window, sha, body, expected)
    requires concurrency > 0 && |w.streams| == done * concurrency
    ensures var batch := RecordOf(m, config, concurrency, rounds, window);
      && batch.rounds == done
      && (BatchWorkloadMatches(batch, done, concurrency) <==> Verified(w, sha, body, expected))
  {
    ProductQuotient(done, concurrency);
    OkIffNoneFailed(m.samples);
    ErrorsAreFailures(m, w, config, window, sha, body, expected);
  }

  /** The load ended with a round boundary that met the stop condition, or after every prepared round. */
  ghost predicate Ended(m: Measurement, config: Config, rounds: int, limit: nat, done: nat) {
    && done <= limit
    && (done < limit ==> done >= rounds && Seconds(m.finishedNs - m.startedNs) >= config.minimumDurationS)
  }

  /** A timed window always matches its declared workload; in particular a missed target used up every round. */
  lemma WindowWorkloadAccepted<D>(
    m: Measurement, w: World, config: Config, sha: Bytes -> D, body: nat, expected: D,
    concurrency: nat, rounds: int, done: nat)
    requires Measures(m, w, config, true, sha, body, expected)
    requires ValidRequest(config, body, concurrency, rounds, true) && WindowOf(config, 1)
    requires |w.streams| == done * concurrency
    requires Ended(m, config, rounds, config.maxWindowStreams / concurrency, done)
    ensures var batch := RecordOf(m, config, concurrency, rounds, true);
      && WindowWorkloadMatches(batch, Workload(body, rounds, config), concurrency)
      && (batch.durationS < config.minimumDurationS ==> done == config.maxWindowStreams / concurrency)
  {
    ProductQuotient(done, concurrency);
    QuotientAtLeast(rounds, concurrency, config.maxWindowStreams);
  }

  // ---------------------------------------------------------------- distribution

  lemma {:induction false} AtMostSum(xs: seq<nat>, i: nat)
    requires i < |xs|
    ensures xs[i] <= Sum(xs)
  {
    if i < |xs| - 1 { AtMostSum(xs[..|xs| - 1], i); }
  }

  ghost predicate NoneExceeds(w: World, body: nat) {
    forall i :: 0 <= i < |w.streams| ==> w.streams[i].observations.bytesRead <= body
  }

  lemma ArrivalWithinBody(s: Stream, k: nat, body: nat)
    requires Tallied(s) && k < |s.arrivals|
    ensures 0 < s.arrivals[k].size <= s.observations.bytesRead
  {
    AtMostSum(SizesOf(s.arrivals), k);
  }

  lemma SizeWithinBody(config: Config, body: nat, w: World, size: nat)
    requires WorldOk(config, body, w) && Arose(w, size)
    ensures size > 0 && (NoneExceeds(w, body) ==> size <= body)
  {
    var i, k :| 0 <= i < |w.streams| && 0 <= k < |w.streams[i].arrivals| && w.streams[i].arrivals[k].size == size;
    assert StreamOk(config, body, w.streams[i]);
    ArrivalWithinBody(w.streams[i], k, body);
  }

  /** An exact histogram holds only sizes that occurred. */
  lemma CountedOnly(h: map<nat, nat>, sizes: seq<nat>)
    requires Exact(h, sizes)
    ensures forall s :: s in h ==> s in sizes && h[s] > 0
  {
    forall s | s in h ensures s in sizes {
      CountPositive(sizes, s);
    }
  }

  /** Every size in the window's histogram is a positive size some stream received, hence at most the body. */
  lemma SizesWithinBody(config: Config, body: nat, w: World)
    requires WorldOk(config, body, w) && AllArose(w) && w.budget.globalHistogram.Some?
    ensures Positive(w.budget.globalHistogram.value)
    ensures NoneExceeds(w, body) ==> forall s :: s in w.budget.globalHistogram.value ==> s <= body
  {
    var h := w.budget.globalHistogram.value;
    CountedOnly(h, w.sizes);
    forall s | s in h ensures s > 0 && (NoneExceeds(w, body) ==> s <= body) {
      SizeWithinBody(config, body, w, s);
    }
  }

  /** One verified stream fits the window it was part of. */
  lemma SampleFits<D>(
    sample: Sample, index: int, config: Config, w: World, i: nat, sha: Bytes -> D, body: nat, expected: D)
    requires WorldOk(config, body, w) && w.budget.globalHistogram.Some? && i < |w.streams| && body > 0
    requires Finalized(sample, index, sha, w.streams[i], w.budget, config.histogramBinsCap, body, expected)
    requires Intact(sha, w.streams[i], body, expected) && Covers(w.budget.globalHistogram.value, w.sizes)
    ensures SampleInWindow(sample, w.budget.globalHistogram.value, body)
  {
    var s, h := w.streams[i], w.budget.globalHistogram.value;
    var o, sizes := s.observations, SizesOf(s.arrivals);
    assert StreamOk(config, body, s) && LocalHistogram(config, w.budget, s);
    assert sample.distribution.histogram == [];
    assert s.arrivals != [];
    var low :| 0 <= low < |sizes| && sizes[low] == o.minBytes.value;
    var high :| 0 <= high < |sizes| && sizes[high] == o.maxBytes.value;
    assert s.arrivals[low].size in w.sizes && s.arrivals[high].size in w.sizes;
    assert o.minBytes.value in h && o.maxBytes.value in h;
    AtMostSum(sizes, high);
    SumBetween(sizes, o.minBytes.value, o.maxBytes.value);
    AtLeastOnce(o.minBytes.value, o.chunksRead);
  }

  lemma AtLeastOnce(a: nat, n: nat)
    requires a >= 1
    ensures a * n >= n
  {
  }

  lemma VerifiedBytesTotal<D>(w: World, sha: Bytes -> D, body: nat, expected: D)
    requires Verified(w, sha, body, expected)
    ensures SumOver(w.streams, BytesOf) == body * |w.streams|
  {
    forall i | 0 <= i < |w.streams| ensures Each(w.streams, BytesOf)[i] == body {
      assert Intact(sha, w.streams[i], body, expected);
      assert Each(w.streams, BytesOf)[i] == BytesOf(w.streams[i]);
    }
    SumConstant(Each(w.streams, BytesOf), body);
    assert |w.streams| * body == body * |w.streams|;
  }

  /** The distribution check passes when all streams are verified, nothing was dropped and the replay succeeded. */
  lemma DistributionAccepted<D>(
    m: Measurement, w: World, config: Config, sha: Bytes -> D, body: nat, expected: D, concurrency: nat, rounds: int)
    requires Measures(m, w, config, true, sha, body, expected) && WorldOk(config, body, w) && AllArose(w)
    requires ValidConfig(config) && 0 < body && concurrency > 0 && w.streams != []
    requires w.budget.histogramBinsCap == config.histogramBinsCap
    requires Verified(w, sha, body, expected) && w.budget.globalHistogramComplete && m.overhead.ok
    ensures DistributionAdmitted(RecordOf(m, config, concurrency, rounds, true), Workload(body, rounds, config))
  {
    var h := w.budget.globalHistogram.value;
    FieldsAgree(m.observations, w.streams);
    ChunksReadIs(m.samples, m.observations);
    VerifiedHistogram(w, config, sha, body, expected);
    ListedReads(m.globalBins, h);
    SamplesFit(m, w, config, sha, body, expected);
    FitsAsRecorded(m, h, config, body, concurrency, rounds);
  }

  /** The parts of an admitted distribution, read off a measurement. */
  lemma FitsAsRecorded(m: Measurement, h: map<nat, nat>, config: Config, body: nat, concurrency: nat, rounds: int)
    requires 1 <= config.histogramBinsCap <= MAX_HISTOGRAM_BINS && |h| <= config.histogramBinsCap
    requires concurrency > 0 && m.samples != [] && HistogramOf(m.globalBins) == Some(h) && m.globalComplete
    requires (forall s :: s in h ==> s <= body) && BytesIn(h) == body * |m.samples|
    requires Total(h) == ChunksRead(m.samples) == Sum(Field(m.observations, Chunks))
    requires BytesIn(h) == Sum(Field(m.observations, AttributionOverhead.Bytes))
    requires forall i :: 0 <= i < |m.samples| ==> SampleInWindow(m.samples[i], h, body)
    requires ReplayAdmitted(m.overhead, h, config)
    ensures DistributionAdmitted(RecordOf(m, config, concurrency, rounds, true), Workload(body, rounds, config))
  {
  }

  /** The complete histogram of verified streams covers their bodies and nothing larger. */
  lemma VerifiedHistogram<D>(w: World, config: Config, sha: Bytes -> D, body: nat, expected: D)
    requires WorldOk(config, body, w) && AllArose(w) && w.budget.globalHistogram.Some?
    requires 0 < body && w.streams != [] && Verified(w, sha, body, expected) && w.budget.globalHistogramComplete
    ensures var h := w.budget.globalHistogram.value;
      && h != map[] && Positive(h) && (forall s :: s in h ==> s <= body) && Covers(h, w.sizes)
      && |h| <= w.budget.histogramBinsCap
      && Total(h) == SumOver(w.streams, ChunksOf) && BytesIn(h) == SumOver(w.streams, BytesOf) == body * |w.streams|
  {
    var h := w.budget.globalHistogram.value;
    CompleteIffTotal(h, w.sizes);
    VerifiedBytesTotal(w, sha, body, expected);
    forall i | 0 <= i < |w.streams| ensures w.streams[i].observations.bytesRead <= body {
      assert Intact(sha, w.streams[i], body, expected);
    }
    SizesWithinBody(config, body, w);
    EmptyTotals();
    AtLeastOnce(body, |w.streams|);
  }

  lemma SamplesFit<D>(m: Measurement, w: World, config: Config, sha: Bytes -> D, body: nat, expected: D)
    requires Measures(m, w, config, true, sha, body, expected) && WorldOk(config, body, w) && 0 < body
    requires Verified(w, sha, body, expected) && Covers(w.budget.globalHistogram.value, w.sizes)
    ensures forall i :: 0 <= i < |m.samples| ==> SampleInWindow(m.samples[i], w.budget.globalHistogram.value, body)
  {
    forall i | 0 <= i < |m.samples| ensures SampleInWindow(m.samples[i], w.budget.globalHistogram.value, body) {
      assert Intact(sha, w.streams[i], body, expected);
      SampleFits(m.samples[i], i + 1, config, w, i, sha, body, expected);
    }
  }

  /** Conversely an admitted distribution has a complete histogram and a successful replay. */
  lemma DistributionNeeds<D>(
    m: Measurement, w: World, config: Config, sha: Bytes -> D, body: nat, expected: D, concurrency: nat, rounds: int)
    requires Measures(m, w, config, true, sha, body, expected) && concurrency > 0
    requires DistributionAdmitted(RecordOf(m, config, concurrency, rounds, true), Workload(body, rounds, config))
    ensures w.budget.globalHistogramComplete && m.overhead.ok
  {
  }

  /**
   Producer and checks agree: the workload and distribution checks together accept a timed batch if and only if
   every stream was verified, the window's histogram is complete and the replay succeeded.
   */
  lemma WindowAcceptedIff<D>(
    m: Measurement, w: World, config: Config, sha: Bytes -> D, body: nat, expected: D,
    concurrency: nat, rounds: int, done: nat)
    requires Measures(m, w, config, true, sha, body, expected) && WorldOk(config, body, w) && AllArose(w)
    requires ValidConfig(config) && 0 < body && concurrency > 0 && w.streams != []
    requires w.budget.histogramBinsCap == config.histogramBinsCap
    requires |w.streams| == done * concurrency
    ensures var batch := RecordOf(m, config, concurrency, rounds, true);
      BatchWorkloadMatches(batch, done, concurrency) && DistributionAdmitted(batch, Workload(body, rounds, config))
      <==> Verified(w, sha, body, expected) && w.budget.globalHistogramComplete && m.overhead.ok
  {
    var batch := RecordOf(m, config, concurrency, rounds, true);
    WorkloadAccepted(m, w, config, true, sha, body, expected, concurrency, rounds, done);
    if DistributionAdmitted(batch, Workload(body, rounds, config)) {
      DistributionNeeds(m, w, config, sha, body, expected, concurrency, rounds);
    } else if Verified(w, sha, body, expected) && w.budget.globalHistogramComplete && m.overhead.ok {
      DistributionAccepted(m, w, config, sha, body, expected, concurrency, rounds);
    }
  }

  /** The timing check passes exactly when the clock moved during the load, so whenever a target was reached. */
  lemma TimingAcceptedIff<D>(
    m: Measurement, w: World, config: Config, window: bool, sha: Bytes -> D, body: nat, expected: D,
    concurrency: nat, rounds: int)
    requires Measures(m, w, config, window, sha, body, expected) && concurrency > 0
    ensures var batch := RecordOf(m, config, concurrency, rounds, window);
      && (BatchTimingMatches(batch) <==> m.startedNs < m.finishedNs)
      && (config.minimumDurationS > 0.0 && batch.durationS >= config.minimumDurationS ==> BatchTimingMatches(batch))
  {
    Reflexive(Seconds(m.finishedNs - m.startedNs));
  }

  /** Any measurement, had the clock stood still during its load, would be as consistent, and be refused. */
  lemma StoppedClockRefused<D>(
    m: Measurement, w: World, config: Config, window: bool, sha: Bytes -> D, body: nat, expected: D,
    concurrency: nat, rounds: int)
    requires Measures(m, w, config, window, sha, body, expected) && concurrency > 0
    ensures var stopped := m.(finishedNs := m.startedNs);
      && Measures(stopped, w, config, window, sha, body, expected)
      && !BatchTimingMatches(RecordOf(stopped, config, concurrency, rounds, window))
  {
    var stopped := m.(finishedNs := m.startedNs);
    StillMeasures(m, w, config, window, sha, body, expected);
    TimingAcceptedIff(stopped, w, config, window, sha, body, expected, concurrency, rounds);
  }

  lemma StillMeasures<D>(
    m: Measurement, w: World, config: Config, window: bool, sha: Bytes -> D, body: nat, expected: D)
    requires Measures(m, w, config, window, sha, body, expected)
    ensures Measures(m.(finishedNs := m.startedNs), w, config, window, sha, body, expected)
  {
    var stopped := m.(finishedNs := m.startedNs);
    assert stopped.samples == m.samples && stopped.observations == m.observations;
  }

  /** A batch of no rounds, all of it read off the clock at time zero. */
  function Instant(clientPid: int, serverPid: int): Measurement {
    var client := CpuSnapshot(clientPid, 0, 0.0, 0.0, None, 0);
    var server := CpuSnapshot(serverPid, 0, 0.0, 0.0, None, 0);
    Measurement([], [], [], true, 0, 0, 0, client, client, server, server,
                UNAVAILABLE.(complete := true, reason := Some(NothingDelivered)))
  }

  /** ... is such a measurement. */
  lemma InstantRefused<D>(
    config: Config, sha: Bytes -> D, body: nat, expected: D, clientPid: int, serverPid: int, concurrency: nat)
    requires concurrency > 0
    ensures Measures(Instant(clientPid, serverPid), StartOf(config, false), config, false, sha, body, expected)
    ensures !BatchTimingMatches(RecordOf(Instant(clientPid, serverPid), config, concurrency, 0, false))
  {
    TimingAcceptedIff(Instant(clientPid, serverPid), StartOf(config, false), config, false, sha, body, expected,
                      concurrency, 0);
  }

  // ---------------------------------------------------------------- fixed-round batches

  /** The saved bins of one stream cover its whole body. */
  predicate HistogramMatches(bins: seq<Bin>, chunksRead: int, body: int) {
    && bins != []
    && (forall i :: 0 <= i < |bins| ==> bins[i].sizeBytes > 0 && bins[i].count > 0)
    && BinChunks(bins) == chunksRead
    && BinBytes(bins) == body
  }

  function BinChunks(bins: seq<Bin>): int {
    if bins == [] then 0 else BinChunks(bins[..|bins| - 1]) + bins[|bins| - 1].count
  }

  function BinBytes(bins: seq<Bin>): int {
    if bins == [] then 0
    else BinBytes(bins[..|bins| - 1]) + bins[|bins| - 1].sizeBytes * bins[|bins| - 1].count
  }

  /** Summing a usable list of bins sums the histogram it stands for. */
  lemma {:induction false} BinSums(bins: seq<Bin>)
    requires Parsed(bins).Some?
    ensures BinChunks(bins) == Total(Parsed(bins).value) && BinBytes(bins) == BytesIn(Parsed(bins).value)
  {
    if bins == [] {
      EmptyTotals();
    } else {
      var init, last := bins[..|bins| - 1], bins[|bins| - 1];
      BinSums(init);
      var size: nat, count: nat := last.sizeBytes, last.count;
      TotalUpdate(Parsed(init).value, size, count);
      BytesUpdate(Parsed(init).value, size, count);
    }
  }

  /** Without a window, a verified stream's own histogram passes its check exactly when it is complete. */
  lemma OwnHistogramMatchesIff<D>(
    sample: Sample, index: int, config: Config, w: World, i: nat, sha: Bytes -> D, body: nat, expected: D)
    requires WorldOk(config, body, w) && w.budget.globalHistogram.None? && i < |w.streams| && body > 0
    requires Finalized(sample, index, sha, w.streams[i], w.budget, config.histogramBinsCap, body, expected)
    requires Intact(sha, w.streams[i], body, expected)
    ensures HistogramMatches(sample.distribution.histogram, sample.chunksRead, body) <==> sample.distribution.complete
  {
    var s := w.streams[i];
    assert StreamOk(config, body, s) && LocalHistogram(config, w.budget, s);
    assert s.observations.bytesRead == body;
    OwnHistogramSums(s.observations.histogram, SizesOf(s.arrivals), sample.distribution.histogram, body);
  }

  lemma OwnHistogramSums(h: map<nat, nat>, sizes: seq<nat>, bins: seq<Bin>, body: nat)
    requires Exact(h, sizes) && Lists(bins, h) && Sum(sizes) == body > 0
    requires forall k :: 0 <= k < |sizes| ==> sizes[k] > 0
    ensures HistogramMatches(bins, |sizes|, body) <==> Covers(h, sizes)
  {
    CompleteIffTotal(h, sizes);
    assert sizes != [];
    forall size | size in h ensures size > 0 && h[size] > 0 {
      CountPositive(sizes, size);
    }
    if h == map[] {
      assert bins == [] && sizes[0] !in h;
    } else {
      ListedReads(bins, h);
      BinSums(bins);
    }
  }

  lemma OwnTotals(config: Config, body: nat, w: World, i: nat)
    requires WorldOk(config, body, w) && w.budget.globalHistogram.None? && i < |w.streams|
    requires w.streams[i].observations.histogramComplete
    ensures Total(w.streams[i].observations.histogram) == w.streams[i].observations.chunksRead
    ensures BytesIn(w.streams[i].observations.histogram) == w.streams[i].observations.bytesRead
  {
    var s := w.streams[i];
    assert StreamOk(config, body, s) && LocalHistogram(config, w.budget, s);
    CompleteIffTotal(s.observations.histogram, SizesOf(s.arrivals));
  }

  /** Complete streams' own histograms, merged without loss, cover every byte and chunk of the batch. */
  lemma MergedTotals(config: Config, body: nat, w: World, observations: seq<Observations>)
    requires WorldOk(config, body, w) && w.budget.globalHistogram.None? && |observations| == |w.streams|
    requires forall i :: 0 <= i < |w.streams| ==>
      observations[i] == w.streams[i].observations && observations[i].histogramComplete
    ensures Total(AddAll(HistogramsOf(observations))) == Sum(Field(observations, Chunks))
    ensures BytesIn(AddAll(HistogramsOf(observations))) == Sum(Field(observations, AttributionOverhead.Bytes))
  {
    var hs := HistogramsOf(observations);
    forall i | 0 <= i < |hs|
      ensures Total(hs[i]) == observations[i].chunksRead && BytesIn(hs[i]) == observations[i].bytesRead
    {
      OwnTotals(config, body, w, i);
    }
    PartsAddUp(hs, observations);
  }

  lemma PartsAddUp(hs: seq<map<nat, nat>>, observations: seq<Observations>)
    requires |hs| == |observations|
    requires forall i :: 0 <= i < |hs| ==>
      Total(hs[i]) == observations[i].chunksRead && BytesIn(hs[i]) == observations[i].bytesRead
    ensures Total(AddAll(hs)) == Sum(Field(observations, Chunks))
    ensures BytesIn(AddAll(hs)) == Sum(Field(observations, AttributionOverhead.Bytes))
  {
    ChunksAddUp(hs, observations);
    BytesAddUp(hs, observations);
  }

  lemma ChunksAddUp(hs: seq<map<nat, nat>>, observations: seq<Observations>)
    requires |hs| == |observations| && forall i :: 0 <= i < |hs| ==> Total(hs[i]) == observations[i].chunksRead
    ensures Total(AddAll(hs)) == Sum(Field(observations, Chunks))
  {
    TotalAddAll(hs);
    var totals := seq(|hs|, i requires 0 <= i < |hs| => Total(hs[i]));
    forall i | 0 <= i < |hs| ensures totals[i] == Field(observations, Chunks)[i] {
      assert Field(observations, Chunks)[i] == Chunks(observations[i]);
    }
    assert totals == Field(observations, Chunks);
  }

  lemma BytesAddUp(hs: seq<map<nat, nat>>, observations: seq<Observations>)
    requires |hs| == |observations| && forall i :: 0 <= i < |hs| ==> BytesIn(hs[i]) == observations[i].bytesRead
    ensures BytesIn(AddAll(hs)) == Sum(Field(observations, AttributionOverhead.Bytes))
  {
    BytesAddAll(hs);
    var totals := seq(|hs|, i requires 0 <= i < |hs| => BytesIn(hs[i]));
    forall i | 0 <= i < |hs| ensures totals[i] == Field(observations, AttributionOverhead.Bytes)[i] {
      assert Field(observations, AttributionOverhead.Bytes)[i] == AttributionOverhead.Bytes(observations[i]);
    }
    assert totals == Field(observations, AttributionOverhead.Bytes);
  }

  /**
   A complete histogram made from a run always covers every observed byte and chunk, so a replay never fails for
   that reason, with or without a window.
   */
  lemma CoverageNeverFails(
    config: Config, body: nat, window: bool, w: World, observations: seq<Observations>, h: map<nat, nat>,
    complete: bool)
    requires WorldOk(config, body, w) && w.budget.globalHistogram.Some? == window
    requires |observations| == |w.streams|
    requires forall i :: 0 <= i < |w.streams| ==> observations[i] == w.streams[i].observations
    requires if window then h == w.budget.globalHistogram.value && complete == w.budget.globalHistogramComplete
             else complete ==> h == AddAll(HistogramsOf(observations))
                               && forall i :: 0 <= i < |observations| ==> observations[i].histogramComplete
    ensures FailureReason(h, complete, Sum(Field(observations, AttributionOverhead.Bytes)),
                          Sum(Field(observations, Chunks)), config, window) != Some(NotCovered)
  {
    if complete {
      if window {
        SharedTotals(config, body, w, observations);
      } else {
        MergedTotals(config, body, w, observations);
      }
      CoveredIsCovered(h, Sum(Field(observations, AttributionOverhead.Bytes)), Sum(Field(observations, Chunks)), config,
                       window);
    }
  }

  lemma SharedTotals(config: Config, body: nat, w: World, observations: seq<Observations>)
    requires WorldOk(config, body, w) && w.budget.globalHistogram.Some? && w.budget.globalHistogramComplete
    requires |observations| == |w.streams|
    requires forall i :: 0 <= i < |w.streams| ==> observations[i] == w.streams[i].observations
    ensures Total(w.budget.globalHistogram.value) == Sum(Field(observations, Chunks))
    ensures BytesIn(w.budget.globalHistogram.value) == Sum(Field(observations, AttributionOverhead.Bytes))
  {
    FieldsAgree(observations, w.streams);
    CompleteIffTotal(w.budget.globalHistogram.value, w.sizes);
  }

  lemma CoveredIsCovered(h: map<nat, nat>, bytes: nat, chunks: nat, config: Config, window: bool)
    requires Total(h) == chunks && BytesIn(h) == bytes
    ensures FailureReason(h, true, bytes, chunks, config, window) != Some(NotCovered)
  {
    EmptyTotals();
  }

  // ---------------------------------------------------------------- when the replay succeeds

  /**
   A complete window that saw a chunk is replayed whenever no chunk is beyond the replay limit and the segment bound
   is at most 64, verified streams or not.
   */
  lemma ReplaySucceeds<D>(
    m: Measurement, w: World, config: Config, sha: Bytes -> D, body: nat, expected: D)
    requires Measures(m, w, config, true, sha, body, expected) && WorldOk(config, body, w)
    requires ReplayBounded(m, w, config)
    requires w.budget.globalHistogramComplete && FewSegments(w.budget.globalHistogram.value, config)
    requires SumOver(w.streams, ChunksOf) > 0
    ensures m.overhead.ok
  {
    var h := w.budget.globalHistogram.value;
    var bytes, chunks := Sum(Field(m.observations, AttributionOverhead.Bytes)), Sum(Field(m.observations, Chunks));
    FieldsAgree(m.observations, w.streams);
    CoverageNeverFails(config, body, true, w, m.observations, h, true);
    FailureReasonIff(h, true, bytes, chunks, config, true);
    var largest: nat :| FewSegmentsUpTo(h, config, largest);
  }

  /** So such a batch of verified streams is admitted: nothing about the replay is left to chance. */
  lemma BoundedReplayAdmitted<D>(
    m: Measurement, w: World, config: Config, sha: Bytes -> D, body: nat, expected: D, concurrency: nat, rounds: int)
    requires Measures(m, w, config, true, sha, body, expected) && WorldOk(config, body, w) && AllArose(w)
    requires ValidConfig(config) && 0 < body && concurrency > 0 && w.streams != []
    requires w.budget.histogramBinsCap == config.histogramBinsCap
    requires Verified(w, sha, body, expected) && w.budget.globalHistogramComplete
    requires ReplayBounded(m, w, config) && FewSegments(w.budget.globalHistogram.value, config)
    ensures m.overhead.ok
    ensures DistributionAdmitted(RecordOf(m, config, concurrency, rounds, true), Workload(body, rounds, config))
  {
    VerifiedHistogram(w, config, sha, body, expected);
    EmptyTotals();
    NothingWeighsNothing(w.budget.globalHistogram.value);
    ReplaySucceeds(m, w, config, sha, body, expected);
    DistributionAccepted(m, w, config, sha, body, expected, concurrency, rounds);
  }

  /** A histogram with an entry counts at least one chunk. */
  lemma NothingWeighsNothing(h: map<nat, nat>)
    requires Positive(h) && h != map[]
    ensures Total(h) > 0
  {
    var s :| s in h;
    TotalAtLeast(h, s);
  }
}
