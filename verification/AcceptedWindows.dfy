/** What a saved batch that passes the later checks is known to say, whoever wrote it. */
module AcceptedWindows {
  import opened Common
  import opened MapSums
  import opened Histograms
  import opened Clocks
  import opened AttributionConsume
  import opened AttributionWindow

  // ---------------------------------------------------------------- workload

  /**
   A batch accepted with its own round count ran whole rounds of verified streams within the declared limits, and its
   stop reason is the true one: the duration if it reached the target, otherwise that not one more round fits.
   */
  lemma WorkloadTells(batch: Batch, declared: Workload, concurrency: int)
    requires concurrency > 0 && WindowWorkloadMatches(batch, declared, concurrency)
    requires BatchWorkloadMatches(batch, batch.rounds, concurrency)
    ensures var limit, w := declared.attribution.maxWindowStreams, batch.window.value;
      && declared.roundsPerBatch <= batch.rounds
      && |batch.samples| == batch.okStreams == batch.requests == batch.rounds * concurrency <= limit
      && batch.errors == [] && (forall i :: 0 <= i < |batch.samples| ==> batch.samples[i].stream == i + 1)
      && (w.targetReached <==> batch.durationS >= declared.attribution.minimumDurationS)
      && (w.durationReached <==> w.targetReached)
      && (!w.durationReached ==> (batch.rounds + 1) * concurrency > limit)
      && 1.0 <= declared.attribution.minimumDurationS <= MAX_WINDOW_DURATION_S
      && MIN_WINDOW_STREAMS <= limit <= MAX_WINDOW_STREAMS
      && w.minimumDurationS == declared.attribution.minimumDurationS && w.maxStreams == limit
      && w.minimumRounds == declared.roundsPerBatch
  {
    WholeRounds(batch.rounds, declared.attribution.maxWindowStreams, concurrency);
  }

  lemma WholeRounds(rounds: int, limit: int, concurrency: int)
    requires concurrency > 0 && rounds <= limit / concurrency
    ensures rounds * concurrency <= limit
    ensures rounds == limit / concurrency ==> (rounds + 1) * concurrency > limit
  {
    var q := limit / concurrency;
    assert limit == q * concurrency + limit % concurrency;
    assert (q - rounds) * concurrency >= 0;
    assert (q - rounds) * concurrency == q * concurrency - rounds * concurrency;
    assert (rounds + 1) * concurrency == rounds * concurrency + concurrency;
  }

  // ---------------------------------------------------------------- timing

  /** Equal up to a trillionth, of the larger number where that is more than one. */
  lemma CloseIff(a: real, b: real)
    ensures IsClose(a, b) <==>
      var scale := Larger(1.0, Larger(Abs(a), Abs(b)));
      -scale <= (a - b) * 1000000000000.0 <= scale
    ensures IsClose(a, b) <==> IsClose(b, a)
    ensures IsClose(a, a)
  {
  }

  /** The load lies between the probes of both processes, and the overhang is the time outside it. */
  lemma TimingTells(batch: Batch)
    requires BatchTimingMatches(batch)
    ensures var start, finish := batch.timing.loadStartedNs, batch.timing.loadFinishedNs;
      && start < finish && IsClose(batch.durationS, Seconds(finish - start))
      && forall cpu :: cpu in {batch.clientCpu, batch.serverCpu} ==>
           && cpu.before.probeFinishedNs <= start && finish <= cpu.after.probeStartedNs
           && cpu.before.pid == cpu.after.pid == cpu.pid
           && cpu.loadBoundaryOverhangNs >= 0
           && cpu.after.probeFinishedNs - cpu.before.probeStartedNs == finish - start + cpu.loadBoundaryOverhangNs
  {
  }

  // ---------------------------------------------------------------- distribution and replay

  function SegmentBytes(segments: seq<Segment>): int {
    if segments == [] then 0 else SegmentBytes(segments[..|segments| - 1]) + segments[|segments| - 1].replayBytes
  }

  function SegmentChunks(segments: seq<Segment>): int {
    if segments == [] then 0 else SegmentChunks(segments[..|segments| - 1]) + segments[|segments| - 1].replayChunks
  }

  ghost predicate AllMatch(segments: seq<Segment>, config: Config) {
    forall i :: 0 <= i < |segments| ==> SegmentMatches(segments[i], config)
  }

  /** What the segments replayed, one by one, is what their histograms hold together, within the limits. */
  lemma {:induction false} SegmentsAdd(segments: seq<Segment>, config: Config)
    requires AllMatch(segments, config)
    ensures SegmentBytes(segments) == BytesIn(Combined(segments)) <= |segments| * config.replayMaxBytes
    ensures SegmentChunks(segments) == Total(Combined(segments)) <= |segments| * config.replayMaxChunks
  {
    if segments != [] {
      var init, last := segments[..|segments| - 1], segments[|segments| - 1];
      SegmentsAdd(init, config);
      assert SegmentMatches(last, config);
      BytesAdd(Combined(init), HistogramOf(last.histogram).value);
      TotalAdd(Combined(init), HistogramOf(last.histogram).value);
      OneMore(|init|, config.replayMaxBytes);
      OneMore(|init|, config.replayMaxChunks);
    }
  }

  lemma OneMore(n: nat, limit: int)
    ensures (n + 1) * limit == n * limit + limit
  {
  }

  /** Some bin has the size. */
  predicate HasBin(bins: seq<Bin>, size: int) {
    exists i :: 0 <= i < |bins| && bins[i].sizeBytes == size && bins[i].count > 0
  }

  lemma {:induction false} ParsedBinned(bins: seq<Bin>, size: nat)
    requires Parsed(bins).Some?
    ensures size in Parsed(bins).value <==> HasBin(bins, size)
  {
    if bins != [] {
      var init, last := bins[..|bins| - 1], bins[|bins| - 1];
      ParsedBinned(init, size);
      assert bins == init + [last];
      if HasBin(init, size) {
        var i :| 0 <= i < |init| && init[i].sizeBytes == size && init[i].count > 0;
        assert bins[i] == init[i];
      }
      if last.sizeBytes == size { assert bins[|init|] == last; }
    }
  }

  /** The extremes of one stream occur in the window, and its chunks can have made up its body. */
  ghost predicate SampleFits(sample: Sample, bins: seq<Bin>, body: int) {
    var least, most := sample.distribution.minBytes, sample.distribution.maxBytes;
    && least.Some? && most.Some? && HasBin(bins, least.value) && HasBin(bins, most.value)
    && 1 <= least.value <= most.value <= body && 1 <= sample.chunksRead <= body
    && least.value * sample.chunksRead <= body <= most.value * sample.chunksRead
    && sample.distribution.histogram == []
  }

  /**
   Conservation in an accepted batch: the bytes its segments replayed are the bytes it reports, which are one body for
   each stream, and the chunks replayed are the chunks its streams read. All of it happened in at most 64 replays, each
   within the declared limits.
   */
  lemma DistributionTells(batch: Batch, declared: Workload)
    requires DistributionAdmitted(batch, declared)
    ensures var segments, config := batch.overhead.segments, declared.attribution;
      && |batch.samples| > 0 && 0 < |segments| <= MAX_REPLAY_SEGMENTS && AllMatch(segments, config)
      && SegmentBytes(segments) == batch.overhead.replayBytes == batch.totalObservedBytes
      && batch.totalObservedBytes == declared.bodyBytes * |batch.samples| <= |segments| * config.replayMaxBytes
      && SegmentChunks(segments) == batch.overhead.replayChunks == batch.chunksReadTotal == ChunksRead(batch.samples)
      && batch.chunksReadTotal <= |segments| * config.replayMaxChunks
  {
    SegmentsAdd(batch.overhead.segments, declared.attribution);
  }

  /** Every stream of an accepted batch fits the window's bins, of which there are no more than declared. */
  lemma SamplesTell(batch: Batch, declared: Workload)
    requires DistributionAdmitted(batch, declared)
    ensures var bins := batch.window.value.globalHistogram.histogram;
      && 1 <= |bins| <= declared.attribution.histogramBinsCap <= MAX_HISTOGRAM_BINS
      && (forall k :: 0 <= k < |bins| ==> 1 <= bins[k].sizeBytes <= declared.bodyBytes)
      && forall i :: 0 <= i < |batch.samples| ==> SampleFits(batch.samples[i], bins, declared.bodyBytes)
  {
    var bins := batch.window.value.globalHistogram.histogram;
    ParsedCounts(bins);
    forall k | 0 <= k < |bins| ensures 1 <= bins[k].sizeBytes <= declared.bodyBytes {
      BinParsed(bins, k);
    }
    forall i | 0 <= i < |batch.samples| ensures SampleFits(batch.samples[i], bins, declared.bodyBytes) {
      var d := batch.samples[i].distribution;
      assert SampleInWindow(batch.samples[i], Parsed(bins).value, declared.bodyBytes);
      ParsedBinned(bins, d.minBytes.value);
      ParsedBinned(bins, d.maxBytes.value);
    }
  }

  lemma {:induction false} BinParsed(bins: seq<Bin>, k: nat)
    requires Parsed(bins).Some? && k < |bins|
    ensures bins[k].sizeBytes >= 1 && bins[k].sizeBytes as nat in Parsed(bins).value
  {
    if k < |bins| - 1 { BinParsed(bins[..|bins| - 1], k); }
  }
}
