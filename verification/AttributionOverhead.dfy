/** The bounded offline replay of a batch's chunk sizes, and why it can be unavailable. */
module AttributionOverhead {
  import opened Common
  import opened MapSums
  import opened Histograms
  import opened AttributionConsume
  import opened AttributionReplay
  import opened AttributionWindow
  import opened Clocks

  function Field(observations: seq<Observations>, f: Observations -> nat): seq<nat> {
    seq(|observations|, i requires 0 <= i < |observations| => f(observations[i]))
  }

  function Bytes(o: Observations): nat { o.bytesRead }

  function Chunks(o: Observations): nat { o.chunksRead }

  function HistogramsOf(observations: seq<Observations>): seq<map<nat, nat>> {
    seq(|observations|, i requires 0 <= i < |observations| => observations[i].histogram)
  }

  /** `h` agrees with the unbounded sum `whole` on every size it holds, and only a full `h` lacks any. */
  ghost predicate AgreesWith(h: map<nat, nat>, whole: map<nat, nat>, cap: nat) {
    && h.Keys <= whole.Keys && (forall s :: s in h ==> h[s] == whole[s])
    && |h| <= cap && (whole.Keys <= h.Keys || |h| == cap)
  }

  /** A dropped size stays dropped, so the sizes kept are counted in every stream. */
  lemma AgreesAfter(h: map<nat, nat>, whole: map<nat, nat>, size: nat, count: nat, cap: nat)
    requires AgreesWith(h, whole, cap)
    ensures size in h || |h| < cap ==>
      && AgreesWith(Bump(h, size, count), Bump(whole, size, count), cap)
      && (Bump(whole, size, count).Keys <= Bump(h, size, count).Keys <==> whole.Keys <= h.Keys)
    ensures size !in h && |h| >= cap ==>
      AgreesWith(h, Bump(whole, size, count), cap) && !(Bump(whole, size, count).Keys <= h.Keys)
  {
    if !(whole.Keys <= h.Keys) {
      var lost :| lost in whole && lost !in h;
      if size in h {
        assert lost in Bump(whole, size, count) && lost !in Bump(h, size, count);
      }
    }
    if size !in h && |h| >= cap {
      assert size in Bump(whole, size, count);
    }
  }

  lemma AgreesWhole(h: map<nat, nat>, whole: map<nat, nat>, cap: nat)
    requires AgreesWith(h, whole, cap)
    ensures whole.Keys <= h.Keys <==> h == whole
  {
  }

  /**
   The histogram of a fixed-round batch: exact on the sizes it holds, whatever the order of the entries, and
   complete if and only if every stream's histogram is and nothing was dropped.
   */
  method ObservedHistogram(observations: seq<Observations>, cap: nat) returns (h: map<nat, nat>, complete: bool)
    ensures AgreesWith(h, AddAll(HistogramsOf(observations)), cap)
    ensures complete <==>
      && (forall i :: 0 <= i < |observations| ==> observations[i].histogramComplete)
      && h == AddAll(HistogramsOf(observations))
  {
    var hs := HistogramsOf(observations);
    var fits: bool;
    h, fits := MergeHistograms(hs, cap);
    complete := fits && forall i :: 0 <= i < |observations| ==> observations[i].histogramComplete;
    AgreesWhole(h, AddAll(hs), cap);
  }

  method MergeHistograms(hs: seq<map<nat, nat>>, cap: nat) returns (h: map<nat, nat>, fits: bool)
    ensures AgreesWith(h, AddAll(hs), cap)
    ensures fits <==> AddAll(hs).Keys <= h.Keys
  {
    h, fits := map[], true;
    ghost var whole: map<nat, nat> := map[];
    for k := 0 to |hs|
      invariant AgreesWith(h, whole, cap) && (fits <==> whole.Keys <= h.Keys)
      invariant whole == AddAll(hs[..k])
    {
      var fit: bool;
      h, fit := MergeOne(h, whole, hs[k], cap);
      if !fit { fits := false; }
      AddAllStep(hs, k);
      whole := Add(whole, hs[k]);
    }
    assert hs[..|hs|] == hs;
  }

  lemma AddAllStep(hs: seq<map<nat, nat>>, k: nat)
    requires k < |hs|
    ensures AddAll(hs[..k + 1]) == Add(AddAll(hs[..k]), hs[k])
  {
    assert hs[..k + 1][..k] == hs[..k];
  }

  /** One entry: a known size always counts, a new one while there is room. */
  method MergeEntry(before: map<nat, nat>, ghost whole: map<nat, nat>, size: nat, count: nat, cap: nat)
    returns (h: map<nat, nat>, fits: bool)
    requires AgreesWith(before, whole, cap)
    ensures AgreesWith(h, Bump(whole, size, count), cap)
    ensures fits && whole.Keys <= before.Keys <==> Bump(whole, size, count).Keys <= h.Keys
  {
    AgreesAfter(before, whole, size, count, cap);
    fits := size in before || |before| < cap;
    h := if fits then Bump(before, size, count) else before;
  }

  /** One stream's entries, in any order. */
  method MergeOne(before: map<nat, nat>, ghost whole: map<nat, nat>, entries: map<nat, nat>, cap: nat)
    returns (h: map<nat, nat>, fits: bool)
    requires AgreesWith(before, whole, cap)
    ensures AgreesWith(h, Add(whole, entries), cap)
    ensures fits && whole.Keys <= before.Keys <==> Add(whole, entries).Keys <= h.Keys
  {
    h, fits := before, true;
    var rest := entries;
    ghost var sum := whole;
    while rest != map[]
      invariant AgreesWith(h, sum, cap)
      invariant Add(sum, rest) == Add(whole, entries)
      invariant fits && whole.Keys <= before.Keys <==> sum.Keys <= h.Keys
      decreases |rest|
    {
      var s: nat :| s in rest;
      MoveEntry(sum, rest, s);
      assert (rest - {s}).Keys == rest.Keys - {s};
      var fit: bool;
      h, fit := MergeEntry(h, sum, s, rest[s], cap);
      if !fit { fits := false; }
      sum := Bump(sum, s, rest[s]);
      rest := rest - {s};
    }
    AddNothing(sum);
  }

  ghost function FailureReason(
    h: map<nat, nat>, complete: bool, bytes: nat, chunks: nat, config: Config, window: bool): Option<Reason>
  {
    if !complete then Some(Incomplete)
    else if chunks == 0 then Some(NothingDelivered)
    else if !window && (bytes > config.replayMaxBytes || chunks > config.replayMaxChunks) then Some(OverReplayLimit)
    else if h == map[] || Total(h) != chunks || BytesIn(h) != bytes then Some(NotCovered)
    else if exists s :: s in h && s > config.replayMaxBytes then Some(ChunkOverReplayLimit)
    else None
  }

  /** What a replay needs: a whole histogram of everything observed, in chunks and totals the limits allow. */
  ghost predicate Replayable(
    h: map<nat, nat>, complete: bool, bytes: nat, chunks: nat, config: Config, window: bool)
  {
    && complete && chunks > 0 && Total(h) == chunks && BytesIn(h) == bytes
    && (forall s :: s in h ==> s <= config.replayMaxBytes)
    && (window || (bytes <= config.replayMaxBytes && chunks <= config.replayMaxChunks))
  }

  /** What each reason says of the observations. */
  ghost predicate Explains(
    reason: Reason, h: map<nat, nat>, complete: bool, bytes: nat, chunks: nat, config: Config, window: bool)
  {
    match reason
    case Incomplete => !complete
    case NothingDelivered => chunks == 0
    case OverReplayLimit => !window && !(bytes <= config.replayMaxBytes && chunks <= config.replayMaxChunks)
    case NotCovered => Total(h) != chunks || BytesIn(h) != bytes
    case ChunkOverReplayLimit => exists s :: s in h && s > config.replayMaxBytes
    case TooManySegments => false
  }

  function Rank(reason: Reason): nat {
    match reason
    case Incomplete => 0
    case NothingDelivered => 1
    case OverReplayLimit => 2
    case NotCovered => 3
    case ChunkOverReplayLimit => 4
    case TooManySegments => 5
  }

  /** No reason is given exactly when the observations can be replayed, and the one given is the first that applies. */
  lemma FailureReasonIff(
    h: map<nat, nat>, complete: bool, bytes: nat, chunks: nat, config: Config, window: bool)
    ensures var reason := FailureReason(h, complete, bytes, chunks, config, window);
      && (reason.None? <==> Replayable(h, complete, bytes, chunks, config, window))
      && (reason.Some? ==>
            && Explains(reason.value, h, complete, bytes, chunks, config, window)
            && forall other :: Explains(other, h, complete, bytes, chunks, config, window) ==>
                 Rank(reason.value) <= Rank(other))
  {
    EmptyTotals();
  }

  method ReplayFailureReason(
    h: map<nat, nat>, complete: bool, bytes: nat, chunks: nat, config: Config, window: bool)
    returns (reason: Option<Reason>)
    ensures reason.None? <==> Replayable(h, complete, bytes, chunks, config, window)
    ensures reason.Some? ==>
      && Explains(reason.value, h, complete, bytes, chunks, config, window)
      && forall other :: Explains(other, h, complete, bytes, chunks, config, window) ==>
           Rank(reason.value) <= Rank(other)
    ensures reason == FailureReason(h, complete, bytes, chunks, config, window)
  {
    FailureReasonIff(h, complete, bytes, chunks, config, window);
    if !complete { return Some(Incomplete); }
    if chunks == 0 { return Some(NothingDelivered); }
    if !window && (bytes > config.replayMaxBytes || chunks > config.replayMaxChunks) { return Some(OverReplayLimit); }
    var total := SumValues(h);
    var covered := SumValues(Scaled(h));
    if h == map[] || total != chunks || covered != bytes { return Some(NotCovered); }
    if exists s :: s in h && s > config.replayMaxBytes { return Some(ChunkOverReplayLimit); }
    return None;
  }

  /** Three timed passes over one histogram; only their durations survive. */
  method ReplayHistogram(clock: Clock, h: map<nat, nat>) returns (bytes: nat, chunks: nat, durations: Durations)
    modifies clock
    ensures bytes == BytesIn(h) && chunks == Total(h) && NonNegative(durations)
    ensures old(clock.now) <= clock.now
  {
    bytes := SumValues(Scaled(h));
    chunks := SumValues(h);
    var scalar := TimePass(clock);
    var digest := TimePass(clock);
    var both := TimePass(clock);
    durations := Durations(scalar, digest, both);
  }

  method TimePass(clock: Clock) returns (seconds: real)
    modifies clock
    ensures seconds >= 0.0 && old(clock.now) <= clock.now
  {
    var started := clock.Read();
    var finished := clock.Read();
    seconds := Seconds(finished - started);
  }

  /** One saved segment per part, in order. */
  method ReplaySegmentRecords(clock: Clock, parts: seq<map<nat, nat>>, config: Config) returns (segments: seq<Segment>)
    requires forall i :: 0 <= i < |parts| ==> Within(parts[i], config.replayMaxBytes, config.replayMaxChunks)
    modifies clock
    ensures |segments| == |parts|
    ensures forall i :: 0 <= i < |parts| ==>
      SegmentMatches(segments[i], config) && HistogramOf(segments[i].histogram) == Some(parts[i])
    ensures old(clock.now) <= clock.now
  {
    segments := [];
    for k := 0 to |parts|
      invariant |segments| == k && old(clock.now) <= clock.now
      invariant forall i :: 0 <= i < k ==>
        SegmentMatches(segments[i], config) && HistogramOf(segments[i].histogram) == Some(parts[i])
    {
      assert Within(parts[k], config.replayMaxBytes, config.replayMaxChunks);
      var bytes, chunks, durations := ReplayHistogram(clock, parts[k]);
      var bins := SortedItems(parts[k]);
      ListedReads(bins, parts[k]);
      segments := segments + [Segment(bytes, chunks, durations, bins)];
    }
  }

  function SumBytes(segments: seq<Segment>): int {
    if segments == [] then 0 else SumBytes(segments[..|segments| - 1]) + segments[|segments| - 1].replayBytes
  }

  function SumChunks(segments: seq<Segment>): int {
    if segments == [] then 0 else SumChunks(segments[..|segments| - 1]) + segments[|segments| - 1].replayChunks
  }

  /** Matching segments add up to the sum of their parts. */
  lemma {:induction false} SegmentsAddUp(segments: seq<Segment>, parts: seq<map<nat, nat>>, config: Config)
    requires |segments| == |parts|
    requires forall i :: 0 <= i < |parts| ==>
      SegmentMatches(segments[i], config) && HistogramOf(segments[i].histogram) == Some(parts[i])
    ensures Combined(segments) == AddAll(parts)
    ensures SumBytes(segments) == BytesIn(AddAll(parts)) && SumChunks(segments) == Total(AddAll(parts))
  {
    if parts == [] {
      EmptyTotals();
    } else {
      var n := |parts| - 1;
      assert SegmentMatches(segments[n], config) && HistogramOf(segments[n].histogram) == Some(parts[n]);
      SegmentsAddUp(segments[..n], parts[..n], config);
      AddAllLast(parts);
    }
  }

  const UNAVAILABLE := Overhead(false, false, 0, 0, 0, 0, None, [], None)

  /** What the replay of histogram `h` reports. */
  ghost predicate Reports(
    o: Overhead, h: map<nat, nat>, complete: bool, bytes: nat, chunks: nat, config: Config, window: bool)
  {
    var failure := FailureReason(h, complete, bytes, chunks, config, window);
    && o.complete == complete && o.observedBytes == bytes && o.observedChunks == chunks
    && (failure.Some? ==> !o.ok && o.reason == failure)
    && (failure.None? && !window ==> o.ok && o.replayBytes == bytes && o.replayChunks == chunks && o.segments == [])
    && (failure.None? && window ==> o.ok || o.reason == Some(TooManySegments))
    && (o.ok && window ==> ReplayAdmitted(o, h, config))
    && (!o.ok ==> o.replayBytes == 0 && o.replayChunks == 0 && o.segments == [] && o.durations == None)
    && (o.reason.None? <==> o.ok)
  }

  lemma Reflexive(x: real)
    ensures IsClose(x, x)
  {
  }

  /** A replay that found nothing wrong gives up only if the segment bound is beyond the limit. */
  ghost predicate GivesUpOnlyBeyond(o: Overhead, h: map<nat, nat>, config: Config) {
    o.reason == Some(TooManySegments) ==> !FewSegments(h, config)
  }

  /** No chunk is beyond the replay limit, and the segment bound is within its own. */
  ghost predicate FewSegments(h: map<nat, nat>, config: Config) {
    exists largest: nat :: FewSegmentsUpTo(h, config, largest)
  }

  ghost predicate FewSegmentsUpTo(h: map<nat, nat>, config: Config, largest: nat) {
    && largest <= config.replayMaxBytes && (forall s :: s in h ==> s <= largest) && 1 <= config.replayMaxChunks
    && Ceiling(BytesIn(h), Total(h), config.replayMaxBytes, config.replayMaxChunks, largest) <= MAX_REPLAY_SEGMENTS
  }

  method ReplayWindow(clock: Clock, base: Overhead, h: map<nat, nat>, config: Config) returns (o: Overhead)
    requires Positive(h) && h != map[] && 1 <= config.replayMaxChunks
    requires forall s :: s in h ==> s <= config.replayMaxBytes
    requires base == UNAVAILABLE.(complete := base.complete, observedBytes := base.observedBytes,
                                  observedChunks := base.observedChunks)
    modifies clock
    ensures old(clock.now) <= clock.now
    ensures o.complete == base.complete && o.observedBytes == base.observedBytes
         && o.observedChunks == base.observedChunks
    ensures if o.ok then ReplayAdmitted(o, h, config) && o.reason == None
            else o == base.(reason := Some(TooManySegments))
    ensures GivesUpOnlyBeyond(o, h, config)
  {
    var parts := ReplaySegments(h, config.replayMaxBytes, config.replayMaxChunks, LargestOf(h, config.replayMaxBytes));
    if |parts| > MAX_REPLAY_SEGMENTS {
      o := base.(reason := Some(TooManySegments));
      TooMany(h, parts, config);
      return;
    }
    var segments := ReplaySegmentRecords(clock, parts, config);
    SegmentsAddUp(segments, parts, config);
    assert parts != [];
    var sums := SumDurations(segments);
    Reflexive(sums.scalarOnlyS);
    Reflexive(sums.sha256OnlyS);
    Reflexive(sums.combinedS);
    o := base.(ok := true, replayBytes := SumBytes(segments), replayChunks := SumChunks(segments),
               durations := Some(sums), segments := segments);
  }

  /** The largest size in `h`, or any bound on it. */
  ghost function LargestOf(h: map<nat, nat>, bound: nat): (m: nat)
    requires h != map[] && forall s :: s in h ==> s <= bound
    ensures m in h && m <= bound && forall s :: s in h ==> s <= m
    decreases |h|
  {
    var k :| k in h;
    var rest := h - {k};
    assert rest.Keys == h.Keys - {k} && forall s :: s in h ==> s == k || s in rest;
    if rest == map[] then
      assert forall s :: s in h ==> s == k;
      k
    else
      var m := LargestOf(rest, bound);
      if k > m then k else m
  }

  lemma TooMany(h: map<nat, nat>, parts: seq<map<nat, nat>>, config: Config)
    requires h != map[] && forall s :: s in h ==> s <= config.replayMaxBytes
    requires AddAll(parts) == h && 1 <= config.replayMaxChunks && |parts| > MAX_REPLAY_SEGMENTS
    requires forall i :: 0 <= i < |parts| - 1 ==>
      Full(parts[i], config.replayMaxBytes, config.replayMaxChunks, LargestOf(h, config.replayMaxBytes))
    ensures !FewSegments(h, config)
  {
    var least := LargestOf(h, config.replayMaxBytes);
    forall largest: nat ensures !FewSegmentsUpTo(h, config, largest) {
      if largest <= config.replayMaxBytes && forall s :: s in h ==> s <= largest {
        assert least <= largest;
        forall i | 0 <= i < |parts| - 1
          ensures Full(parts[i], config.replayMaxBytes, config.replayMaxChunks, largest)
        {
          assert Full(parts[i], config.replayMaxBytes, config.replayMaxChunks, least);
        }
        SegmentCount(parts, h, config.replayMaxBytes, config.replayMaxChunks, largest);
      }
    }
  }

  /** The histogram the replay works on: the window's shared one, or the streams' own merged under the cap. */
  method ReplayHarnessOverhead(clock: Clock, observations: seq<Observations>, config: Config, budget: Option<Budget>)
    returns (o: Overhead, ghost h: map<nat, nat>, ghost complete: bool)
    requires 1 <= config.replayMaxChunks
    requires forall i :: 0 <= i < |observations| ==> Positive(observations[i].histogram)
    requires Global(budget) ==> Positive(budget.value.globalHistogram.value)
    modifies clock
    ensures old(clock.now) <= clock.now
    ensures Global(budget) ==>
      h == budget.value.globalHistogram.value && complete == budget.value.globalHistogramComplete
    ensures !Global(budget) ==>
      && AgreesWith(h, AddAll(HistogramsOf(observations)), config.histogramBinsCap)
      && (complete <==>
            && (forall i :: 0 <= i < |observations| ==> observations[i].histogramComplete)
            && h == AddAll(HistogramsOf(observations)))
    ensures Reports(o, h, complete, Sum(Field(observations, Bytes)), Sum(Field(observations, Chunks)), config,
                    budget.Some?)
    ensures GivesUpOnlyBeyond(o, h, config)
  {
    var histogram: map<nat, nat>, whole: bool;
    if budget.Some? && budget.value.globalHistogram.Some? {
      histogram, whole := budget.value.globalHistogram.value, budget.value.globalHistogramComplete;
    } else {
      histogram, whole := ObservedHistogram(observations, config.histogramBinsCap);
      PositiveParts(observations, histogram, config.histogramBinsCap);
    }
    h, complete := histogram, whole;
    var bytes, chunks := Sum(Field(observations, Bytes)), Sum(Field(observations, Chunks));
    o := UNAVAILABLE.(complete := whole, observedBytes := bytes, observedChunks := chunks);
    var failure := ReplayFailureReason(histogram, whole, bytes, chunks, config, budget.Some?);
    if failure.Some? {
      o := o.(reason := failure);
    } else if budget.None? {
      var replayed, count, durations := ReplayHistogram(clock, histogram);
      o := o.(ok := true, replayBytes := replayed, replayChunks := count, durations := Some(durations));
    } else {
      o := ReplayWindow(clock, o, histogram, config);
    }
  }

  lemma PositiveParts(observations: seq<Observations>, h: map<nat, nat>, cap: nat)
    requires forall i :: 0 <= i < |observations| ==> Positive(observations[i].histogram)
    requires AgreesWith(h, AddAll(HistogramsOf(observations)), cap)
    ensures Positive(h)
  {
    PositiveAddAll(HistogramsOf(observations));
  }
}
