/** One measured batch: rounds of streams under a shared budget, finalised and written down as a record. */
module AttributionMeasure {
  import opened Common
  import opened Histograms
  import opened Text
  import opened Arithmetic
  import opened Clocks
  import opened AttributionConsume
  import opened ObservationRuns
  import opened AttributionStreams
  import opened AttributionWindow
  import opened AttributionOverhead

  const HTTP_OK := 200
  const BUDGET_RECORD_CAP := 4096
  const BUDGET_BINS_CAP := 4096
  const MAX_ROUNDS := 20

  // ---------------------------------------------------------------- one stream's verdict

  datatype Fault = BadHead | BadFraming | Encoded | BadBody

  function IntegrityError<D(==)>(
    head: Option<Head>, eof: bool, bytesRead: nat, digest: D, body: nat, expected: D): Option<Fault>
  {
    if head.None? || head.value.statusCode != HTTP_OK || head.value.contentLength != Some(Decimal(body)) then
      Some(BadHead)
    else if head.value.transferEncoding.Some?
         || (head.value.httpVersion != Some("HTTP/1.1") && head.value.httpVersion != Some("1.1")) then
      Some(BadFraming)
    else if head.value.contentEncoding.Some? then Some(Encoded)
    else if !eof || bytesRead != body || digest != expected then Some(BadBody)
    else None
  }

  /** A stream fails by its own error or, failing that, by the integrity checks. */
  function Failure<D(==)>(sha: Bytes -> D, s: Stream, body: nat, expected: D): Option<string> {
    if s.error.Some? then s.error
    else if IntegrityError(s.head, s.eof, s.observations.bytesRead, sha(s.digest), body, expected).Some? then
      Some("IntegrityError")
    else None
  }

  /** What a stream without a failure has delivered: the whole declared body, framed and hashed as declared. */
  ghost predicate Intact<D>(sha: Bytes -> D, s: Stream, body: nat, expected: D) {
    && s.error.None? && s.eof && s.head.Some?
    && s.head.value.statusCode == HTTP_OK
    && (forall n: nat :: s.head.value.contentLength == Some(Decimal(n)) <==> n == body)
    && s.head.value.transferEncoding.None? && s.head.value.contentEncoding.None?
    && (s.head.value.httpVersion == Some("HTTP/1.1") || s.head.value.httpVersion == Some("1.1"))
    && s.observations.bytesRead == body && sha(s.digest) == expected
  }

  lemma FailureIff<D>(sha: Bytes -> D, s: Stream, body: nat, expected: D)
    ensures Failure(sha, s, body, expected).None? <==> Intact(sha, s, body, expected)
  {
    forall n: nat | Decimal(n) == Decimal(body) ensures n == body {
      DecimalInjective(n, body);
    }
    if Intact(sha, s, body, expected) {
      assert s.head.value.contentLength == Some(Decimal(body));
    }
  }

  /** The saved sample of stream `index`. */
  ghost predicate Finalized<D>(
    sample: Sample, index: int, sha: Bytes -> D, s: Stream, b: Budget, binsCap: nat, body: nat, expected: D)
  {
    var o := s.observations;
    && sample.stream == index
    && sample.error == Failure(sha, s, body, expected)
    && sample.chunksRead == o.chunksRead && sample.bytesRead == o.bytesRead
    && sample.verifiedBytes == (if sample.error.None? then o.bytesRead else 0)
    && sample.deliverySamples == o.deliverySamples
    && Lists(sample.distribution.histogram, o.histogram)
    && sample.distribution.complete
       == (if b.globalHistogram.Some? then b.globalHistogramComplete else o.histogramComplete)
    && sample.distribution.observedCount == o.chunksRead
    && sample.distribution.minBytes == o.minBytes && sample.distribution.maxBytes == o.maxBytes
    && sample.distribution.binsCap == binsCap
    && sample.distribution.batchGlobal == b.globalHistogram.Some?
  }

  method Finalize<D(==)>(p: PendingStream, index: int, sha: Bytes -> D, body: nat, expected: D)
    returns (sample: Sample)
    requires p.observations.budget != null
    ensures Finalized(sample, index, sha, p.State(), p.observations.budget.State(),
                      p.observations.config.histogramBinsCap, body, expected)
  {
    var o := p.observations;
    var error := p.error;
    if error.None? {
      var fault := IntegrityError(p.head, p.eof, o.bytesRead, sha(p.digest), body, expected);
      if fault.Some? { error := Some("IntegrityError"); }
    }
    var bins := SortedItems(o.histogram);
    var global := o.budget.globalHistogram.Some?;
    var distribution := Distribution(
      bins, if global then o.budget.globalHistogramComplete else o.histogramComplete, o.chunksRead,
      o.minBytes, o.maxBytes, o.config.histogramBinsCap, global);
    sample := Sample(index, error, o.chunksRead, o.bytesRead, if error.None? then o.bytesRead else 0,
                     distribution, o.deliverySamples);
  }

  // ---------------------------------------------------------------- the load

  function Opens(moves: seq<Move>): nat {
    if moves == [] then 0 else Opens(moves[..|moves| - 1]) + if moves[|moves| - 1].Open? then 1 else 0
  }

  function Flat(rounds: seq<seq<Move>>): seq<Move> {
    if rounds == [] then [] else Flat(rounds[..|rounds| - 1]) + rounds[|rounds| - 1]
  }

  ghost predicate AllClosed(w: World) {
    forall i :: 0 <= i < |w.streams| ==> w.streams[i].phase == Closed
  }

  /** Each round starts `concurrency` coroutines and is over once all of them have returned. */
  ghost predicate Gathered(config: Config, body: nat, start: World, schedules: seq<seq<Move>>, concurrency: nat) {
    forall k :: 0 <= k < |schedules| ==>
      Opens(schedules[k]) == concurrency && AllClosed(Run(config, body, start, Flat(schedules[..k + 1])))
  }

  lemma {:induction false} RunAppend(config: Config, body: nat, w: World, a: seq<Move>, b: seq<Move>)
    ensures Run(config, body, w, a + b) == Run(config, body, Run(config, body, w, a), b)
    decreases |b|
  {
    if b == [] {
      assert a + b == a;
    } else {
      assert (a + b)[..|a + b| - 1] == a + b[..|b| - 1];
      RunAppend(config, body, w, a, b[..|b| - 1]);
    }
  }

  lemma {:induction false} RunOpens(config: Config, body: nat, w: World, moves: seq<Move>)
    ensures |Run(config, body, w, moves).streams| == |w.streams| + Opens(moves)
  {
    if moves != [] {
      RunOpens(config, body, w, moves[..|moves| - 1]);
      StepOpens(config, body, Run(config, body, w, moves[..|moves| - 1]), moves[|moves| - 1]);
    }
  }

  lemma StepOpens(config: Config, body: nat, w: World, m: Move)
    ensures |Step(config, body, w, m).streams| == |w.streams| + if m.Open? then 1 else 0
  {
  }

  lemma FlatStep(schedules: seq<seq<Move>>, k: nat)
    requires k < |schedules|
    ensures Flat(schedules[..k + 1]) == Flat(schedules[..k]) + schedules[k]
  {
    assert schedules[..k + 1][..k] == schedules[..k];
  }

  /** `k` whole rounds have run: the streams are exactly those of the machine after their schedules. */
  ghost predicate Loaded(config: Config, body: nat, start: World, schedules: seq<seq<Move>>, k: nat, concurrency: nat,
                         budget: ObservationBudget, pending: seq<PendingStream>)
    requires k <= |schedules|
    reads budget, pending, set p: PendingStream | p in pending :: p.observations
  {
    && |pending| == k * concurrency
    && Separate(config, budget, pending)
    && Represents(Run(config, body, start, Flat(schedules[..k])), budget, pending)
  }

  /** The window's stop condition at the end of round `k`, read at time `now`. */
  predicate StopsAfter(k: nat, now: int, started: int, rounds: int, config: Config) {
    k >= rounds && (now - started) as real >= config.minimumDurationS * 1000000000.0
  }

  /** It holds exactly when enough rounds have run and the seconds since the start reach the declared target. */
  lemma StopsIff(k: nat, now: int, started: int, rounds: int, config: Config)
    ensures StopsAfter(k, now, started, rounds, config)
      <==> k >= rounds && Seconds(now - started) >= config.minimumDurationS
  {
  }

  /**
   The load loop. `checks[k]` is the clock when the stop condition of round `k + 1` was evaluated: the loop ends
   with the first round whose condition holds, or with the last one.
   */
  method ConsumeLoad(
    clock: Clock, config: Config, body: nat, concurrency: nat, rounds: int, budget: ObservationBudget, window: bool,
    schedules: seq<seq<Move>>, ghost start: World)
    returns (pending: seq<PendingStream>, started: nat, finished: nat, ghost checks: seq<nat>)
    requires concurrency > 0 && start == World(budget.State(), [], [])
    requires Gathered(config, body, start, schedules, concurrency)
    modifies clock, budget
    ensures |checks| <= |schedules|
    ensures Loaded(config, body, start, schedules, |checks|, concurrency, budget, pending)
    ensures old(clock.now) <= started <= finished == clock.now
    ensures forall k :: 0 <= k < |checks| ==> started <= checks[k] <= finished
    ensures forall k :: 0 <= k < |checks| - 1 ==> !(window && StopsAfter(k + 1, checks[k], started, rounds, config))
    ensures |checks| < |schedules| ==>
      window && checks != [] && StopsAfter(|checks|, checks[|checks| - 1], started, rounds, config)
  {
    started := clock.Read();
    pending, checks :=
      ConsumeRounds(clock, config, body, concurrency, rounds, budget, window, schedules, started, start);
    finished := Finish(clock, config, body, start, schedules, |checks|, concurrency, budget, pending);
  }

  /** The closing clock reading touches none of the streams. */
  method Finish(clock: Clock, config: Config, body: nat, ghost start: World, ghost schedules: seq<seq<Move>>,
                ghost k: nat, ghost concurrency: nat, budget: ObservationBudget, pending: seq<PendingStream>)
    returns (finished: nat)
    requires k <= |schedules| && Loaded(config, body, start, schedules, k, concurrency, budget, pending)
    modifies clock
    ensures Loaded(config, body, start, schedules, k, concurrency, budget, pending)
    ensures old(clock.now) <= finished == clock.now
  {
    finished := clock.Read();
  }

  method ConsumeRounds(
    clock: Clock, config: Config, body: nat, concurrency: nat, rounds: int, budget: ObservationBudget, window: bool,
    schedules: seq<seq<Move>>, started: nat, ghost start: World)
    returns (pending: seq<PendingStream>, ghost checks: seq<nat>)
    requires concurrency > 0 && start == World(budget.State(), [], [])
    requires Gathered(config, body, start, schedules, concurrency)
    requires started <= clock.now
    modifies clock, budget
    ensures |checks| <= |schedules|
    ensures Loaded(config, body, start, schedules, |checks|, concurrency, budget, pending)
    ensures old(clock.now) <= clock.now
    ensures forall k :: 0 <= k < |checks| ==> started <= checks[k] <= clock.now
    ensures forall k :: 0 <= k < |checks| - 1 ==> !(window && StopsAfter(k + 1, checks[k], started, rounds, config))
    ensures |checks| < |schedules| ==>
      window && checks != [] && StopsAfter(|checks|, checks[|checks| - 1], started, rounds, config)
  {
    pending, checks := [], [];
    var k := 0;
    while k < |schedules|
      invariant k == |checks| <= |schedules|
      invariant Loaded(config, body, start, schedules, k, concurrency, budget, pending)
      invariant started <= clock.now && old(clock.now) <= clock.now
      invariant forall i :: 0 <= i < k ==> started <= checks[i] <= clock.now
      invariant forall i :: 0 <= i < k ==> !(window && StopsAfter(i + 1, checks[i], started, rounds, config))
      invariant fresh(Footprint(budget, pending) - {budget})
      decreases |schedules| - k
    {
      var stop: bool;
      pending, stop :=
        GatherRound(clock, config, body, concurrency, rounds, budget, window, pending, schedules, k, started, start);
      checks := checks + [clock.now];
      k := k + 1;
      if stop { break; }
    }
  }

  method StopCheck(clock: Clock, config: Config, window: bool, streams: nat, rounds: int, concurrency: nat,
                   started: nat, ghost k: nat)
    returns (stop: bool)
    requires concurrency > 0 && streams == k * concurrency
    modifies clock
    ensures old(clock.now) <= clock.now
    ensures stop <==> window && StopsAfter(k, clock.now, started, rounds, config)
  {
    EnoughStreams(k, rounds, concurrency);
    stop := false;
    if window && streams >= rounds * concurrency {
      var now := clock.Read();
      stop := (now - started) as real >= config.minimumDurationS * 1000000000.0;
    }
  }

  lemma EnoughStreams(k: nat, rounds: int, concurrency: nat)
    requires concurrency > 0
    ensures k * concurrency >= rounds * concurrency <==> k >= rounds
  {
    if k >= rounds {
      Widen(rounds, k, concurrency);
    } else {
      Widen(k + 1, rounds, concurrency);
      assert (k + 1) * concurrency == k * concurrency + concurrency;
    }
  }

  /** One round: `concurrency` coroutines started, interleaved and gathered in order; then the stop condition. */
  method GatherRound(
    clock: Clock, config: Config, body: nat, concurrency: nat, rounds: int, budget: ObservationBudget, window: bool,
    pending0: seq<PendingStream>, schedules: seq<seq<Move>>, k: nat, started: nat, ghost start: World)
    returns (pending: seq<PendingStream>, stop: bool)
    requires concurrency > 0 && k < |schedules| && Opens(schedules[k]) == concurrency
    requires Loaded(config, body, start, schedules, k, concurrency, budget, pending0)
    modifies clock, Footprint(budget, pending0)
    ensures Loaded(config, body, start, schedules, k + 1, concurrency, budget, pending)
    ensures fresh(Footprint(budget, pending) - Footprint(budget, pending0))
    ensures old(clock.now) <= clock.now
    ensures stop <==> window && StopsAfter(k + 1, clock.now, started, rounds, config)
  {
    ghost var before := Run(config, body, start, Flat(schedules[..k]));
    RoundDone(config, body, start, schedules, k, concurrency);
    stop := false;
    pending := Drive(config, body, budget, pending0, schedules[k], before);
    stop := StopCheck(clock, config, window, |pending|, rounds, concurrency, started, k + 1);
  }

  lemma RoundDone(config: Config, body: nat, start: World, schedules: seq<seq<Move>>, k: nat, concurrency: nat)
    requires k < |schedules| && Opens(schedules[k]) == concurrency
    requires |Run(config, body, start, Flat(schedules[..k])).streams| == k * concurrency
    ensures Run(config, body, start, Flat(schedules[..k + 1]))
         == Run(config, body, Run(config, body, start, Flat(schedules[..k])), schedules[k])
    ensures |Run(config, body, start, Flat(schedules[..k + 1])).streams| == (k + 1) * concurrency
  {
    var before := Run(config, body, start, Flat(schedules[..k]));
    FlatStep(schedules, k);
    RunAppend(config, body, start, Flat(schedules[..k]), schedules[k]);
    RunOpens(config, body, before, schedules[k]);
  }
}
