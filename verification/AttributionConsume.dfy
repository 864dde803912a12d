/**
 Public-delivery observation of many interleaved streams that share one bounded budget.

 The classes follow the mutable dataclasses statement by statement; the `...Step` functions are the
 value-level specification they are proved against, and what the observations promise is proved about
 every run of those steps in `ObservationRuns`.
 */
module AttributionConsume {
  import opened Common
  import opened MapSums

  datatype Config = Config(
    diagnostic: bool,
    chunkSampleCap: nat,
    histogramBinsCap: nat,
    replayMaxBytes: nat,
    replayMaxChunks: nat,
    minimumDurationS: real,
    maxWindowStreams: nat)

  datatype DeliverySample = DeliverySample(index: nat, sizeBytes: nat, gapMs: Option<real>, offsetNs: int)

  datatype TraceSample = TraceSample(index: nat, awaitStartNs: int, awaitFinishedNs: int, consumerFinishedNs: int)

  /** The value of an `ObservationBudget`. */
  datatype Budget = Budget(
    recordCap: nat,
    histogramBinsCap: nat,
    records: nat,
    histogramBins: nat,
    globalHistogram: Option<map<nat, nat>>,
    globalHistogramComplete: bool)

  /** The value of a `ChunkObservations`. */
  datatype Observations = Observations(
    bytesRead: nat,
    chunksRead: nat,
    emptyDeliveries: nat,
    firstNs: Option<int>,
    previousNs: Option<int>,
    minBytes: Option<nat>,
    maxBytes: Option<nat>,
    histogram: map<nat, nat>,
    histogramComplete: bool,
    deliverySamples: seq<DeliverySample>,
    trace: seq<TraceSample>)

  const NOTHING_OBSERVED := Observations(0, 0, 0, None, None, None, None, map[], true, [], [])

  function RoomForRecord(b: Option<Budget>): bool {
    b.None? || b.value.records < b.value.recordCap
  }

  function RoomForBin(b: Option<Budget>): bool {
    b.None? || b.value.histogramBins < b.value.histogramBinsCap
  }

  function ChargeRecord(b: Option<Budget>): Option<Budget> {
    if b.None? then b else Some(b.value.(records := b.value.records + 1))
  }

  function ChargeBin(b: Option<Budget>): Option<Budget> {
    if b.None? then b else Some(b.value.(histogramBins := b.value.histogramBins + 1))
  }

  function Global(b: Option<Budget>): bool {
    b.Some? && b.value.globalHistogram.Some?
  }

  /** Totals and extremes after one nonempty chunk. */
  function Measured(o: Observations, size: nat): Observations {
    o.(bytesRead := o.bytesRead + size,
       chunksRead := o.chunksRead + 1,
       minBytes := Some(if o.minBytes.None? then size else Min(o.minBytes.value, size)),
       maxBytes := Some(if o.maxBytes.None? then size else Max(o.maxBytes.value, size)))
  }

  /** The histogram decision: the whole-window histogram when there is one, else the stream's own. */
  function Binned(config: Config, b: Option<Budget>, o: Observations, size: nat): (Option<Budget>, Observations) {
    if Global(b) then
      var h := b.value.globalHistogram.value;
      if size in h then (Some(b.value.(globalHistogram := Some(Bump(h, size, 1)))), o)
      else if RoomForBin(b) then
        (Some(ChargeBin(b).value.(globalHistogram := Some(Bump(h, size, 1)))), o)
      else (Some(b.value.(globalHistogramComplete := false)), o)
    else if size in o.histogram then (b, o.(histogram := Bump(o.histogram, size, 1)))
    else if |o.histogram| < config.histogramBinsCap && RoomForBin(b) then
      (ChargeBin(b), o.(histogram := Bump(o.histogram, size, 1)))
    else (b, o.(histogramComplete := false))
  }

  function GapMs(previousNs: Option<int>, arrivedNs: int): Option<real> {
    if previousNs.None? then None else Some((arrivedNs - previousNs.value) as real / 1000000.0)
  }

  /** The bounded delivery sample and the arrival bookkeeping. */
  function Sampled(config: Config, b: Option<Budget>, o: Observations, size: nat, arrivedNs: int, startedNs: int)
    : (Option<Budget>, Observations)
  {
    var first := if o.firstNs.None? then Some(arrivedNs) else o.firstNs;
    var sample := DeliverySample(o.chunksRead, size, GapMs(o.previousNs, arrivedNs), arrivedNs - startedNs);
    var o := o.(firstNs := first, previousNs := Some(arrivedNs));
    if |o.deliverySamples| < config.chunkSampleCap && RoomForRecord(b) then
      (ChargeRecord(b), o.(deliverySamples := o.deliverySamples + [sample]))
    else (b, o)
  }

  /** One call of `observe`. */
  function ObserveStep(config: Config, b: Option<Budget>, o: Observations, size: nat, arrivedNs: int, startedNs: int)
    : (Option<Budget>, Observations)
  {
    if size == 0 then (b, o.(emptyDeliveries := o.emptyDeliveries + 1))
    else
      var (b1, o1) := Binned(config, b, Measured(o, size), size);
      Sampled(config, b1, o1, size, arrivedNs, startedNs)
  }

  /** The diagnostic record written once the consumer is done with a chunk. */
  function TraceStep(config: Config, b: Option<Budget>, o: Observations, awaitStartNs: int, arrivedNs: int, doneNs: int)
    : (Option<Budget>, Observations)
  {
    if config.diagnostic && |o.trace| < config.chunkSampleCap && RoomForRecord(b) then
      (ChargeRecord(b), o.(trace := o.trace + [TraceSample(o.chunksRead, awaitStartNs, arrivedNs, doneNs)]))
    else (b, o)
  }

  class ObservationBudget {
    const recordCap: nat
    const histogramBinsCap: nat
    var records: nat
    var histogramBins: nat
    var globalHistogram: Option<map<nat, nat>>
    var globalHistogramComplete: bool

    constructor (recordCap: nat, histogramBinsCap: nat, globalHistogram: Option<map<nat, nat>>)
      ensures State() == Budget(recordCap, histogramBinsCap, 0, 0, globalHistogram, true)
    {
      this.recordCap, this.histogramBinsCap := recordCap, histogramBinsCap;
      records, histogramBins := 0, 0;
      this.globalHistogram, globalHistogramComplete := globalHistogram, true;
    }

    function State(): Budget
      reads this
    {
      Budget(recordCap, histogramBinsCap, records, histogramBins, globalHistogram, globalHistogramComplete)
    }

    method TakeRecord() returns (taken: bool)
      modifies this
      ensures taken == RoomForRecord(Some(old(State())))
      ensures Some(State()) == if taken then ChargeRecord(Some(old(State()))) else Some(old(State()))
    {
      if records >= recordCap { return false; }
      records := records + 1;
      return true;
    }

    method TakeHistogramBin() returns (taken: bool)
      modifies this
      ensures taken == RoomForBin(Some(old(State())))
      ensures Some(State()) == if taken then ChargeBin(Some(old(State()))) else Some(old(State()))
    {
      if histogramBins >= histogramBinsCap { return false; }
      histogramBins := histogramBins + 1;
      return true;
    }
  }

  function BudgetState(budget: ObservationBudget?): Option<Budget>
    reads budget
  {
    if budget == null then None else Some(budget.State())
  }

  ghost function BudgetFrame(budget: ObservationBudget?): set<object> {
    if budget == null then {} else {budget}
  }

  class ChunkObservations {
    const config: Config
    const budget: ObservationBudget?
    var bytesRead: nat
    var chunksRead: nat
    var emptyDeliveries: nat
    var firstNs: Option<int>
    var previousNs: Option<int>
    var minBytes: Option<nat>
    var maxBytes: Option<nat>
    var histogram: map<nat, nat>
    var histogramComplete: bool
    var deliverySamples: seq<DeliverySample>
    var trace: seq<TraceSample>

    constructor (config: Config, budget: ObservationBudget?)
      ensures this.config == config && this.budget == budget
      ensures State() == NOTHING_OBSERVED
    {
      this.config, this.budget := config, budget;
      bytesRead, chunksRead, emptyDeliveries := 0, 0, 0;
      firstNs, previousNs, minBytes, maxBytes := None, None, None, None;
      histogram, histogramComplete, deliverySamples, trace := map[], true, [], [];
    }

    function State(): Observations
      reads this
    {
      Observations(bytesRead, chunksRead, emptyDeliveries, firstNs, previousNs, minBytes, maxBytes,
                   histogram, histogramComplete, deliverySamples, trace)
    }

    method Observe(size: nat, arrivedNs: int, startedNs: int)
      modifies this, BudgetFrame(budget)
      ensures (BudgetState(budget), State())
           == ObserveStep(config, old(BudgetState(budget)), old(State()), size, arrivedNs, startedNs)
    {
      if size == 0 {
        emptyDeliveries := emptyDeliveries + 1;
        return;
      }
      bytesRead := bytesRead + size;
      chunksRead := chunksRead + 1;
      minBytes := Some(if minBytes.None? then size else Min(minBytes.value, size));
      maxBytes := Some(if maxBytes.None? then size else Max(maxBytes.value, size));
      assert State() == Measured(old(State()), size) && BudgetState(budget) == old(BudgetState(budget));
      BinChunk(size);
      ghost var binned := Binned(config, old(BudgetState(budget)), Measured(old(State()), size), size);
      assert State() == binned.1 && BudgetState(budget) == binned.0;
      SampleDelivery(size, arrivedNs, startedNs);
    }

    method SampleDelivery(size: nat, arrivedNs: int, startedNs: int)
      modifies this`firstNs, this`previousNs, this`deliverySamples, BudgetFrame(budget)
      ensures (BudgetState(budget), State())
           == Sampled(config, old(BudgetState(budget)), old(State()), size, arrivedNs, startedNs)
    {
      if firstNs.None? {
        firstNs := Some(arrivedNs);
      }
      var gap := if previousNs.Some? then Some((arrivedNs - previousNs.value) as real / 1000000.0) else None;
      if |deliverySamples| < config.chunkSampleCap {
        var taken := TakeSharedRecord();
        if taken {
          deliverySamples := deliverySamples + [DeliverySample(chunksRead, size, gap, arrivedNs - startedNs)];
        }
      }
      previousNs := Some(arrivedNs);
    }

    method BinChunk(size: nat)
      modifies this`histogram, this`histogramComplete, BudgetFrame(budget)
      ensures (BudgetState(budget), State()) == Binned(config, old(BudgetState(budget)), old(State()), size)
    {
      if budget != null && budget.globalHistogram.Some? {
        var h := budget.globalHistogram.value;
        var room := true;
        if size !in h {
          room := budget.TakeHistogramBin();
        }
        if room {
          budget.globalHistogram := Some(h[size := Get(h, size) + 1]);
        } else {
          budget.globalHistogramComplete := false;
        }
      } else {
        var room := true;
        if size !in histogram {
          room := |histogram| < config.histogramBinsCap;
          if room && budget != null {
            room := budget.TakeHistogramBin();
          }
        }
        if room {
          histogram := histogram[size := Get(histogram, size) + 1];
        } else {
          histogramComplete := false;
        }
      }
    }

    method TakeSharedRecord() returns (taken: bool)
      modifies BudgetFrame(budget)
      ensures taken == RoomForRecord(old(BudgetState(budget)))
      ensures BudgetState(budget)
           == if taken then ChargeRecord(old(BudgetState(budget))) else old(BudgetState(budget))
    {
      taken := true;
      if budget != null {
        taken := budget.TakeRecord();
      }
    }

    method RecordTrace(awaitStartNs: int, arrivedNs: int, doneNs: int)
      modifies this`trace, BudgetFrame(budget)
      ensures (BudgetState(budget), State())
           == TraceStep(config, old(BudgetState(budget)), old(State()), awaitStartNs, arrivedNs, doneNs)
    {
      if config.diagnostic && |trace| < config.chunkSampleCap {
        var taken := TakeSharedRecord();
        if taken {
          trace := trace + [TraceSample(chunksRead, awaitStartNs, arrivedNs, doneNs)];
        }
      }
    }
  }
}
