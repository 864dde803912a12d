/** The stream coroutines as objects: driving any schedule over shared objects is exactly a run of the machine. */
module AttributionStreams {
  import opened Common
  import opened AttributionConsume
  import opened ObservationRuns

  class PendingStream {
    const startedNs: int
    const observations: ChunkObservations
    var digest: Bytes
    var phase: Phase
    var eof: bool
    var head: Option<Head>
    var error: Option<string>
    ghost var arrivals: seq<Arrival>

    constructor (config: Config, budget: ObservationBudget?, startedNs: int)
      ensures fresh(observations) && observations.config == config && observations.budget == budget
      ensures State() == FreshStream(startedNs)
    {
      this.startedNs := startedNs;
      observations := new ChunkObservations(config, budget);
      digest, phase, eof, head, error, arrivals := [], Connecting, false, None, None, [];
    }

    ghost function State(): Stream
      reads this, observations
    {
      Stream(startedNs, observations.State(), digest, phase, eof, head, error, arrivals)
    }

    /** Runs the coroutine from one await to the next. */
    method Advance(body: nat, e: Event)
      modifies this, observations, BudgetFrame(observations.budget)
      ensures (BudgetState(observations.budget), State())
           == StreamStep(observations.config, body, old(BudgetState(observations.budget)), old(State()), e)
    {
      match e {
        case Connected(h) =>
          if phase == Connecting {
            head, phase := Some(h), Awaiting;
          }
        case Delivered(chunk, awaitStartedNs, arrivedNs) =>
          if phase == Awaiting {
            Deliver(body, chunk, awaitStartedNs, arrivedNs);
          }
        case Consumed(finishedNs) =>
          if phase.Consuming? {
            observations.RecordTrace(phase.awaitStartedNs, phase.arrivedNs, finishedNs);
            phase := Awaiting;
          }
        case Exhausted =>
          if phase == Awaiting {
            eof, phase := true, Exiting;
          }
        case Raised(errorType) =>
          if phase != Closed {
            error, phase := Some(errorType), Closed;
          }
        case Left =>
          if phase == Exiting {
            phase := Closed;
          }
      }
    }

    method Deliver(body: nat, chunk: Bytes, awaitStartedNs: int, arrivedNs: int)
      requires phase == Awaiting
      modifies this, observations, BudgetFrame(observations.budget)
      ensures (BudgetState(observations.budget), State())
           == StreamStep(observations.config, body, old(BudgetState(observations.budget)), old(State()),
                         Delivered(chunk, awaitStartedNs, arrivedNs))
    {
      observations.Observe(|chunk|, arrivedNs, startedNs);
      if chunk == [] {
        assert digest + chunk == digest;
        return;
      }
      arrivals := arrivals + [Arrival(|chunk|, arrivedNs)];
      digest := digest + chunk;
      if observations.bytesRead > body {
        error, phase := Some("ValueError"), Closed;
      } else {
        phase := Consuming(awaitStartedNs, arrivedNs);
      }
    }
  }

  /** No two streams share an object other than the budget. */
  ghost predicate Separate(config: Config, budget: ObservationBudget, pending: seq<PendingStream>) {
    && (forall i :: 0 <= i < |pending| ==>
          pending[i].observations.budget == budget && pending[i].observations.config == config)
    && (forall i, j :: 0 <= i < j < |pending| ==>
          pending[i] != pending[j] && pending[i].observations != pending[j].observations)
  }

  ghost predicate Represents(w: World, budget: ObservationBudget, pending: seq<PendingStream>)
    reads budget, pending, set p: PendingStream | p in pending :: p.observations
  {
    && w.budget == budget.State()
    && |w.streams| == |pending|
    && forall i :: 0 <= i < |pending| ==> w.streams[i] == pending[i].State()
  }

  /** Every object a batch may change. */
  ghost function Footprint(budget: ObservationBudget, pending: seq<PendingStream>): set<object> {
    {budget} + (set p: PendingStream | p in pending :: p as object)
      + (set p: PendingStream | p in pending :: p.observations as object)
  }

  /** Resumes one coroutine. */
  method Resume(config: Config, body: nat, budget: ObservationBudget, pending: seq<PendingStream>, i: nat, e: Event,
                ghost w: World)
    requires Separate(config, budget, pending) && Represents(w, budget, pending) && i < |pending|
    modifies Footprint(budget, pending)
    ensures Represents(Step(config, body, w, On(i, e)), budget, pending)
  {
    var p := pending[i];
    assert w.streams[i] == p.State();
    assert p in pending && p.observations in Footprint(budget, pending);
    assert BudgetFrame(p.observations.budget) == {budget};
    p.Advance(body, e);
    forall j | 0 <= j < |pending| && j != i ensures w.streams[j] == pending[j].State() {
      assert pending[j] != p && pending[j].observations != p.observations;
    }
  }

  /** Starts one more coroutine, or resumes the one whose await completed. */
  method DriveMove(config: Config, body: nat, budget: ObservationBudget, pending0: seq<PendingStream>, m: Move,
                   ghost w: World)
    returns (pending: seq<PendingStream>)
    requires Separate(config, budget, pending0) && Represents(w, budget, pending0)
    modifies Footprint(budget, pending0)
    ensures Separate(config, budget, pending) && Represents(Step(config, body, w, m), budget, pending)
    ensures fresh(Footprint(budget, pending) - Footprint(budget, pending0))
    ensures pending0 <= pending
  {
    pending := pending0;
    match m {
      case Open(startedNs) =>
        var p := new PendingStream(config, budget, startedNs);
        pending := pending + [p];
      case On(i, e) =>
        if i < |pending| {
          Resume(config, body, budget, pending, i, e, w);
        }
    }
  }

  /** Executes a schedule on the objects themselves. */
  method Drive(config: Config, body: nat, budget: ObservationBudget, pending0: seq<PendingStream>, moves: seq<Move>,
               ghost w: World)
    returns (pending: seq<PendingStream>)
    requires Separate(config, budget, pending0) && Represents(w, budget, pending0)
    modifies Footprint(budget, pending0)
    ensures Separate(config, budget, pending) && Represents(Run(config, body, w, moves), budget, pending)
    ensures fresh(Footprint(budget, pending) - Footprint(budget, pending0))
    ensures pending0 <= pending
  {
    pending := pending0;
    for k := 0 to |moves|
      invariant Separate(config, budget, pending)
      invariant Represents(Run(config, body, w, moves[..k]), budget, pending)
      invariant fresh(Footprint(budget, pending) - Footprint(budget, pending0))
      invariant pending0 <= pending
    {
      assert moves[..k + 1][..k] == moves[..k];
      pending := DriveMove(config, body, budget, pending, moves[k], Run(config, body, w, moves[..k]));
    }
    assert moves[..|moves|] == moves;
  }
}
