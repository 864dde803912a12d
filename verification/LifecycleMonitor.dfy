/** The parent's loop over a running client: one check of the marker per round, until the client exits or fails. */
module LifecycleMonitor {
  import opened Common
  import opened ResourceSampler
  import opened PhaseMarkers

  /**
   What one round finds: the clock, the server, the marker file, and the probes, at the mark and when a sample is due.
   The last round is the look after the client has exited.
   */
  datatype Round = Round(
    late: bool,
    serverExited: bool,
    marker: Option<Mark>,
    atMark: seq<Sample>,
    due: bool,
    reap: bool,
    samples: seq<Sample>)

  datatype Complaint =
    | DeadlineExceeded
    | ServerExited
    | Sampling(failure: Failure)
    | ForceReap
    | ServerExitedEarly
    | ClientFailed

  function Complaints(failures: seq<Failure>): seq<Complaint> {
    seq(|failures|, i requires 0 <= i < |failures| => Sampling(failures[i]))
  }

  // ---------------------------------------------------------------- rounds as machine steps

  /** Before each check the worker may take any steps. */
  function MonitorRun(worker: seq<seq<Action>>): seq<Action> {
    if worker == [] then []
    else MonitorRun(worker[..|worker| - 1]) + worker[|worker| - 1] + [ReadMarker, WriteAck]
  }

  predicate WorkerOnly(actions: seq<Action>) {
    forall i :: 0 <= i < |actions| ==> actions[i].WriteMarker? || actions[i].Poll? || actions[i].Timeout?
  }

  ghost function Before(worker: seq<seq<Action>>, k: nat): Handshake
    requires k <= |worker|
  {
    Acts(START, MonitorRun(worker[..k]))
  }

  ghost function AtCheck(worker: seq<seq<Action>>, k: nat): Handshake
    requires k < |worker|
  {
    Acts(START, MonitorRun(worker[..k]) + worker[k])
  }

  lemma {:induction false} WorkerLeavesParent(h: Handshake, actions: seq<Action>)
    requires WorkerOnly(actions)
    ensures var after := Acts(h, actions);
      && after.ack == h.ack && after.sequence == h.sequence && after.recorded == h.recorded
      && after.pending == h.pending && after.refused == h.refused
  {
    if actions != [] { WorkerLeavesParent(h, actions[..|actions| - 1]); }
  }

  lemma RoundActs(worker: seq<seq<Action>>, k: nat)
    requires k < |worker| && WorkerOnly(worker[k])
    ensures Before(worker, k + 1) == Act(Act(AtCheck(worker, k), ReadMarker), WriteAck)
    ensures var at, before := AtCheck(worker, k), Before(worker, k);
      && at.ack == before.ack && at.sequence == before.sequence && at.recorded == before.recorded
      && at.pending == before.pending && at.refused == before.refused
  {
    assert worker[..k + 1][..k] == worker[..k];
    var run := MonitorRun(worker[..k]) + worker[k];
    assert run + [ReadMarker, WriteAck] == (run + [ReadMarker]) + [WriteAck];
    ActsSnoc(START, run, ReadMarker);
    ActsSnoc(START, run + [ReadMarker], WriteAck);
    ActsPlus(START, MonitorRun(worker[..k]), worker[k]);
    WorkerLeavesParent(Before(worker, k), worker[k]);
  }

  /** Each round finds the marker file as the worker left it. */
  ghost predicate Finds(rounds: seq<Round>, worker: seq<seq<Action>>) {
    && |rounds| == |worker|
    && forall k {:trigger AtCheck(worker, k)} :: 0 <= k < |rounds| ==>
         WorkerOnly(worker[k]) && rounds[k].marker == AtCheck(worker, k).marker
  }

  ghost predicate Probed(rounds: seq<Round>, roles: set<string>) {
    forall k :: 0 <= k < |rounds| ==> AllIn(rounds[k].atMark, roles) && AllIn(rounds[k].samples, roles)
  }

  predicate AllIn(samples: seq<Sample>, roles: set<string>) {
    forall i :: 0 <= i < |samples| ==> samples[i].role in roles
  }

  // ---------------------------------------------------------------- the loop

  /** The files and the sampler are where the machine is. */
  ghost predicate InStep(control: ControlDirectory, sampler: LifecycleResourceSampler, sequence: nat, g: Handshake)
    reads control`ack, sampler`phases
  {
    && control.ack == g.ack && sampler.phases == g.recorded && sequence == g.sequence
    && g.pending.None? && g.refused.None?
  }

  /** One check of the marker, on the files as the worker left them. */
  method Check(control: ControlDirectory, sampler: LifecycleResourceSampler, sequence: nat, round: Round,
               ghost worker: seq<seq<Action>>, ghost k: nat)
    returns (r: Result<(nat, seq<Failure>), Refusal>)
    requires k < |worker| && WorkerOnly(worker[k]) && round.marker == AtCheck(worker, k).marker
    requires sampler.Valid() && AllIn(round.atMark, sampler.peaks.Keys)
    requires InStep(control, sampler, sequence, Before(worker, k))
    modifies control, sampler
    ensures sampler.Valid() && sampler.peaks.Keys == old(sampler.peaks.Keys)
    ensures sampler.emitted == old(sampler.emitted) + if r.Ok? then r.value.1 else []
    ensures var g := Before(worker, k + 1);
      && control.marker == g.marker && control.ack == g.ack && sampler.phases == g.recorded
      && (r.Err? ==> g.refused == Some(r.error))
      && (r.Ok? ==> InStep(control, sampler, r.value.0, g))
  {
    RoundActs(worker, k);
    control.marker := round.marker;
    r := CheckMarker(control, sampler, sequence, round.atMark, AtCheck(worker, k));
  }

  /** A round that gives no reason to stop, apart from what the sampler says. */
  predicate Calm(round: Round) {
    !round.late && !round.serverExited && !(round.due && round.reap)
  }

  ghost predicate AllCalm(rounds: seq<Round>)
    requires rounds != []
  {
    (forall k :: 0 <= k < |rounds| - 1 ==> Calm(rounds[k])) && !rounds[|rounds| - 1].serverExited
  }

  /** One sample when it is due, or the worker's own request to be reaped. */
  method SampleRound(sampler: LifecycleResourceSampler, round: Round)
    returns (complaints: seq<Complaint>, ghost told: seq<Failure>)
    requires sampler.Valid() && AllIn(round.samples, sampler.peaks.Keys)
    modifies sampler`samples, sampler`truncated, sampler`peaks, sampler`observed, sampler`emitted
    ensures sampler.Valid() && sampler.peaks.Keys == old(sampler.peaks.Keys)
    ensures sampler.emitted == old(sampler.emitted) + told
    ensures complaints == if round.due && round.reap then [ForceReap] else Complaints(told)
    ensures (!round.due || round.reap) ==> told == []
  {
    complaints, told := [], [];
    if round.due {
      if round.reap { return [ForceReap], []; }
      var failures := sampler.TakeAll(round.samples);
      return Complaints(failures), failures;
    }
  }

  /** Files, sampler and refusal are the machine's when the loop ends with `r`. */
  ghost predicate EndsAt(control: ControlDirectory, sampler: LifecycleResourceSampler,
                         r: Result<seq<Complaint>, Refusal>, g: Handshake)
    reads control`ack, sampler`phases
  {
    control.ack == g.ack && sampler.phases == g.recorded && g.refused == if r.Err? then Some(r.error) else None
  }

  /** The check of one round: a refusal or a sampling failure ends the loop. */
  method CheckRound(control: ControlDirectory, sampler: LifecycleResourceSampler, sequence: nat, round: Round,
                    ghost worker: seq<seq<Action>>, ghost k: nat)
    returns (next: nat, stop: Option<Result<seq<Complaint>, Refusal>>, ghost told: seq<Failure>)
    requires k < |worker| && WorkerOnly(worker[k]) && round.marker == AtCheck(worker, k).marker
    requires sampler.Valid() && AllIn(round.atMark, sampler.peaks.Keys)
    requires InStep(control, sampler, sequence, Before(worker, k))
    modifies control, sampler
    ensures sampler.Valid() && sampler.peaks.Keys == old(sampler.peaks.Keys)
    ensures sampler.emitted == old(sampler.emitted) + told
    ensures stop.None? ==> told == [] && InStep(control, sampler, next, Before(worker, k + 1))
    ensures stop.Some? ==> EndsAt(control, sampler, stop.value, Before(worker, k + 1))
    ensures stop.Some? && stop.value.Ok? ==> told != [] && stop.value.value == Complaints(told)
  {
    var checked := Check(control, sampler, sequence, round, worker, k);
    if checked.Err? { return sequence, Some(Err(checked.error)), []; }
    if checked.value.1 != [] { return sequence, Some(Ok(Complaints(checked.value.1))), checked.value.1; }
    return checked.value.0, None, [];
  }

  /** What the loop returns from a round while the client runs, the sampler having said `told`. */
  function StopsWith(round: Round, told: seq<Failure>): seq<Complaint> {
    if round.late then [DeadlineExceeded]
    else if round.serverExited then [ServerExited]
    else if told != [] then Complaints(told)
    else [ForceReap]
  }

  /** What it returns after the client has exited: everything there is to say. */
  function EndsWith(round: Round, told: seq<Failure>, clientFailed: bool): seq<Complaint> {
    Complaints(told) + (if round.serverExited then [ServerExitedEarly] else [])
    + if clientFailed then [ClientFailed] else []
  }

  /** A round while the client runs: tested in the program's order, and over with the first reason to stop. */
  method ActiveRound(control: ControlDirectory, sampler: LifecycleResourceSampler, sequence: nat, round: Round,
                     ghost worker: seq<seq<Action>>, ghost k: nat)
    returns (next: nat, stop: Option<Result<seq<Complaint>, Refusal>>, ghost checks: nat, ghost told: seq<Failure>)
    requires k < |worker| && WorkerOnly(worker[k]) && round.marker == AtCheck(worker, k).marker
    requires sampler.Valid() && AllIn(round.atMark, sampler.peaks.Keys) && AllIn(round.samples, sampler.peaks.Keys)
    requires InStep(control, sampler, sequence, Before(worker, k))
    modifies control, sampler
    ensures sampler.Valid() && sampler.peaks.Keys == old(sampler.peaks.Keys)
    ensures sampler.emitted == old(sampler.emitted) + told
    ensures checks == if round.late || round.serverExited then k else k + 1
    ensures stop.None? ==> Calm(round) && told == [] && InStep(control, sampler, next, Before(worker, k + 1))
    ensures stop.Some? ==> EndsAt(control, sampler, stop.value, Before(worker, checks))
    ensures stop.Some? && stop.value.Ok? ==>
      stop.value.value == StopsWith(round, told) && (told != [] || !Calm(round))
  {
    if round.late { return sequence, Some(Ok([DeadlineExceeded])), k, []; }
    if round.serverExited { return sequence, Some(Ok([ServerExited])), k, []; }
    checks := k + 1;
    next, stop, told := CheckAndSample(control, sampler, sequence, round, worker, k);
  }

  method CheckAndSample(control: ControlDirectory, sampler: LifecycleResourceSampler, sequence: nat, round: Round,
                        ghost worker: seq<seq<Action>>, ghost k: nat)
    returns (next: nat, stop: Option<Result<seq<Complaint>, Refusal>>, ghost told: seq<Failure>)
    requires k < |worker| && WorkerOnly(worker[k]) && round.marker == AtCheck(worker, k).marker
    requires sampler.Valid() && AllIn(round.atMark, sampler.peaks.Keys) && AllIn(round.samples, sampler.peaks.Keys)
    requires InStep(control, sampler, sequence, Before(worker, k))
    modifies control, sampler
    ensures sampler.Valid() && sampler.peaks.Keys == old(sampler.peaks.Keys)
    ensures sampler.emitted == old(sampler.emitted) + told
    ensures stop.None? ==>
      !(round.due && round.reap) && told == [] && InStep(control, sampler, next, Before(worker, k + 1))
    ensures stop.Some? ==> EndsAt(control, sampler, stop.value, Before(worker, k + 1))
    ensures stop.Some? && stop.value.Ok? ==>
      && (told == [] ==> round.due && round.reap)
      && stop.value.value == if told != [] then Complaints(told) else [ForceReap]
  {
    next, stop, told := CheckRound(control, sampler, sequence, round, worker, k);
    if stop.Some? { return; }
    var complaints: seq<Complaint>;
    complaints, told := SampleRound(sampler, round);
    if complaints != [] { stop := Some(Ok(complaints)); }
  }

  /** The look after the client has exited: a last check, then how server and client ended. */
  method FinalRound(control: ControlDirectory, sampler: LifecycleResourceSampler, sequence: nat, round: Round,
                    clientFailed: bool, ghost worker: seq<seq<Action>>, ghost k: nat)
    returns (r: Result<seq<Complaint>, Refusal>, ghost told: seq<Failure>)
    requires k < |worker| && WorkerOnly(worker[k]) && round.marker == AtCheck(worker, k).marker
    requires sampler.Valid() && AllIn(round.atMark, sampler.peaks.Keys)
    requires InStep(control, sampler, sequence, Before(worker, k))
    modifies control, sampler
    ensures sampler.Valid() && sampler.emitted == old(sampler.emitted) + told
    ensures EndsAt(control, sampler, r, Before(worker, k + 1))
    ensures r.Ok? ==> r.value == EndsWith(round, told, clientFailed)
  {
    var checked := Check(control, sampler, sequence, round, worker, k);
    if checked.Err? { return Err(checked.error), []; }
    var complaints := Complaints(checked.value.1);
    if round.serverExited { complaints := complaints + [ServerExitedEarly]; }
    if clientFailed { complaints := complaints + [ClientFailed]; }
    return Ok(complaints), checked.value.1;
  }

  /**
   `monitor_client`: every round is the worker's steps followed by one check, so the whole loop is a run of the
   machine; it ends without complaint exactly when every round was calm, the sampler had nothing to say, and client and
   server ended as they should.
   */
  method MonitorClient(control: ControlDirectory, sampler: LifecycleResourceSampler, rounds: seq<Round>,
                       clientFailed: bool, ghost worker: seq<seq<Action>>)
    returns (r: Result<seq<Complaint>, Refusal>, ghost checks: nat, ghost at: nat, ghost told: seq<Failure>)
    requires rounds != [] && Finds(rounds, worker) && Probed(rounds, sampler.peaks.Keys) && sampler.Valid()
    requires InStep(control, sampler, 0, START)
    modifies control, sampler
    ensures sampler.Valid() && sampler.emitted == old(sampler.emitted) + told
    ensures checks <= |rounds| && EndsAt(control, sampler, r, Before(worker, checks))
    ensures at < |rounds| && at <= checks <= at + 1 && forall k :: 0 <= k < at ==> Calm(rounds[k])
    ensures r.Ok? ==>
      r.value == if at == |rounds| - 1 then EndsWith(rounds[at], told, clientFailed) else StopsWith(rounds[at], told)
    ensures r.Ok? ==> (r.value == [] <==> AllCalm(rounds) && told == [] && !clientFailed)
    ensures r.Ok? && r.value == [] ==> checks == |rounds|
  {
    var sequence, last := 0, |rounds| - 1;
    assert worker[..0] == [];
    for k := 0 to last
      invariant sampler.Valid() && sampler.peaks.Keys == old(sampler.peaks.Keys)
      invariant sampler.emitted == old(sampler.emitted)
      invariant forall i :: 0 <= i < k ==> Calm(rounds[i])
      invariant InStep(control, sampler, sequence, Before(worker, k))
    {
      assert rounds[k].marker == AtCheck(worker, k).marker;
      var stop: Option<Result<seq<Complaint>, Refusal>>;
      sequence, stop, checks, told := ActiveRound(control, sampler, sequence, rounds[k], worker, k);
      if stop.Some? { return stop.value, checks, k, told; }
    }
    assert rounds[last].marker == AtCheck(worker, last).marker;
    r, told := FinalRound(control, sampler, sequence, rounds[last], clientFailed, worker, last);
    checks, at := |rounds|, last;
  }
}
