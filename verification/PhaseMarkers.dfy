/**
 Phase markers between two processes over two atomically replaced files: the worker writes a marker and polls for
 its acknowledgement; the parent reads the marker, records the phase and acknowledges it.
 */
module PhaseMarkers {
  import opened Common
  import opened ResourceSampler

  const MAX_PHASES := 256
  const MAX_PHASE_NAME := 128

  datatype Refusal = InvalidSequence | OutOfOrder | InvalidName

  /** One finished call of the worker's `mark`. */
  datatype Call = Done(phase: string) | GivenUp(phase: string)

  /**
   The state of the handshake. `pending` is a marker the parent has recorded but not yet acknowledged; `calls` are the
   worker's finished calls, in order.
   */
  datatype Handshake = Handshake(
    marker: Option<Mark>,
    ack: Option<int>,
    acked: seq<Mark>,
    waiting: Option<Mark>,
    sequence: int,
    recorded: seq<Mark>,
    pending: Option<Mark>,
    refused: Option<Refusal>,
    calls: seq<Call>)

  const START := Handshake(None, None, [], None, 0, [], None, None, [])

  datatype Action =
    | WriteMarker(phase: string)
    | Poll
    | Timeout
    | ReadMarker
    | WriteAck

  /** The names the parent takes. */
  predicate Acceptable(phase: string) {
    0 < |phase| <= MAX_PHASE_NAME
  }

  /** What the parent makes of the marker it read. */
  datatype Reading = Nothing | Next(mark: Mark) | Refused(reason: Refusal)

  function ReadingOf(marker: Option<Mark>, sequence: int): Reading {
    if marker.None? then Nothing
    else if marker.value.sequence < 1 then Refused(InvalidSequence)
    else if marker.value.sequence == sequence then Nothing
    else if marker.value.sequence != sequence + 1 || marker.value.sequence > MAX_PHASES then Refused(OutOfOrder)
    else if !Acceptable(marker.value.phase) then Refused(InvalidName)
    else Next(marker.value)
  }

  function Act(h: Handshake, a: Action): Handshake {
    match a
    case WriteMarker(phase) =>
      if h.waiting.Some? then h
      else
        var m := Mark(|h.acked| + 1, phase);
        h.(marker := Some(m), waiting := Some(m))
    case Poll =>
      if h.waiting.Some? && h.ack == Some(h.waiting.value.sequence) then
        h.(acked := h.acked + [h.waiting.value], waiting := None, calls := h.calls + [Done(h.waiting.value.phase)])
      else h
    case Timeout =>
      if h.waiting.None? then h
      else h.(waiting := None, calls := h.calls + [GivenUp(h.waiting.value.phase)])
    case ReadMarker =>
      if h.refused.Some? || h.pending.Some? then h
      else
        (match ReadingOf(h.marker, h.sequence)
         case Nothing => h
         case Next(m) => h.(recorded := h.recorded + [m], pending := Some(m))
         case Refused(reason) => h.(refused := Some(reason)))
    case WriteAck =>
      if h.pending.None? then h
      else h.(ack := Some(h.pending.value.sequence), sequence := h.pending.value.sequence, pending := None)
  }

  /** The parent can take `m`: the next number of its count, within the limit, under a nonempty name that fits. */
  predicate Fits(m: Mark, sequence: int) {
    m.sequence == sequence + 1 && 1 <= m.sequence <= MAX_PHASES && m.phase != "" && |m.phase| <= MAX_PHASE_NAME
  }

  /**
   One read of an idle parent: it takes the marker exactly when it fits, refuses exactly what is neither next nor the
   one it already has, or next under a name that does not fit, and otherwise leaves everything as it is.
   */
  lemma ReadDecides(h: Handshake)
    requires h.refused.None? && h.pending.None? && h.sequence >= 0
    ensures var after := Act(h, ReadMarker);
      && (after.pending.Some? <==> h.marker.Some? && Fits(h.marker.value, h.sequence))
      && (after.pending.Some? ==> after.pending == h.marker && after.recorded == h.recorded + [h.marker.value])
      && (after.refused.Some? <==>
            && h.marker.Some? && !Fits(h.marker.value, h.sequence)
            && (h.marker.value.sequence != h.sequence || h.sequence == 0))
      && (after.refused == Some(InvalidSequence) <==> h.marker.Some? && h.marker.value.sequence < 1)
      && (after.refused == Some(InvalidName) <==>
            && h.marker.Some? && h.marker.value.sequence == h.sequence + 1 <= MAX_PHASES
            && (h.marker.value.phase == "" || |h.marker.value.phase| > MAX_PHASE_NAME))
      && after.sequence == h.sequence && after.ack == h.ack
      && (after.pending.None? ==> after == h.(refused := after.refused))
  {
  }

  function Acts(h: Handshake, actions: seq<Action>): Handshake {
    if actions == [] then h else Act(Acts(h, actions[..|actions| - 1]), actions[|actions| - 1])
  }

  // ---------------------------------------------------------------- invariant

  ghost predicate Numbered(marks: seq<Mark>) {
    forall i :: 0 <= i < |marks| ==> marks[i].sequence == i + 1
  }

  /** The parent is never more than one acknowledged phase ahead, and never behind. */
  ghost predicate Lockstep(h: Handshake) {
    && Numbered(h.acked) && Numbered(h.recorded)
    && 0 <= |h.acked| <= h.sequence <= |h.acked| + 1 && h.sequence <= MAX_PHASES
    && |h.recorded| == h.sequence + (if h.pending.Some? then 1 else 0)
    && h.ack == (if h.sequence == 0 then None else Some(h.sequence))
    && (h.pending.Some? ==>
          h.pending.value == h.recorded[h.sequence] && h.sequence == |h.acked| && h.sequence < MAX_PHASES)
    && (h.waiting.Some? ==> h.marker == h.waiting && h.waiting.value.sequence == |h.acked| + 1)
    && (h.marker.Some? ==> h.marker.value.sequence == |h.acked| || h.marker.value.sequence == |h.acked| + 1)
    && (h.marker.Some? ==> h.marker.value.sequence >= 1)
    && (h.marker.None? ==> h.sequence == 0 && h.pending.None?)
    && (h.pending.Some? || h.sequence > |h.acked| ==> h.marker.Some? && h.marker.value.sequence == |h.acked| + 1)
    && h.refused != Some(InvalidSequence)
    && (h.refused == Some(OutOfOrder) ==> |h.acked| >= MAX_PHASES)
  }

  lemma ActKeeps(h: Handshake, a: Action)
    requires Lockstep(h)
    ensures Lockstep(Act(h, a))
  {
  }

  lemma {:induction false} ActsKeep(h: Handshake, actions: seq<Action>)
    requires Lockstep(h)
    ensures Lockstep(Acts(h, actions))
  {
    if actions != [] {
      ActsKeep(h, actions[..|actions| - 1]);
      ActKeeps(Acts(h, actions[..|actions| - 1]), actions[|actions| - 1]);
    }
  }

  lemma {:induction false} ActsPlus(h: Handshake, xs: seq<Action>, ys: seq<Action>)
    ensures Acts(h, xs + ys) == Acts(Acts(h, xs), ys)
  {
    if ys == [] {
      assert xs + ys == xs;
    } else {
      ActsPlus(h, xs, ys[..|ys| - 1]);
      assert (xs + ys)[..|xs + ys| - 1] == xs + ys[..|ys| - 1];
    }
  }

  lemma ActsSnoc(h: Handshake, xs: seq<Action>, a: Action)
    ensures Acts(h, xs + [a]) == Act(Acts(h, xs), a)
  {
    assert (xs + [a])[..|xs + [a]| - 1] == xs;
  }

  // ---------------------------------------------------------------- results

  /**
   Numeric lockstep in every interleaving, timeouts included: the parent's count of acknowledged phases is the
   worker's or one more, it has recorded exactly the sequences 1, 2, ..., and markers are out of order only past
   the phase limit.
   */
  lemma NumericLockstep(actions: seq<Action>)
    ensures var h := Acts(START, actions);
      && 0 <= |h.acked| <= h.sequence <= |h.acked| + 1
      && (forall i :: 0 <= i < |h.recorded| ==> h.recorded[i].sequence == i + 1)
      && h.sequence <= |h.recorded| <= h.sequence + 1 && |h.recorded| <= MAX_PHASES
      && (forall i :: 0 <= i < |h.acked| ==> h.acked[i].sequence == i + 1)
      && h.refused != Some(InvalidSequence)
      && (h.refused == Some(OutOfOrder) ==> |h.acked| == MAX_PHASES)
  {
    ActsKeep(START, actions);
  }

  /** Progress: with nothing in its way, one read, one acknowledgement and one poll complete a phase on both sides. */
  lemma PhaseCompletes(actions: seq<Action>, phase: string)
    requires var h := Acts(START, actions);
      h.waiting.None? && h.pending.None? && h.refused.None? && h.sequence == |h.acked| < MAX_PHASES
    requires Acceptable(phase)
    ensures var h := Acts(START, actions);
      var done := Act(Act(Act(Act(h, WriteMarker(phase)), ReadMarker), WriteAck), Poll);
      var m := Mark(h.sequence + 1, phase);
      && done.acked == h.acked + [m] && done.recorded == h.recorded + [m]
      && done.sequence == h.sequence + 1 && done.waiting.None? && done.refused.None?
  {
    ActsKeep(START, actions);
  }

  // ---------------------------------------------------------------- the worker between its looks

  predicate ParentOnly(actions: seq<Action>) {
    forall i :: 0 <= i < |actions| ==> actions[i].ReadMarker? || actions[i].WriteAck?
  }

  lemma {:induction false} ParentLeavesWorker(h: Handshake, actions: seq<Action>)
    requires ParentOnly(actions)
    ensures var after := Acts(h, actions);
      after.marker == h.marker && after.waiting == h.waiting && after.acked == h.acked && after.calls == h.calls
  {
    if actions != [] { ParentLeavesWorker(h, actions[..|actions| - 1]); }
  }

  /** One call of `mark` as machine steps: before each look the parent may take any steps of its own. */
  function MarkRun(phase: string, parent: seq<seq<Action>>): seq<Action> {
    if parent == [] then [WriteMarker(phase)]
    else MarkRun(phase, parent[..|parent| - 1]) + parent[|parent| - 1] + [Poll]
  }

  function WholeRun(phase: string, parent: seq<seq<Action>>, acknowledged: bool): seq<Action> {
    if acknowledged then MarkRun(phase, parent) else MarkRun(phase, parent) + [Timeout]
  }

  /** The worker awaits `m`; its calls and phases are still those of `h`. */
  ghost predicate Awaiting(g: Handshake, h: Handshake, m: Mark) {
    g.waiting == Some(m) == g.marker && g.acked == h.acked && g.calls == h.calls
  }

  /** The worker's call is over. */
  ghost predicate Finished(g: Handshake, h: Handshake, m: Mark, acknowledged: bool) {
    && g.waiting.None? && g.marker == Some(m)
    && g.acked == (if acknowledged then h.acked + [m] else h.acked)
    && g.calls == h.calls + [if acknowledged then Done(m.phase) else GivenUp(m.phase)]
  }

  /** What look number `k` finds in the acknowledgement file. */
  ghost function SeenAt(h: Handshake, phase: string, parent: seq<seq<Action>>, k: nat): Option<int>
    requires k < |parent|
  {
    Acts(h, MarkRun(phase, parent[..k]) + parent[k]).ack
  }

  lemma MarkBegins(h: Handshake, phase: string)
    requires h.waiting.None?
    ensures Awaiting(Acts(h, MarkRun(phase, [])), h, Mark(|h.acked| + 1, phase))
  {
    ActsSnoc(h, [], WriteMarker(phase));
    assert [] + [WriteMarker(phase)] == MarkRun(phase, []);
  }

  lemma MarkLooks(h: Handshake, m: Mark, parent: seq<seq<Action>>, k: nat)
    requires k < |parent| && ParentOnly(parent[k]) && Awaiting(Acts(h, MarkRun(m.phase, parent[..k])), h, m)
    ensures var after := Acts(h, MarkRun(m.phase, parent[..k + 1]));
      if SeenAt(h, m.phase, parent, k) == Some(m.sequence) then Finished(after, h, m, true) else Awaiting(after, h, m)
  {
    assert parent[..k + 1][..k] == parent[..k];
    var run := MarkRun(m.phase, parent[..k]);
    ActsPlus(h, run, parent[k]);
    ParentLeavesWorker(Acts(h, run), parent[k]);
    ActsSnoc(h, run + parent[k], Poll);
  }

  lemma MarkGivesUp(h: Handshake, m: Mark, parent: seq<seq<Action>>)
    requires Awaiting(Acts(h, MarkRun(m.phase, parent)), h, m)
    ensures Finished(Acts(h, WholeRun(m.phase, parent, false)), h, m, false)
  {
    ActsSnoc(h, MarkRun(m.phase, parent), Timeout);
  }

  /** Each look sees the acknowledgement file as the parent left it. */
  ghost predicate Sees(h: Handshake, phase: string, looks: seq<Look>, parent: seq<seq<Action>>) {
    && |parent| == |looks|
    && forall k {:trigger SeenAt(h, phase, parent, k)} :: 0 <= k < |looks| ==>
         ParentOnly(parent[k]) && looks[k].ack == SeenAt(h, phase, parent, k)
  }

  // ---------------------------------------------------------------- the parent's code

  /** The two files of the control directory. */
  class ControlDirectory {
    var marker: Option<Mark>
    var ack: Option<int>

    constructor ()
      ensures marker == None && ack == None
    {
      marker, ack := None, None;
    }
  }

  /** One look at the acknowledgement file, and whether the deadline had passed by then. */
  datatype Look = Look(ack: Option<int>, late: bool)

  class Worker {
    var phases: seq<Mark>

    constructor ()
      ensures phases == []
    {
      phases := [];
    }

    /**
     `mark`: writes the marker and polls until it is acknowledged or the deadline passes. A timed-out phase leaves no
     trace but its marker, so the next phase takes the same sequence number. Between the looks the parent moves as it
     likes; together they take steps of the machine.
     */
    method Mark(control: ControlDirectory, phase: string, looks: seq<Look>, ghost parent: seq<seq<Action>>,
                ghost h: Handshake)
      returns (acknowledged: bool, ghost looked: nat)
      requires looks != [] && looks[|looks| - 1].late
      requires h.acked == phases && h.waiting.None? && Sees(h, phase, looks, parent)
      modifies this, control`marker
      ensures 1 <= looked <= |looks|
      ensures var m := ResourceSampler.Mark(|old(phases)| + 1, phase);
        && control.marker == Some(m)
        && (forall j :: 0 <= j < looked - 1 ==> looks[j].ack != Some(m.sequence) && !looks[j].late)
        && (acknowledged <==> looks[looked - 1].ack == Some(m.sequence))
        && (acknowledged || looks[looked - 1].late)
        && phases == if acknowledged then old(phases) + [m] else old(phases)
      ensures Finished(Acts(h, WholeRun(phase, parent[..looked], acknowledged)), h,
                       ResourceSampler.Mark(|h.acked| + 1, phase), acknowledged)
    {
      var m := ResourceSampler.Mark(|phases| + 1, phase);
      control.marker := Some(m);
      MarkBegins(h, phase);
      assert parent[..0] == [];
      var k := 0;
      while true
        invariant k < |looks| && phases == old(phases) && control.marker == Some(m)
        invariant forall j :: 0 <= j < k ==> looks[j].ack != Some(m.sequence) && !looks[j].late
        invariant Awaiting(Acts(h, MarkRun(phase, parent[..k])), h, m)
        decreases |looks| - k
      {
        assert looks[k].ack == SeenAt(h, phase, parent, k);
        MarkLooks(h, m, parent, k);
        if looks[k].ack == Some(m.sequence) {
          phases := phases + [m];
          return true, k + 1;
        }
        if looks[k].late {
          MarkGivesUp(h, m, parent[..k + 1]);
          return false, k + 1;
        }
        k := k + 1;
      }
    }
  }

  /**
   `check_marker`, uninterrupted: reading and acknowledging are the machine's two parent steps, the sampler records
   the phase in between, and a refused marker changes nothing.
   */
  method CheckMarker(control: ControlDirectory, sampler: LifecycleResourceSampler, sequence: nat,
                     observations: seq<Sample>, ghost h: Handshake)
    returns (r: Result<(nat, seq<Failure>), Refusal>)
    requires sampler.Valid() && forall k :: 0 <= k < |observations| ==> observations[k].role in sampler.peaks
    requires h.marker == control.marker && h.ack == control.ack && h.sequence == sequence
    requires h.recorded == sampler.phases && h.pending.None? && h.refused.None?
    modifies control, sampler
    ensures sampler.Valid() && sampler.peaks.Keys == old(sampler.peaks.Keys)
    ensures var after := Act(Act(h, ReadMarker), WriteAck);
      && control.marker == after.marker && control.ack == after.ack && sampler.phases == after.recorded
      && (r.Err? <==> after.refused.Some?) && (r.Err? ==> after.refused == Some(r.error))
      && (r.Ok? ==> r.value.0 == after.sequence)
    ensures sampler.observed
         == old(sampler.observed) + if sampler.phases != old(sampler.phases) then observations else []
    ensures sampler.emitted == old(sampler.emitted) + if r.Ok? then r.value.1 else []
  {
    var reading := Inspect(control.marker, sequence);
    match reading {
      case Nothing => r := Ok((sequence, []));
      case Refused(reason) => r := Err(reason);
      case Next(marker) =>
        var failures := sampler.MarkPhase(marker, observations);
        control.ack := Some(marker.sequence);
        r := Ok((marker.sequence, failures));
    }
  }

  /** The checks on a marker, in their order. */
  method Inspect(found: Option<Mark>, sequence: nat) returns (reading: Reading)
    ensures reading == ReadingOf(found, sequence)
  {
    if found.None? { return Nothing; }
    var marker := found.value;
    if marker.sequence < 1 { return Refused(InvalidSequence); }
    if marker.sequence == sequence { return Nothing; }
    if marker.sequence != sequence + 1 || marker.sequence > MAX_PHASES { return Refused(OutOfOrder); }
    if marker.phase == "" || |marker.phase| > MAX_PHASE_NAME { return Refused(InvalidName); }
    reading := Next(marker);
  }
}
