/**
 The names of the phases. The two sides of the marker handshake agree on numbers in every run; on names they agree in
 every run if and only if the worker, after giving a phase up, marks no other name before its next success.
 */
module PhaseNames {
  import opened Common
  import opened ResourceSampler
  import opened PhaseMarkers

  // ---------------------------------------------------------------- what a worker marks

  function DoneCount(calls: seq<Call>): nat {
    if calls == [] then 0
    else DoneCount(calls[..|calls| - 1]) + if calls[|calls| - 1].Done? then 1 else 0
  }

  /** The worker reuses a name it gave up and the parent could have taken, while there is room for a phase. */
  predicate Reuses(calls: seq<Call>, phase: string) {
    calls != [] && calls[|calls| - 1].GivenUp? && Acceptable(calls[|calls| - 1].phase) && DoneCount(calls) < MAX_PHASES
    ==> phase == calls[|calls| - 1].phase
  }

  /** A script says which names the worker may mark after the calls made so far. */
  type Script = (seq<Call>, string) -> bool

  /** The calls are ones the script allows, one after the other. */
  ghost predicate Permitted(calls: seq<Call>, script: Script) {
    forall i :: 0 <= i < |calls| ==> script(calls[..i], calls[i].phase)
  }

  /** The parent can have acknowledged the calls that were done. */
  ghost predicate Plausible(calls: seq<Call>) {
    DoneCount(calls) <= MAX_PHASES && forall i :: 0 <= i < |calls| && calls[i].Done? ==> Acceptable(calls[i].phase)
  }

  /** The condition on the script: no other name between a timeout and the next success. */
  ghost predicate ReusesNames(script: Script) {
    forall calls, phase ::
      Permitted(calls, script) && Plausible(calls) && script(calls, phase) ==> Reuses(calls, phase)
  }

  /** Every marker written in the run is one the script allows. */
  ghost predicate Follows(h: Handshake, actions: seq<Action>, script: Script) {
    actions == [] ||
    var init, last := actions[..|actions| - 1], actions[|actions| - 1];
    && Follows(h, init, script)
    && (last.WriteMarker? && Acts(h, init).waiting.None? ==> script(Acts(h, init).calls, last.phase))
  }

  ghost predicate Agree(h: Handshake) {
    h.acked <= h.recorded
  }

  // ---------------------------------------------------------------- reused names agree

  predicate EndsGivenUp(calls: seq<Call>, phase: string) {
    calls != [] && calls[|calls| - 1] == GivenUp(phase)
  }

  /** The phase the parent is ahead by is the one the worker awaits, or the last one it gave up. */
  ghost predicate Known(h: Handshake) {
    && (h.pending.Some? || h.sequence > |h.acked| ==>
          && |h.acked| < |h.recorded|
          && if h.waiting.Some? then h.waiting.value == h.recorded[|h.acked|]
             else EndsGivenUp(h.calls, h.recorded[|h.acked|].phase))
    && (h.marker.Some? && h.waiting.None? && h.marker.value.sequence == |h.acked| + 1 ==>
          EndsGivenUp(h.calls, h.marker.value.phase))
  }

  ghost predicate SameNames(h: Handshake) {
    && Agree(h) && Known(h)
    && (forall i :: 0 <= i < |h.recorded| ==> Acceptable(h.recorded[i].phase))
    && DoneCount(h.calls) == |h.acked| && Plausible(h.calls)
  }

  lemma CallsSnoc(calls: seq<Call>, last: Call)
    ensures DoneCount(calls + [last]) == DoneCount(calls) + if last.Done? then 1 else 0
    ensures Plausible(calls) && (last.Done? ==> Acceptable(last.phase) && DoneCount(calls) < MAX_PHASES) ==>
      Plausible(calls + [last])
  {
    assert (calls + [last])[..|calls|] == calls;
  }

  lemma PermittedSnoc(calls: seq<Call>, last: Call, script: Script)
    requires Permitted(calls, script) && script(calls, last.phase)
    ensures Permitted(calls + [last], script)
  {
    forall i | 0 <= i < |calls + [last]|
      ensures script((calls + [last])[..i], (calls + [last])[i].phase)
    {
      assert (calls + [last])[..i] == calls[..i];
      assert calls[..|calls|] == calls;
    }
  }

  lemma PermittedInit(calls: seq<Call>, script: Script)
    requires Permitted(calls, script) && calls != []
    ensures Permitted(calls[..|calls| - 1], script) && script(calls[..|calls| - 1], calls[|calls| - 1].phase)
  {
    var init := calls[..|calls| - 1];
    forall i | 0 <= i < |init| ensures script(init[..i], init[i].phase) {
      assert init[..i] == calls[..i];
    }
  }

  lemma WriteKeeps(h: Handshake, phase: string)
    requires Lockstep(h) && SameNames(h) && (h.waiting.None? ==> Reuses(h.calls, phase))
    ensures SameNames(Act(h, WriteMarker(phase)))
  {
  }

  lemma PollKeeps(h: Handshake)
    requires Lockstep(h) && SameNames(h)
    ensures SameNames(Act(h, Poll))
  {
    if h.waiting.Some? {
      CallsSnoc(h.calls, Done(h.waiting.value.phase));
    }
  }

  lemma OtherKeeps(h: Handshake, a: Action)
    requires Lockstep(h) && SameNames(h) && (a.Timeout? || a.ReadMarker? || a.WriteAck?)
    ensures SameNames(Act(h, a))
  {
    if h.waiting.Some? {
      CallsSnoc(h.calls, GivenUp(h.waiting.value.phase));
    }
  }

  /** What the awaited marker's call was allowed by. */
  ghost predicate WaitingAllowed(h: Handshake, script: Script) {
    Permitted(h.calls, script) && (h.waiting.Some? ==> script(h.calls, h.waiting.value.phase))
  }

  lemma ActKeepsAllowed(h: Handshake, a: Action, script: Script)
    requires WaitingAllowed(h, script)
    requires a.WriteMarker? && h.waiting.None? ==> script(h.calls, a.phase)
    ensures WaitingAllowed(Act(h, a), script)
  {
    if h.waiting.Some? {
      PermittedSnoc(h.calls, Done(h.waiting.value.phase), script);
      PermittedSnoc(h.calls, GivenUp(h.waiting.value.phase), script);
    }
  }

  lemma {:induction false} FollowersAgree(actions: seq<Action>, script: Script)
    requires ReusesNames(script) && Follows(START, actions, script)
    ensures SameNames(Acts(START, actions)) && WaitingAllowed(Acts(START, actions), script)
  {
    if actions != [] {
      var init, last := actions[..|actions| - 1], actions[|actions| - 1];
      FollowersAgree(init, script);
      ActsKeep(START, init);
      var h := Acts(START, init);
      ActKeepsAllowed(h, last, script);
      match last
      case WriteMarker(phase) => WriteKeeps(h, phase);
      case Poll => PollKeeps(h);
      case _ => OtherKeeps(h, last);
    }
  }

  /** The script of every worker that reuses names, whatever else it does. */
  const REUSING: Script := (calls, phase) => Reuses(calls, phase)

  /**
   In every run in which each marker written after a timeout, and before the next success, carries the name given up,
   the worker's acknowledged phases are a prefix of the parent's.
   */
  lemma NamesAgree(actions: seq<Action>)
    requires Follows(START, actions, REUSING)
    ensures Agree(Acts(START, actions))
  {
    FollowersAgree(actions, REUSING);
  }

  function Timeouts(actions: seq<Action>): nat {
    if actions == [] then 0
    else Timeouts(actions[..|actions| - 1]) + if actions[|actions| - 1].Timeout? then 1 else 0
  }

  /** So they do in every run without a timeout. */
  lemma {:induction false} PatientNamesAgree(actions: seq<Action>)
    requires Timeouts(actions) == 0
    ensures Agree(Acts(START, actions))
    ensures Follows(START, actions, REUSING)
    ensures forall i :: 0 <= i < |Acts(START, actions).calls| ==> Acts(START, actions).calls[i].Done?
  {
    if actions != [] {
      PatientNamesAgree(actions[..|actions| - 1]);
    }
    NamesAgree(actions);
  }

  // ---------------------------------------------------------------- other names disagree

  /** Nothing is under way, and both sides know the same phases. */
  ghost predicate Idle(h: Handshake) {
    && Lockstep(h) && h.acked == h.recorded && h.sequence == |h.acked|
    && h.waiting.None? && h.pending.None? && h.refused.None?
  }

  function Complete(phase: string): seq<Action> {
    [WriteMarker(phase), ReadMarker, WriteAck, Poll]
  }

  function GiveUp(phase: string): seq<Action> {
    [WriteMarker(phase), Poll, Timeout]
  }

  /** The worker gives a phase up after the parent took it, and marks another one. */
  function Split(a: string, b: string): seq<Action> {
    [WriteMarker(a), Poll, ReadMarker, WriteAck] + [Timeout, WriteMarker(b), Poll]
  }

  lemma Three(h: Handshake, a: Action, b: Action, c: Action)
    ensures Acts(h, [a, b, c]) == Act(Act(Act(h, a), b), c)
    ensures Acts(h, [a, b]) == Act(Act(h, a), b) && Acts(h, [a]) == Act(h, a)
  {
    assert [a] == [] + [a] && [a, b] == [a] + [b] && [a, b, c] == [a, b] + [c];
    ActsSnoc(h, [], a);
    ActsSnoc(h, [a], b);
    ActsSnoc(h, [a, b], c);
  }

  lemma Four(h: Handshake, a: Action, b: Action, c: Action, d: Action)
    ensures Acts(h, [a, b, c, d]) == Act(Act(Act(Act(h, a), b), c), d)
  {
    Three(h, a, b, c);
    assert [a, b, c, d] == [a, b, c] + [d];
    ActsSnoc(h, [a, b, c], d);
  }

  /** The parent has taken and acknowledged phase `a`; the worker still awaits it. */
  lemma Taken(h: Handshake, a: string)
    requires Idle(h) && |h.acked| < MAX_PHASES && Acceptable(a)
    ensures var m := Mark(|h.acked| + 1, a);
      Acts(h, [WriteMarker(a), Poll, ReadMarker, WriteAck])
      == h.(marker := Some(m), waiting := Some(m), recorded := h.recorded + [m], sequence := m.sequence,
            ack := Some(m.sequence))
  {
    Four(h, WriteMarker(a), Poll, ReadMarker, WriteAck);
    var m := Mark(|h.acked| + 1, a);
    var h1 := Act(h, WriteMarker(a));
    assert h1 == h.(marker := Some(m), waiting := Some(m));
    assert Act(h1, Poll) == h1;
    assert ReadingOf(h1.marker, h1.sequence) == Next(m);
  }

  /** From every idle state with room for a phase, giving one up after the parent took it and marking another splits. */
  lemma TimeoutSplitsNames(h: Handshake, a: string, b: string)
    requires Idle(h) && |h.acked| < MAX_PHASES && Acceptable(a) && a != b
    ensures var after := Acts(h, Split(a, b));
      && after.recorded == h.recorded + [Mark(|h.acked| + 1, a)]
      && after.acked == h.acked + [Mark(|h.acked| + 1, b)]
      && !Agree(after)
  {
    Taken(h, a);
    var taken := Acts(h, [WriteMarker(a), Poll, ReadMarker, WriteAck]);
    ActsPlus(h, [WriteMarker(a), Poll, ReadMarker, WriteAck], [Timeout, WriteMarker(b), Poll]);
    Three(taken, Timeout, WriteMarker(b), Poll);
    var given := Act(taken, Timeout);
    var written := Act(given, WriteMarker(b));
    assert written.waiting == Some(Mark(|h.acked| + 1, b)) && written.recorded == taken.recorded;
    assert written.ack == Some(|h.acked| + 1);
    var after := Act(written, Poll);
    assert after.acked[|h.acked|].phase == b && after.recorded[|h.acked|].phase == a;
  }

  // ---------------------------------------------------------------- every permitted history happens

  lemma {:induction false} FollowsPlus(h: Handshake, xs: seq<Action>, ys: seq<Action>, script: Script)
    ensures Follows(h, xs + ys, script) <==> Follows(h, xs, script) && Follows(Acts(h, xs), ys, script)
  {
    if ys == [] {
      assert xs + ys == xs;
    } else {
      FollowsPlus(h, xs, ys[..|ys| - 1], script);
      ActsPlus(h, xs, ys[..|ys| - 1]);
      assert (xs + ys)[..|xs + ys| - 1] == xs + ys[..|ys| - 1];
    }
  }

  /** A run with its one marker first follows the script when that marker does. */
  lemma {:induction false} FollowsFirst(h: Handshake, phase: string, rest: seq<Action>, script: Script)
    requires h.waiting.None? ==> script(h.calls, phase)
    requires forall i :: 0 <= i < |rest| ==> !rest[i].WriteMarker?
    ensures Follows(h, [WriteMarker(phase)] + rest, script)
  {
    var all := [WriteMarker(phase)] + rest;
    if rest == [] {
      assert all[..0] == [];
    } else {
      FollowsFirst(h, phase, rest[..|rest| - 1], script);
      assert all[..|all| - 1] == [WriteMarker(phase)] + rest[..|rest| - 1];
      assert all[|all| - 1] == rest[|rest| - 1];
    }
  }

  lemma Completes(h: Handshake, phase: string, script: Script)
    requires Idle(h) && |h.acked| < MAX_PHASES && Acceptable(phase) && script(h.calls, phase)
    ensures var after := Acts(h, Complete(phase));
      Idle(after) && after.calls == h.calls + [Done(phase)] && |after.acked| == |h.acked| + 1
    ensures Follows(h, Complete(phase), script)
  {
    Four(h, WriteMarker(phase), ReadMarker, WriteAck, Poll);
    ActsKeep(h, Complete(phase));
    var m := Mark(|h.acked| + 1, phase);
    var h1 := Act(h, WriteMarker(phase));
    assert h1 == h.(marker := Some(m), waiting := Some(m));
    assert ReadingOf(h1.marker, h1.sequence) == Next(m);
    FollowsFirst(h, phase, [ReadMarker, WriteAck, Poll], script);
    assert Complete(phase) == [WriteMarker(phase)] + [ReadMarker, WriteAck, Poll];
  }

  lemma GivesUp(h: Handshake, phase: string, script: Script)
    requires Idle(h) && script(h.calls, phase)
    ensures var after := Acts(h, GiveUp(phase));
      Idle(after) && after.calls == h.calls + [GivenUp(phase)] && after.acked == h.acked
    ensures Follows(h, GiveUp(phase), script)
  {
    Three(h, WriteMarker(phase), Poll, Timeout);
    ActsKeep(h, GiveUp(phase));
    FollowsFirst(h, phase, [Poll, Timeout], script);
    assert GiveUp(phase) == [WriteMarker(phase)] + [Poll, Timeout];
  }

  /** A run in which the worker makes exactly these calls. */
  function RunOf(calls: seq<Call>): seq<Action> {
    if calls == [] then [] else RunOf(calls[..|calls| - 1]) + RunOfCall(calls[|calls| - 1])
  }

  function RunOfCall(call: Call): seq<Action> {
    match call
    case Done(phase) => Complete(phase)
    case GivenUp(phase) => GiveUp(phase)
  }

  lemma CallHappens(h: Handshake, call: Call, script: Script)
    requires Idle(h) && script(h.calls, call.phase)
    requires call.Done? ==> |h.acked| < MAX_PHASES && Acceptable(call.phase)
    ensures var after := Acts(h, RunOfCall(call));
      Idle(after) && after.calls == h.calls + [call] && |after.acked| == |h.acked| + if call.Done? then 1 else 0
    ensures Follows(h, RunOfCall(call), script)
  {
    if call.Done? { Completes(h, call.phase, script); } else { GivesUp(h, call.phase, script); }
  }

  lemma PlausibleInit(calls: seq<Call>)
    requires Plausible(calls) && calls != []
    ensures Plausible(calls[..|calls| - 1])
    ensures calls[|calls| - 1].Done? ==> DoneCount(calls[..|calls| - 1]) < MAX_PHASES
  {
  }

  lemma {:induction false} RunReaches(calls: seq<Call>, script: Script)
    requires Permitted(calls, script) && Plausible(calls)
    ensures var h := Acts(START, RunOf(calls));
      Idle(h) && h.calls == calls && |h.acked| == DoneCount(calls)
    ensures Follows(START, RunOf(calls), script)
  {
    if calls != [] {
      var init, last := calls[..|calls| - 1], calls[|calls| - 1];
      assert calls == init + [last];
      PermittedInit(calls, script);
      PlausibleInit(calls);
      RunReaches(init, script);
      CallHappens(Acts(START, RunOf(init)), last, script);
      ActsPlus(START, RunOf(init), RunOfCall(last));
      FollowsPlus(START, RunOf(init), RunOfCall(last), script);
    }
  }

  lemma SplitFollows(h: Handshake, a: string, b: string, script: Script)
    requires Idle(h) && |h.acked| < MAX_PHASES && Acceptable(a)
    requires script(h.calls, a) && script(h.calls + [GivenUp(a)], b)
    ensures Follows(h, Split(a, b), script)
  {
    var first, second := [WriteMarker(a), Poll, ReadMarker, WriteAck], [Timeout, WriteMarker(b), Poll];
    assert first == [WriteMarker(a)] + [Poll, ReadMarker, WriteAck];
    FollowsFirst(h, a, [Poll, ReadMarker, WriteAck], script);
    Taken(h, a);
    var taken := Acts(h, first);
    var given := Act(taken, Timeout);
    Three(taken, Timeout, WriteMarker(b), Poll);
    FollowsFirst(given, b, [Poll], script);
    assert Follows(taken, [Timeout], script) by { assert [Timeout][..0] == []; }
    FollowsPlus(taken, [Timeout], [WriteMarker(b), Poll], script);
    assert second == [Timeout] + [WriteMarker(b), Poll] && [WriteMarker(b), Poll] == [WriteMarker(b)] + [Poll];
    FollowsPlus(h, first, second, script);
  }

  /** A script that lets another name follow one given up has a run in which the names differ. */
  lemma OtherNameDisagrees(calls: seq<Call>, phase: string, script: Script)
    requires Permitted(calls, script) && Plausible(calls) && script(calls, phase) && !Reuses(calls, phase)
    ensures var run := RunOf(calls[..|calls| - 1]) + Split(calls[|calls| - 1].phase, phase);
      Follows(START, run, script) && !Agree(Acts(START, run))
  {
    var init, a := calls[..|calls| - 1], calls[|calls| - 1].phase;
    assert calls == init + [GivenUp(a)];
    CallsSnoc(init, GivenUp(a));
    PermittedInit(calls, script);
    RunReaches(init, script);
    var h := Acts(START, RunOf(init));
    SplitFollows(h, a, phase, script);
    TimeoutSplitsNames(h, a, phase);
    FollowsPlus(START, RunOf(init), Split(a, phase), script);
    ActsPlus(START, RunOf(init), Split(a, phase));
  }

  /**
   The exact condition: a worker's script keeps the names equal in all interleavings if and only if, between a timeout
   and the next success, it marks no other name than the one it gave up.
   */
  lemma NamesAgreeIff(script: Script)
    ensures (forall actions :: Follows(START, actions, script) ==> Agree(Acts(START, actions))) <==> ReusesNames(script)
  {
    if ReusesNames(script) {
      forall actions | Follows(START, actions, script) ensures Agree(Acts(START, actions)) {
        FollowersAgree(actions, script);
      }
    } else {
      var calls, phase :| Permitted(calls, script) && Plausible(calls) && script(calls, phase) && !Reuses(calls, phase);
      OtherNameDisagrees(calls, phase, script);
    }
  }

  // ---------------------------------------------------------------- the program's own worker

  const CLOSED := "after_client_close"
  const POST_GC := "post_gc"

  /**
   The worker marks its phases in order while none is given up; it always closes, given up or not; a last collection
   is marked only when nothing was given up.
   */
  ghost predicate Closing(phases: seq<string>, calls: seq<Call>, phase: string) {
    var patient := forall i :: 0 <= i < |calls| ==> calls[i].Done?;
    if exists i :: 0 <= i < |calls| && calls[i].phase == CLOSED then
      patient && calls[|calls| - 1].phase == CLOSED && phase == POST_GC
    else
      phase == CLOSED || (patient && |calls| < |phases| && phase == phases[|calls|])
  }

  /** That script does not reuse names: its first phase can be given up and recorded as the closing one. */
  lemma ClosingSplitsNames(phases: seq<string>)
    requires phases != [] && Acceptable(phases[0]) && phases[0] != CLOSED
    ensures var run := Split(phases[0], CLOSED);
      && Follows(START, run, (calls, phase) => Closing(phases, calls, phase))
      && Acts(START, run).acked == [Mark(1, CLOSED)] && Acts(START, run).recorded == [Mark(1, phases[0])]
  {
    var script: Script := (calls, phase) => Closing(phases, calls, phase);
    assert script([], phases[0]);
    assert script([] + [GivenUp(phases[0])], CLOSED);
    SplitFollows(START, phases[0], CLOSED, script);
    TimeoutSplitsNames(START, phases[0], CLOSED);
  }
}
