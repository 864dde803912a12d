/** The parent's resource series: a capped list of samples, peaks over all of them, and CPU deltas between marks. */
module ResourceSampler {
  import opened Common

  datatype Sample = Sample(
    role: string,
    phase: string,
    rssBytes: Option<nat>,
    threads: Option<nat>,
    fds: Option<nat>,
    cpuUserS: Option<real>,
    cpuSystemS: Option<real>,
    terminated: bool)

  datatype Metric = Rss | Threads | Fds

  function Value(s: Sample, m: Metric): Option<nat> {
    match m
    case Rss => s.rssBytes
    case Threads => s.threads
    case Fds => s.fds
  }

  datatype Failure = CapReached | OverCeiling(role: string) | Unenforceable(role: string)

  datatype Peaks = Peaks(rssBytes: Option<nat>, threads: Option<nat>, fds: Option<nat>)

  const NO_PEAKS := Peaks(None, None, None)

  function PeakValue(p: Peaks, m: Metric): Option<nat> {
    match m
    case Rss => p.rssBytes
    case Threads => p.threads
    case Fds => p.fds
  }

  datatype CpuDelta = CpuDelta(
    role: string,
    fromPhase: string,
    toPhase: string,
    userS: Option<real>,
    systemS: Option<real>)

  datatype Mark = Mark(sequence: int, phase: string)

  // ---------------------------------------------------------------- specification

  /** The largest non-null value of one metric of one role, taken one observation at a time. */
  function PeakOf(observed: seq<Sample>, role: string, m: Metric): Option<nat> {
    if observed == [] then None
    else
      var before, last := PeakOf(observed[..|observed| - 1], role, m), observed[|observed| - 1];
      if last.role != role || Value(last, m).None? then before
      else if before.None? then Value(last, m)
      else Some(Max(before.value, Value(last, m).value))
  }

  /** ... is attained by some observation of the role and bounds all of them, stored or not. */
  lemma {:induction false} PeakIsMaximum(observed: seq<Sample>, role: string, m: Metric)
    ensures PeakOf(observed, role, m).None? <==>
      forall k :: 0 <= k < |observed| && observed[k].role == role ==> Value(observed[k], m).None?
    ensures PeakOf(observed, role, m).Some? ==>
      exists k :: 0 <= k < |observed| && observed[k].role == role && Value(observed[k], m) == PeakOf(observed, role, m)
    ensures forall k :: 0 <= k < |observed| && observed[k].role == role && Value(observed[k], m).Some? ==>
      PeakOf(observed, role, m).Some? && Value(observed[k], m).value <= PeakOf(observed, role, m).value
  {
    if observed != [] {
      var init, last := observed[..|observed| - 1], observed[|observed| - 1];
      PeakIsMaximum(init, role, m);
      assert observed == init + [last];
    }
  }

  function LastOf(marks: seq<Sample>, role: string): Option<Sample> {
    if marks == [] then None
    else if marks[|marks| - 1].role == role then Some(marks[|marks| - 1])
    else LastOf(marks[..|marks| - 1], role)
  }

  function FirstOf(marks: seq<Sample>, role: string): Option<Sample> {
    if marks == [] then None
    else
      var before := FirstOf(marks[..|marks| - 1], role);
      if before.Some? then before
      else if marks[|marks| - 1].role == role then Some(marks[|marks| - 1]) else None
  }

  function Difference(start: Option<real>, end: Option<real>): Option<real> {
    if start.None? || end.None? || end.value < start.value then None else Some(end.value - start.value)
  }

  function DeltaBetween(before: Sample, after: Sample): CpuDelta {
    CpuDelta(after.role, before.phase, after.phase, Difference(before.cpuUserS, after.cpuUserS),
             Difference(before.cpuSystemS, after.cpuSystemS))
  }

  /** One delta for every mark of a role that was marked before, in order. */
  function DeltasOf(marks: seq<Sample>): seq<CpuDelta> {
    if marks == [] then []
    else
      var init, last := marks[..|marks| - 1], marks[|marks| - 1];
      var previous := LastOf(init, last.role);
      DeltasOf(init) + if previous.Some? then [DeltaBetween(previous.value, last)] else []
  }

  /** The user time of one role over all its deltas, if every one of them is available. */
  function UserTime(deltas: seq<CpuDelta>, role: string): Option<real> {
    if deltas == [] then Some(0.0)
    else
      var before, last := UserTime(deltas[..|deltas| - 1], role), deltas[|deltas| - 1];
      if last.role != role then before
      else if before.None? || last.userS.None? then None
      else Some(before.value + last.userS.value)
  }

  function SystemTime(deltas: seq<CpuDelta>, role: string): Option<real> {
    if deltas == [] then Some(0.0)
    else
      var before, last := SystemTime(deltas[..|deltas| - 1], role), deltas[|deltas| - 1];
      if last.role != role then before
      else if before.None? || last.systemS.None? then None
      else Some(before.value + last.systemS.value)
  }

  predicate SeveralMarks(marks: seq<Sample>, role: string) {
    exists k :: 0 <= k < |DeltasOf(marks)| && DeltasOf(marks)[k].role == role
  }

  lemma UserTimeSnoc(deltas: seq<CpuDelta>, last: CpuDelta, role: string)
    ensures UserTime(deltas + [last], role) ==
      (if last.role != role then UserTime(deltas, role)
       else if UserTime(deltas, role).None? || last.userS.None? then None
       else Some(UserTime(deltas, role).value + last.userS.value))
    ensures SystemTime(deltas + [last], role) ==
      (if last.role != role then SystemTime(deltas, role)
       else if SystemTime(deltas, role).None? || last.systemS.None? then None
       else Some(SystemTime(deltas, role).value + last.systemS.value))
  {
    assert (deltas + [last])[..|deltas|] == deltas;
  }

  lemma {:induction false} LastHasRole(marks: seq<Sample>, role: string)
    ensures LastOf(marks, role).Some? ==> LastOf(marks, role).value.role == role && FirstOf(marks, role).Some?
    ensures LastOf(marks, role).None? ==> FirstOf(marks, role).None?
  {
    if marks != [] { LastHasRole(marks[..|marks| - 1], role); }
  }

  lemma DeltasSnoc(marks: seq<Sample>, last: Sample)
    ensures DeltasOf(marks + [last]) ==
      DeltasOf(marks)
      + if LastOf(marks, last.role).Some? then [DeltaBetween(LastOf(marks, last.role).value, last)] else []
    ensures LastOf(marks + [last], last.role) == Some(last)
    ensures forall role :: role != last.role ==> LastOf(marks + [last], role) == LastOf(marks, role)
  {
    assert (marks + [last])[..|marks|] == marks;
  }

  lemma SeveralSnoc(marks: seq<Sample>, last: Sample, role: string)
    ensures SeveralMarks(marks + [last], role)
      <==> SeveralMarks(marks, role) || (last.role == role && LastOf(marks, role).Some?)
  {
    var before, all := DeltasOf(marks), DeltasOf(marks + [last]);
    DeltasSnoc(marks, last);
    if SeveralMarks(marks, role) {
      var k :| 0 <= k < |before| && before[k].role == role;
      assert all[k].role == role;
    }
    if last.role == role && LastOf(marks, role).Some? {
      assert all[|before|].role == role;
    }
    if SeveralMarks(marks + [last], role) {
      var k :| 0 <= k < |all| && all[k].role == role;
      assert k < |before| ==> before[k].role == role;
    }
  }

  /** A role with one mark has no delta. */
  lemma {:induction false} NoDeltaYet(marks: seq<Sample>, role: string)
    ensures LastOf(marks, role).None? ==> !SeveralMarks(marks, role)
    ensures !SeveralMarks(marks, role) && LastOf(marks, role).Some? ==> LastOf(marks, role) == FirstOf(marks, role)
    ensures !SeveralMarks(marks, role) ==>
      UserTime(DeltasOf(marks), role) == Some(0.0) == SystemTime(DeltasOf(marks), role)
  {
    if marks != [] {
      var init, last := marks[..|marks| - 1], marks[|marks| - 1];
      assert marks == init + [last];
      NoDeltaYet(init, role);
      LastHasRole(init, role);
      DeltasSnoc(init, last);
      SeveralSnoc(init, last, role);
      assert marks[..|marks| - 1] == init && (last.role != role ==> LastOf(marks, role) == LastOf(init, role));
      var previous := LastOf(init, last.role);
      if previous.Some? {
        UserTimeSnoc(DeltasOf(init), DeltaBetween(previous.value, last), role);
      } else {
        assert DeltasOf(marks) == DeltasOf(init);
      }
    }
  }

  /** When every delta of a role is available, its deltas add up to the last mark minus the first. */
  lemma {:induction false} DeltasTelescope(marks: seq<Sample>, role: string)
    requires SeveralMarks(marks, role)
    ensures UserTime(DeltasOf(marks), role).Some? ==>
      var first, last := FirstOf(marks, role), LastOf(marks, role);
      && first.Some? && last.Some? && first.value.cpuUserS.Some? && last.value.cpuUserS.Some?
      && UserTime(DeltasOf(marks), role).value == last.value.cpuUserS.value - first.value.cpuUserS.value
    ensures SystemTime(DeltasOf(marks), role).Some? ==>
      var first, last := FirstOf(marks, role), LastOf(marks, role);
      && first.Some? && last.Some? && first.value.cpuSystemS.Some? && last.value.cpuSystemS.Some?
      && SystemTime(DeltasOf(marks), role).value == last.value.cpuSystemS.value - first.value.cpuSystemS.value
  {
    var init, last := marks[..|marks| - 1], marks[|marks| - 1];
    var previous := LastOf(init, last.role);
    LastHasRole(init, role);
    LastHasRole(init, last.role);
    if previous.Some? {
      UserTimeSnoc(DeltasOf(init), DeltaBetween(previous.value, last), role);
      assert DeltasOf(marks) == DeltasOf(init) + [DeltaBetween(previous.value, last)];
    } else {
      assert DeltasOf(marks) == DeltasOf(init);
    }
    if SeveralMarks(init, role) {
      DeltasTelescope(init, role);
    } else {
      NoDeltaYet(init, role);
    }
  }

  /** `cpu_delta` is available exactly when both counters are and none decreased. */
  lemma DeltaAvailable(before: Sample, after: Sample)
    ensures DeltaBetween(before, after).userS.Some? <==>
      before.cpuUserS.Some? && after.cpuUserS.Some? && before.cpuUserS.value <= after.cpuUserS.value
    ensures DeltaBetween(before, after).systemS.Some? <==>
      before.cpuSystemS.Some? && after.cpuSystemS.Some? && before.cpuSystemS.value <= after.cpuSystemS.value
  {
  }

  function CapsIn(failures: seq<Failure>): nat {
    if failures == [] then 0
    else CapsIn(failures[..|failures| - 1]) + if failures[|failures| - 1] == CapReached then 1 else 0
  }

  lemma {:induction false} CapsAppend(a: seq<Failure>, b: seq<Failure>)
    ensures CapsIn(a + b) == CapsIn(a) + CapsIn(b)
    decreases |b|
  {
    if b == [] {
      assert a + b == a;
    } else {
      CapsAppend(a, b[..|b| - 1]);
      assert (a + b)[..|a + b| - 1] == a + b[..|b| - 1];
    }
  }

  /** The enforcement verdict on one sample. */
  function Verdict(s: Sample, ceiling: nat): seq<Failure> {
    if s.rssBytes.Some? && s.rssBytes.value > ceiling then [OverCeiling(s.role)]
    else if s.rssBytes.None? && !s.terminated then [Unenforceable(s.role)]
    else []
  }

  /** The verdicts on a series of samples, in order. */
  function Verdicts(observed: seq<Sample>, ceiling: nat): seq<Failure> {
    if observed == [] then []
    else Verdicts(observed[..|observed| - 1], ceiling) + Verdict(observed[|observed| - 1], ceiling)
  }

  ghost predicate Unmeasured(s: Sample, role: string) {
    s.role == role && s.rssBytes.None? && !s.terminated
  }

  /**
   A role is reported over the ceiling exactly when its peak is over it, stored or not, and as unenforceable exactly
   when some sample of it without a termination lacks its memory.
   */
  lemma {:induction false} CeilingEnforcedIff(observed: seq<Sample>, ceiling: nat, role: string)
    ensures OverCeiling(role) in Verdicts(observed, ceiling) <==>
      PeakOf(observed, role, Rss).Some? && PeakOf(observed, role, Rss).value > ceiling
    ensures Unenforceable(role) in Verdicts(observed, ceiling) <==>
      exists k :: 0 <= k < |observed| && Unmeasured(observed[k], role)
  {
    if observed != [] {
      var init, last := observed[..|observed| - 1], observed[|observed| - 1];
      CeilingEnforcedIff(init, ceiling, role);
      assert observed == init + [last];
      if Unmeasured(last, role) { assert Unmeasured(observed[|init|], role); }
      if k :| 0 <= k < |init| && Unmeasured(init[k], role) { assert Unmeasured(observed[k], role); }
    }
  }

  /** The failures that are verdicts. */
  function WithoutCap(failures: seq<Failure>): seq<Failure> {
    if failures == [] then []
    else
      var last := failures[|failures| - 1];
      WithoutCap(failures[..|failures| - 1]) + if last == CapReached then [] else [last]
  }

  lemma {:induction false} WithoutCapAppend(a: seq<Failure>, b: seq<Failure>)
    ensures WithoutCap(a + b) == WithoutCap(a) + WithoutCap(b)
    decreases |b|
  {
    if b == [] {
      assert a + b == a;
    } else {
      WithoutCapAppend(a, b[..|b| - 1]);
      assert (a + b)[..|a + b| - 1] == a + b[..|b| - 1];
    }
  }

  lemma NextVerdict(failures: seq<Failure>, more: seq<Failure>, observed: seq<Sample>, s: Sample, ceiling: nat)
    requires WithoutCap(failures) == Verdicts(observed, ceiling) && WithoutCap(more) == Verdict(s, ceiling)
    ensures WithoutCap(failures + more) == Verdicts(observed + [s], ceiling)
  {
    WithoutCapAppend(failures, more);
    assert (observed + [s])[..|observed|] == observed;
  }

  lemma OneVerdict(verdict: seq<Failure>)
    requires |verdict| <= 1 && CapReached !in verdict
    ensures CapsIn(verdict) == 0 && WithoutCap(verdict) == verdict
  {
    if verdict != [] {
      assert verdict[0] in verdict && verdict[..0] == [] && verdict == [verdict[0]];
    }
  }

  // ---------------------------------------------------------------- phases of the deltas

  /** The phases at which a role was marked. */
  function PhasesOf(marks: seq<Sample>, role: string): seq<string> {
    if marks == [] then []
    else
      var last := marks[|marks| - 1];
      PhasesOf(marks[..|marks| - 1], role) + if last.role == role then [last.phase] else []
  }

  /** From where to where the deltas of a role lead. */
  function LegsOf(deltas: seq<CpuDelta>, role: string): seq<(string, string)> {
    if deltas == [] then []
    else
      var last := deltas[|deltas| - 1];
      LegsOf(deltas[..|deltas| - 1], role) + if last.role == role then [(last.fromPhase, last.toPhase)] else []
  }

  lemma LegsSnoc(deltas: seq<CpuDelta>, last: CpuDelta, role: string)
    ensures LegsOf(deltas + [last], role)
         == LegsOf(deltas, role) + if last.role == role then [(last.fromPhase, last.toPhase)] else []
  {
    assert (deltas + [last])[..|deltas|] == deltas;
  }

  lemma {:induction false} LastPhase(marks: seq<Sample>, role: string)
    ensures LastOf(marks, role).None? <==> PhasesOf(marks, role) == []
    ensures LastOf(marks, role).Some? ==>
      PhasesOf(marks, role)[|PhasesOf(marks, role)| - 1] == LastOf(marks, role).value.phase
  {
    if marks != [] { LastPhase(marks[..|marks| - 1], role); }
  }

  /** The deltas of a role lead from each of its marks to the next one. */
  lemma {:induction false} DeltasChain(marks: seq<Sample>, role: string)
    ensures |LegsOf(DeltasOf(marks), role)| == Max(|PhasesOf(marks, role)| - 1, 0)
    ensures forall i :: 0 <= i < |LegsOf(DeltasOf(marks), role)| ==>
      LegsOf(DeltasOf(marks), role)[i] == (PhasesOf(marks, role)[i], PhasesOf(marks, role)[i + 1])
  {
    if marks != [] {
      var init, last := marks[..|marks| - 1], marks[|marks| - 1];
      var previous := LastOf(init, last.role);
      DeltasChain(init, role);
      LastPhase(init, role);
      LastPhase(init, last.role);
      if previous.Some? {
        LegsSnoc(DeltasOf(init), DeltaBetween(previous.value, last), role);
        assert DeltasOf(marks) == DeltasOf(init) + [DeltaBetween(previous.value, last)];
      } else {
        assert DeltasOf(marks) == DeltasOf(init);
      }
    }
  }

  // ---------------------------------------------------------------- the sampler

  class LifecycleResourceSampler {
    const maxSamples: nat
    const rssCeilingBytes: nat
    var samples: seq<Sample>
    var truncated: bool
    var peaks: map<string, Peaks>
    var previousPhase: map<string, Sample>
    var cpuPhaseDeltas: seq<CpuDelta>
    var phases: seq<Mark>
    /** All samples ever taken, all samples taken at a mark, and all failures ever returned. */
    ghost var observed: seq<Sample>
    ghost var marks: seq<Sample>
    ghost var emitted: seq<Failure>

    constructor (maxSamples: nat, rssCeilingBytes: nat)
      ensures Valid() && this.maxSamples == maxSamples && this.rssCeilingBytes == rssCeilingBytes
      ensures observed == [] && marks == [] && emitted == [] && phases == []
    {
      this.maxSamples, this.rssCeilingBytes := maxSamples, rssCeilingBytes;
      samples, truncated, peaks, previousPhase, cpuPhaseDeltas, phases := [], false, map[], map[], [], [];
      observed, marks, emitted := [], [], [];
    }

    /** The series is the longest prefix the cap allows; overflowing it was reported exactly once. */
    ghost predicate Series()
      reads this
    {
      Prefix() && CapsIn(emitted) == (if truncated then 1 else 0)
    }

    ghost predicate Prefix()
      reads this
    {
      samples == observed[..Min(maxSamples, |observed|)] && (truncated <==> |observed| > maxSamples)
    }

    ghost predicate PeaksExact()
      reads this
    {
      && (forall k :: 0 <= k < |observed| ==> observed[k].role in peaks)
      && forall role, m :: role in peaks ==> PeakValue(peaks[role], m) == PeakOf(observed, role, m)
    }

    ghost predicate MarksExact()
      reads this
    {
      && cpuPhaseDeltas == DeltasOf(marks)
      && (forall role :: (role in previousPhase <==> LastOf(marks, role).Some?)
                         && (role in previousPhase ==> LastOf(marks, role) == Some(previousPhase[role])))
    }

    ghost predicate Valid()
      reads this
    {
      Series() && PeaksExact() && MarksExact()
    }

    /** `attach`: from now on the role is probed. Attaching a role again would restart its peaks. */
    method Attach(role: string)
      requires Valid() && role !in peaks
      modifies this`peaks
      ensures Valid() && peaks == old(peaks)[role := NO_PEAKS]
    {
      peaks := peaks[role := NO_PEAKS];
      forall m: Metric ensures PeakOf(observed, role, m) == None {
        NeverObserved(observed, role, m);
      }
    }

    /** One observation: stored while there is room, always counted in the peaks, then judged. */
    method Take(s: Sample) returns (failures: seq<Failure>)
      requires Valid() && s.role in peaks
      modifies this`samples, this`truncated, this`peaks, this`observed, this`emitted
      ensures Valid() && observed == old(observed) + [s] && emitted == old(emitted) + failures
      ensures peaks.Keys == old(peaks.Keys)
      ensures failures == (if |old(observed)| == maxSamples then [CapReached] else []) + Verdict(s, rssCeilingBytes)
      ensures WithoutCap(failures) == Verdict(s, rssCeilingBytes)
      ensures CapsIn(failures) == (if !old(truncated) && truncated then 1 else 0) && (old(truncated) ==> truncated)
    {
      var capped := Record(s);
      var verdict := Judge(s);
      Emit(capped, verdict);
      CapsOf(capped, verdict);
      failures := capped + verdict;
    }

    method Judge(s: Sample) returns (verdict: seq<Failure>)
      ensures verdict == Verdict(s, rssCeilingBytes) && |verdict| <= 1 && CapReached !in verdict
    {
      verdict := [];
      if s.rssBytes.Some? && s.rssBytes.value > rssCeilingBytes {
        verdict := [OverCeiling(s.role)];
      } else if s.rssBytes.None? && !s.terminated {
        verdict := [Unenforceable(s.role)];
      }
    }

    lemma CapsOf(capped: seq<Failure>, verdict: seq<Failure>)
      requires |verdict| <= 1 && CapReached !in verdict
      ensures CapsIn(capped + verdict) == CapsIn(capped)
      ensures WithoutCap(capped + verdict) == WithoutCap(capped) + verdict
    {
      CapsAppend(capped, verdict);
      WithoutCapAppend(capped, verdict);
      OneVerdict(verdict);
    }

    ghost method Emit(capped: seq<Failure>, verdict: seq<Failure>)
      requires CapsIn(capped) + CapsIn(emitted) == (if truncated then 1 else 0)
      requires |verdict| <= 1 && CapReached !in verdict
      modifies this`emitted
      ensures emitted == old(emitted) + (capped + verdict)
      ensures CapsIn(emitted) == if truncated then 1 else 0
    {
      CapsOf(capped, verdict);
      CapsAppend(emitted, capped + verdict);
      emitted := emitted + (capped + verdict);
    }

    method Record(s: Sample) returns (failures: seq<Failure>)
      requires Series() && PeaksExact() && s.role in peaks
      modifies this`samples, this`truncated, this`peaks, this`observed
      ensures Prefix() && PeaksExact() && observed == old(observed) + [s] && peaks.Keys == old(peaks.Keys)
      ensures failures == if |old(observed)| == maxSamples then [CapReached] else []
      ensures CapsIn(failures) + CapsIn(emitted) == if truncated then 1 else 0
    {
      failures := Store(s);
      Raise(s);
    }

    method Store(s: Sample) returns (failures: seq<Failure>)
      requires Series()
      modifies this`samples, this`truncated
      ensures samples == (observed + [s])[..Min(maxSamples, |observed| + 1)]
      ensures truncated <==> |observed| + 1 > maxSamples
      ensures failures == if |observed| == maxSamples then [CapReached] else []
      ensures CapsIn(failures) + CapsIn(emitted) == if truncated then 1 else 0
    {
      failures := [];
      assert CapsIn([CapReached]) == 1 && CapsIn([]) == 0;
      if |samples| < maxSamples {
        samples := samples + [s];
      } else if !truncated {
        truncated := true;
        failures := failures + [CapReached];
      }
    }

    method Raise(s: Sample)
      requires PeaksExact() && s.role in peaks
      modifies this`peaks, this`observed
      ensures PeaksExact() && observed == old(observed) + [s] && peaks.Keys == old(peaks.Keys)
    {
      var p := peaks[s.role];
      peaks :=
        peaks[s.role := Peaks(Higher(p.rssBytes, s.rssBytes), Higher(p.threads, s.threads), Higher(p.fds, s.fds))];
      forall role, m | role in peaks
        ensures PeakOf(observed + [s], role, m)
             == if role == s.role then Higher(PeakOf(observed, role, m), Value(s, m)) else PeakOf(observed, role, m)
      {
        assert (observed + [s])[..|observed|] == observed;
      }
      observed := observed + [s];
    }

    /** `sample`: one observation per probed role. */
    method TakeAll(observations: seq<Sample>) returns (failures: seq<Failure>)
      requires Valid() && forall k :: 0 <= k < |observations| ==> observations[k].role in peaks
      modifies this`samples, this`truncated, this`peaks, this`observed, this`emitted
      ensures Valid() && observed == old(observed) + observations && emitted == old(emitted) + failures
      ensures peaks.Keys == old(peaks.Keys)
      ensures CapsIn(failures) == (if !old(truncated) && truncated then 1 else 0)
      ensures WithoutCap(failures) == Verdicts(observations, rssCeilingBytes)
    {
      failures := [];
      ghost var was, seen, told := truncated, observed, emitted;
      assert seen + observations[..0] == seen && told + failures == told;
      for k := 0 to |observations|
        invariant Valid() && peaks.Keys == old(peaks.Keys)
        invariant Since(was, seen + observations[..k], told + failures, failures)
        invariant WithoutCap(failures) == Verdicts(observations[..k], rssCeilingBytes)
      {
        var more :=
          TakeNext(observations[k], was, seen + observations[..k], told + failures, failures, observations[..k]);
        assert observations[..k + 1] == observations[..k] + [observations[k]];
        Regroup(seen, observations[..k], [observations[k]]);
        Regroup(told, failures, more);
        failures := failures + more;
      }
      assert observations[..|observations|] == observations;
    }

    /** What has been observed and emitted so far, `failures` of it by the current call. */
    ghost predicate Since(was: bool, seen: seq<Sample>, told: seq<Failure>, failures: seq<Failure>)
      reads this
    {
      && observed == seen && emitted == told
      && CapsIn(failures) == (if !was && truncated then 1 else 0) && (was ==> truncated)
    }

    method TakeNext(s: Sample, ghost was: bool, ghost seen: seq<Sample>, ghost told: seq<Failure>,
                    ghost failures: seq<Failure>, ghost taken: seq<Sample>)
      returns (more: seq<Failure>)
      requires Valid() && s.role in peaks && Since(was, seen, told, failures)
      requires WithoutCap(failures) == Verdicts(taken, rssCeilingBytes)
      modifies this`samples, this`truncated, this`peaks, this`observed, this`emitted
      ensures Valid() && peaks.Keys == old(peaks.Keys)
      ensures Since(was, seen + [s], told + more, failures + more)
      ensures WithoutCap(failures + more) == Verdicts(taken + [s], rssCeilingBytes)
    {
      more := Take(s);
      NextVerdict(failures, more, taken, s, rssCeilingBytes);
      CapsAppend(failures, more);
    }

    lemma Regroup<T>(a: seq<T>, b: seq<T>, c: seq<T>)
      ensures a + b + c == a + (b + c)
    {
    }

    /** `mark`: a sample per role, a CPU delta to each role's previous mark, and the phase itself. */
    method MarkPhase(marker: Mark, observations: seq<Sample>) returns (failures: seq<Failure>)
      requires Valid() && forall k :: 0 <= k < |observations| ==> observations[k].role in peaks
      modifies this
      ensures Valid() && observed == old(observed) + observations && emitted == old(emitted) + failures
      ensures marks == old(marks) + observations && phases == old(phases) + [marker]
      ensures peaks.Keys == old(peaks.Keys)
      ensures CapsIn(failures) == (if !old(truncated) && truncated then 1 else 0)
      ensures WithoutCap(failures) == Verdicts(observations, rssCeilingBytes)
    {
      failures := TakeAll(observations);
      DeltaAll(observations);
      phases := phases + [marker];
    }

    method DeltaAll(observations: seq<Sample>)
      requires MarksExact()
      modifies this`cpuPhaseDeltas, this`previousPhase, this`marks
      ensures MarksExact() && marks == old(marks) + observations
    {
      for k := 0 to |observations|
        invariant MarksExact() && marks == old(marks) + observations[..k]
      {
        Delta(observations[k]);
        assert observations[..k + 1] == observations[..k] + [observations[k]];
      }
      assert observations[..|observations|] == observations;
    }

    method Delta(s: Sample)
      requires MarksExact()
      modifies this`cpuPhaseDeltas, this`previousPhase, this`marks
      ensures MarksExact() && marks == old(marks) + [s]
    {
      if s.role in previousPhase {
        cpuPhaseDeltas := cpuPhaseDeltas + [DeltaBetween(previousPhase[s.role], s)];
      }
      previousPhase := previousPhase[s.role := s];
      assert (marks + [s])[..|marks|] == marks;
      marks := marks + [s];
    }
  }

  function Higher(previous: Option<nat>, value: Option<nat>): Option<nat> {
    if value.None? then previous
    else if previous.None? then value
    else Some(Max(value.value, previous.value))
  }

  lemma {:induction false} NeverObserved(observed: seq<Sample>, role: string, m: Metric)
    requires forall k :: 0 <= k < |observed| ==> observed[k].role != role
    ensures PeakOf(observed, role, m) == None
  {
    if observed != [] { NeverObserved(observed[..|observed| - 1], role, m); }
  }
}
