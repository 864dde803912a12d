/** Server counters read at two quiescent moments, and what a passing comparison of them proves. */
module ServerHealth {
  import opened Common
  import opened MapSums
  import opened StreamMachine
  import opened ServerRuns

  /** Cumulative totals over the completed normal bodies. */
  datatype Totals = Totals(
    streams: nat,
    bodyLoopElapsedNs: nat,
    writeElapsedNs: nat,
    drainElapsedNs: nat,
    writeCalls: nat,
    drainCalls: nat,
    drainsCompleted: nat)

  datatype Summary = Summary(
    pid: int,
    bodyBytes: nat,
    writeBytes: nat,
    writeDelayS: real,
    identityHeader: bool,
    observed: bool,
    totals: Option<Totals>,
    unexpectedErrors: nat,
    normalEof: nat,
    normalDisconnected: nat,
    active: nat,
    requests: nat)

  predicate NormalEof(s: Stream) { s.control == Normal && s.eofSent }

  predicate NormalDisconnected(s: Stream) { s.control == Normal && s.disconnected }

  predicate Active(s: Stream) { s.active }

  predicate Completed(s: Stream) { NormalEof(s) && s.delivery.Some? }

  function LoopNs(s: Stream): nat {
    if s.delivery.Some? && s.delivery.value.startedNs.Some? && s.delivery.value.finishedNs.Some?
       && s.delivery.value.startedNs.value <= s.delivery.value.finishedNs.value
    then s.delivery.value.finishedNs.value - s.delivery.value.startedNs.value else 0
  }

  function WriteNs(s: Stream): nat { if s.delivery.Some? then s.delivery.value.writeElapsedNs else 0 }

  function DrainNs(s: Stream): nat { if s.delivery.Some? then s.delivery.value.drainElapsedNs else 0 }

  function Writes(s: Stream): nat { if s.delivery.Some? then s.delivery.value.writeCalls else 0 }

  function Drains(s: Stream): nat { if s.delivery.Some? then s.delivery.value.drainCalls else 0 }

  function DrainsDone(s: Stream): nat { if s.delivery.Some? then s.delivery.value.drainsCompleted else 0 }

  function Part(streams: map<string, Stream>, p: Stream -> bool, f: Stream -> nat): map<string, nat> {
    map t | t in streams && p(streams[t]) :: f(streams[t])
  }

  /** `sum(f(state) for state in streams.values() if p(state))` */
  ghost function SumWhere(streams: map<string, Stream>, p: Stream -> bool, f: Stream -> nat): nat {
    Total(Part(streams, p, f))
  }

  ghost function TotalsOf(streams: map<string, Stream>): Totals {
    Totals(|Tokens(streams, Completed)|,
           SumWhere(streams, Completed, LoopNs), SumWhere(streams, Completed, WriteNs),
           SumWhere(streams, Completed, DrainNs), SumWhere(streams, Completed, Writes),
           SumWhere(streams, Completed, Drains), SumWhere(streams, Completed, DrainsDone))
  }

  ghost function SummaryOf(pid: int, c: Settings, v: Server): Summary {
    Summary(pid, c.bodyBytes, c.writeBytes, c.writeDelayS, c.identityHeader, c.observed,
            if c.observed then Some(TotalsOf(v.streams)) else None,
            v.handlerErrors, |Tokens(v.streams, NormalEof)|, |Tokens(v.streams, NormalDisconnected)|,
            |Tokens(v.streams, Active)|, |v.streams|)
  }

  /** Every write and drain of the declared responses is accounted for, and no counter went backwards. */
  predicate DeliveryEvidence(initial: Option<Totals>, final: Option<Totals>, expected: nat, writes: nat) {
    && initial.Some? && final.Some?
    && var a, b := initial.value, final.value;
    && a.bodyLoopElapsedNs <= b.bodyLoopElapsedNs
    && a.writeElapsedNs <= b.writeElapsedNs && a.drainElapsedNs <= b.drainElapsedNs
    && b.streams - a.streams == expected
    && b.writeCalls - a.writeCalls == writes && b.drainCalls - a.drainCalls == writes
    && b.drainsCompleted - a.drainsCompleted == writes
  }

  function DeclaredWrites(declared: Settings, expected: nat): nat
    requires ValidSettings(declared)
  {
    expected * Chunks(declared)
  }

  predicate HealthPasses(before: Summary, after: Summary, declared: Settings, expected: nat)
    requires ValidSettings(declared)
  {
    && before.pid == after.pid
    && after.bodyBytes == declared.bodyBytes && after.writeBytes == declared.writeBytes
    && after.writeDelayS == declared.writeDelayS && !after.identityHeader
    && after.active == 0 && after.observed == declared.observed
    && after.normalEof - before.normalEof == expected
    && after.normalDisconnected - before.normalDisconnected == 0
    && after.unexpectedErrors - before.unexpectedErrors == 0
    && (declared.observed ==>
          DeliveryEvidence(before.totals, after.totals, expected, DeclaredWrites(declared, expected)))
  }

  // ---------------------------------------------------------------- between two snapshots

  /** Nothing but a late release can have happened to a stream that had ended. */
  ghost predicate Continues(before: map<string, Stream>, after: map<string, Stream>) {
    forall t :: t in before ==> t in after && after[t] == before[t].(released := after[t].released)
  }

  function New(before: map<string, Stream>, after: map<string, Stream>): map<string, Stream> {
    map t | t in after && t !in before :: after[t]
  }

  ghost predicate Quiet(v: Server) {
    forall t :: t in v.streams ==> v.streams[t].place == Ended
  }

  lemma StepContinues(c: Settings, v: Server, w: Server, t: Tick)
    requires Quiet(v) && Continues(v.streams, w.streams)
    ensures Continues(v.streams, ServerStep(c, w, t).streams)
    ensures ServerStep(c, w, t).otherErrors >= w.otherErrors
  {
    var now := w.now + t.elapsedNs;
    if t.request.OnStream? && t.request.token in v.streams {
      EndedStays(c, w.streams[t.request.token], now, t.request.event);
    }
    if t.request.ReleaseStream? && t.request.token in v.streams {
      EndedStays(c, w.streams[t.request.token], now, Release);
    }
  }

  lemma {:induction false} RunContinues(c: Settings, v: Server, ticks: seq<Tick>)
    requires Quiet(v)
    ensures Continues(v.streams, ServerRun(c, v, ticks).streams)
    ensures ServerRun(c, v, ticks).otherErrors >= v.otherErrors
  {
    if ticks != [] {
      RunContinues(c, v, ticks[..|ticks| - 1]);
      StepContinues(c, v, ServerRun(c, v, ticks[..|ticks| - 1]), ticks[|ticks| - 1]);
    }
  }

  /** A predicate that does not look at `released`. */
  ghost predicate IgnoresRelease(p: Stream -> bool) {
    forall s: Stream, r: bool :: p(s.(released := r)) == p(s)
  }

  ghost predicate SumIgnoresRelease(f: Stream -> nat) {
    forall s: Stream, r: bool :: f(s.(released := r)) == f(s)
  }

  /** Counts and sums grow by exactly what the new streams contribute. */
  lemma CountGrows(before: map<string, Stream>, after: map<string, Stream>, p: Stream -> bool)
    requires Continues(before, after) && IgnoresRelease(p)
    ensures |Tokens(after, p)| == |Tokens(before, p)| + |Tokens(New(before, after), p)|
    ensures Tokens(before, p) <= Tokens(after, p)
  {
    forall t | t in before ensures p(after[t]) == p(before[t]) {
      assert after[t] == before[t].(released := after[t].released);
    }
    assert Tokens(after, p) == Tokens(before, p) + Tokens(New(before, after), p);
    assert Tokens(before, p) !! Tokens(New(before, after), p);
  }

  lemma SumGrows(before: map<string, Stream>, after: map<string, Stream>, p: Stream -> bool, f: Stream -> nat)
    requires Continues(before, after) && IgnoresRelease(p) && SumIgnoresRelease(f)
    ensures SumWhere(after, p, f) == SumWhere(before, p, f) + SumWhere(New(before, after), p, f)
  {
    PartSplits(before, after, p, f);
    TotalAdd(Part(before, p, f), Part(New(before, after), p, f));
  }

  lemma PartSplits(before: map<string, Stream>, after: map<string, Stream>, p: Stream -> bool, f: Stream -> nat)
    requires Continues(before, after) && IgnoresRelease(p) && SumIgnoresRelease(f)
    ensures Part(after, p, f) == Add(Part(before, p, f), Part(New(before, after), p, f))
  {
    forall t | t in before ensures p(after[t]) == p(before[t]) && f(after[t]) == f(before[t]) {
      assert after[t] == before[t].(released := after[t].released);
    }
    var a, b, whole := Part(before, p, f), Part(New(before, after), p, f), Part(after, p, f);
    assert a.Keys !! b.Keys;
    assert whole.Keys == a.Keys + b.Keys;
    forall t | t in whole ensures whole[t] == Get(a, t) + Get(b, t) {}
  }

  lemma SumWhereEach(streams: map<string, Stream>, p: Stream -> bool, f: Stream -> nat, value: nat)
    requires forall t :: t in streams && p(streams[t]) ==> f(streams[t]) == value
    ensures SumWhere(streams, p, f) == |Tokens(streams, p)| * value
  {
    TotalConstant(Part(streams, p, f), value);
    assert Part(streams, p, f).Keys == Tokens(streams, p);
  }

  /** All the streams accepted since, and nothing else, decide the comparison. */
  ghost predicate ServedExactly(c: Settings, v: Server, w: Server, expected: nat) {
    var fresh' := New(v.streams, w.streams);
    && (forall t :: t in w.streams ==> !w.streams[t].active)
    && |Tokens(fresh', IsNormal)| == expected
    && (forall t :: t in fresh' && fresh'[t].control == Normal ==> fresh'[t].eofSent)
    && w.handlerErrors == v.handlerErrors
  }

  predicate IsNormal(s: Stream) { s.control == Normal }

  /** A body that reached its end was written and drained in exactly ceil(body / write) chunks. */
  lemma CompletedCounts(c: Settings, v: Server, t: string)
    requires ValidSettings(c) && ServerOk(c, v) && t in v.streams && Completed(v.streams[t])
    ensures Writes(v.streams[t]) == Drains(v.streams[t]) == DrainsDone(v.streams[t]) == Chunks(c)
    ensures c.observed
  {
    assert StreamOk(c, v.streams[t], v.now);
  }

  /** What the new streams contribute to each total that is checked for equality. */
  lemma AddedCounts(c: Settings, v: Server, w: Server, expected: nat)
    requires ValidSettings(c) && c.observed && ServerOk(c, w)
    requires |Tokens(New(v.streams, w.streams), NormalEof)| == expected
    ensures var added := New(v.streams, w.streams);
      && |Tokens(added, Completed)| == expected
      && SumWhere(added, Completed, Writes) == SumWhere(added, Completed, Drains)
         == SumWhere(added, Completed, DrainsDone) == DeclaredWrites(c, expected)
  {
    var added := New(v.streams, w.streams);
    forall t | t in added ensures Completed(added[t]) == NormalEof(added[t]) {
      assert StreamOk(c, w.streams[t], w.now);
    }
    assert Tokens(added, Completed) == Tokens(added, NormalEof);
    forall t | t in added && Completed(added[t])
      ensures Writes(added[t]) == Drains(added[t]) == DrainsDone(added[t]) == Chunks(c)
    {
      CompletedCounts(c, w, t);
    }
    SumWhereEach(added, Completed, Writes, Chunks(c));
    SumWhereEach(added, Completed, Drains, Chunks(c));
    SumWhereEach(added, Completed, DrainsDone, Chunks(c));
  }

  lemma TotalsGrow(before: map<string, Stream>, after: map<string, Stream>)
    requires Continues(before, after)
    ensures var a, b, added := TotalsOf(before), TotalsOf(after), New(before, after);
      && b.streams == a.streams + |Tokens(added, Completed)|
      && b.bodyLoopElapsedNs >= a.bodyLoopElapsedNs && b.writeElapsedNs >= a.writeElapsedNs
      && b.drainElapsedNs >= a.drainElapsedNs
      && b.writeCalls == a.writeCalls + SumWhere(added, Completed, Writes)
      && b.drainCalls == a.drainCalls + SumWhere(added, Completed, Drains)
      && b.drainsCompleted == a.drainsCompleted + SumWhere(added, Completed, DrainsDone)
  {
    CountGrows(before, after, Completed);
    SumGrows(before, after, Completed, LoopNs);
    SumGrows(before, after, Completed, WriteNs);
    SumGrows(before, after, Completed, DrainNs);
    SumGrows(before, after, Completed, Writes);
    SumGrows(before, after, Completed, Drains);
    SumGrows(before, after, Completed, DrainsDone);
  }

  lemma EvidenceFollows(c: Settings, v: Server, w: Server, expected: nat, writes: nat)
    requires ValidSettings(c) && c.observed && ServerOk(c, w) && Continues(v.streams, w.streams)
    requires |Tokens(New(v.streams, w.streams), NormalEof)| == expected
    requires writes == DeclaredWrites(c, expected)
    ensures DeliveryEvidence(Some(TotalsOf(v.streams)), Some(TotalsOf(w.streams)), expected, writes)
  {
    AddedCounts(c, v, w, expected);
    TotalsGrow(v.streams, w.streams);
  }

  lemma EmptyCount(streams: map<string, Stream>, p: Stream -> bool)
    ensures |Tokens(streams, p)| == 0 <==> forall t :: t in streams ==> !p(streams[t])
  {
    if t :| t in streams && p(streams[t]) {
      assert t in Tokens(streams, p);
    } else {
      assert Tokens(streams, p) == {};
    }
  }

  /** With no new handler error, none of the new streams failed. */
  lemma NoneFailed(c: Settings, v: Server, w: Server)
    requires ServerOk(c, v) && ServerOk(c, w) && Continues(v.streams, w.streams)
    requires w.otherErrors >= v.otherErrors && w.handlerErrors == v.handlerErrors
    ensures forall t :: t in New(v.streams, w.streams) ==> !Failed(w.streams[t])
  {
    CountGrows(v.streams, w.streams, Failed);
    EmptyCount(New(v.streams, w.streams), Failed);
  }

  lemma CountersToServed(c: Settings, v: Server, w: Server, expected: nat)
    requires ServerOk(c, v) && ServerOk(c, w) && Continues(v.streams, w.streams) && w.otherErrors >= v.otherErrors
    requires |Tokens(w.streams, Active)| == 0 && w.handlerErrors == v.handlerErrors
    requires |Tokens(w.streams, NormalEof)| == |Tokens(v.streams, NormalEof)| + expected
    requires |Tokens(w.streams, NormalDisconnected)| == |Tokens(v.streams, NormalDisconnected)|
    ensures ServedExactly(c, v, w, expected)
    ensures |Tokens(New(v.streams, w.streams), NormalEof)| == expected
  {
    var added := New(v.streams, w.streams);
    NoneFailed(c, v, w);
    EmptyCount(w.streams, Active);
    CountGrows(v.streams, w.streams, NormalEof);
    CountGrows(v.streams, w.streams, NormalDisconnected);
    EmptyCount(added, NormalDisconnected);
    forall t | t in added && added[t].control == Normal ensures added[t].eofSent {
      assert !Failed(added[t]) && !NormalDisconnected(added[t]) && !Active(w.streams[t]);
    }
    assert Tokens(added, IsNormal) == Tokens(added, NormalEof);
  }

  lemma ServedToCounters(c: Settings, v: Server, w: Server, expected: nat)
    requires ServerOk(c, v) && ServerOk(c, w) && Continues(v.streams, w.streams)
    requires ServedExactly(c, v, w, expected)
    ensures |Tokens(w.streams, Active)| == 0
    ensures |Tokens(w.streams, NormalEof)| == |Tokens(v.streams, NormalEof)| + expected
    ensures |Tokens(w.streams, NormalDisconnected)| == |Tokens(v.streams, NormalDisconnected)|
    ensures |Tokens(New(v.streams, w.streams), NormalEof)| == expected
  {
    var added := New(v.streams, w.streams);
    EmptyCount(w.streams, Active);
    CountGrows(v.streams, w.streams, NormalEof);
    CountGrows(v.streams, w.streams, NormalDisconnected);
    forall t | t in added ensures !NormalDisconnected(added[t]) {
      assert StreamOk(c, w.streams[t], w.now);
    }
    EmptyCount(added, NormalDisconnected);
    assert Tokens(added, IsNormal) == Tokens(added, NormalEof);
  }

  lemma QuietIff(c: Settings, v: Server)
    requires ServerOk(c, v)
    ensures Quiet(v) <==> |Tokens(v.streams, Active)| == 0
  {
    EmptyCount(v.streams, Active);
    forall t | t in v.streams ensures v.streams[t].active <==> v.streams[t].place != Ended {
      assert StreamOk(c, v.streams[t], v.now);
    }
  }

  lemma HealthOfStates(
    pid: int, c: Settings, declared: Settings, v: Server, w: Server, expected: nat)
    requires ValidSettings(c) && ValidSettings(declared) && ServerOk(c, v) && ServerOk(c, w)
    requires Continues(v.streams, w.streams) && w.otherErrors >= v.otherErrors
    ensures HealthPasses(SummaryOf(pid, c, v), SummaryOf(pid, c, w), declared, expected)
      <==> c == declared.(identityHeader := false) && ServedExactly(c, v, w, expected)
  {
    if HealthPasses(SummaryOf(pid, c, v), SummaryOf(pid, c, w), declared, expected) {
      CountersToServed(c, v, w, expected);
    }
    if c == declared.(identityHeader := false) && ServedExactly(c, v, w, expected) {
      ServedPasses(pid, c, declared, v, w, expected);
    }
  }

  lemma ServedPasses(pid: int, c: Settings, declared: Settings, v: Server, w: Server, expected: nat)
    requires ValidSettings(c) && ValidSettings(declared) && ServerOk(c, v) && ServerOk(c, w)
    requires Continues(v.streams, w.streams)
    requires c == declared.(identityHeader := false) && ServedExactly(c, v, w, expected)
    ensures HealthPasses(SummaryOf(pid, c, v), SummaryOf(pid, c, w), declared, expected)
  {
    ServedToCounters(c, v, w, expected);
    var writes := DeclaredWrites(declared, expected);
    assert writes == DeclaredWrites(c, expected);
    if c.observed {
      EvidenceFollows(c, v, w, expected, writes);
    }
  }

  lemma QuietContinues(c: Settings, earlier: seq<Tick>, later: seq<Tick>)
    requires ValidSettings(c) && |Tokens(ServerRun(c, EMPTY, earlier).streams, Active)| == 0
    ensures var v := ServerRun(c, EMPTY, earlier);
      var w := ServerRun(c, v, later);
      ServerOk(c, v) && ServerOk(c, w) && Continues(v.streams, w.streams) && w.otherErrors >= v.otherErrors
  {
    var v := ServerRun(c, EMPTY, earlier);
    RunKeepsServer(c, EMPTY, earlier);
    RunKeepsServer(c, v, later);
    QuietIff(c, v);
    RunContinues(c, v, later);
  }

  /**
   Between two moments of one server's run, the first of them quiet, the health comparison passes exactly when
   `expected` new normal streams were accepted, each of them reached its end of file, no handler error was charged
   and the server is quiet again under the declared configuration. The delivery totals then agree by themselves:
   every one of those streams took exactly ceil(body / write) writes, drains and completed drains.
   */
  lemma HealthIff(
    pid: int, c: Settings, declared: Settings, earlier: seq<Tick>, later: seq<Tick>, expected: nat)
    requires ValidSettings(c) && ValidSettings(declared)
    requires |Tokens(ServerRun(c, EMPTY, earlier).streams, Active)| == 0
    ensures var v := ServerRun(c, EMPTY, earlier);
      var w := ServerRun(c, v, later);
      HealthPasses(SummaryOf(pid, c, v), SummaryOf(pid, c, w), declared, expected)
      <==>
      && c == declared.(identityHeader := false)
      && ServedExactly(c, v, w, expected)
  {
    QuietContinues(c, earlier, later);
    var v := ServerRun(c, EMPTY, earlier);
    HealthOfStates(pid, c, declared, v, ServerRun(c, v, later), expected);
  }

  lemma ServedStream(c: Settings, v: Server, w: Server, expected: nat, token: string)
    requires ServedExactly(c, v, w, expected)
    requires token in w.streams && token !in v.streams && w.streams[token].control == Normal
    ensures w.streams[token].eofSent
  {
    assert token in New(v.streams, w.streams);
  }

  lemma Served(c: Settings, s: Stream, now: nat)
    requires ValidSettings(c) && StreamOk(c, s, now) && s.eofSent
    ensures s.bytesWritten == c.bodyBytes && !s.disconnected
    ensures c.observed ==> s.delivery.Some? && Writes(s) == Drains(s) == DrainsDone(s) == Chunks(c)
  {
  }

  /** What a passing comparison says about each new normal stream. */
  lemma HealthyStreams(c: Settings, earlier: seq<Tick>, later: seq<Tick>, expected: nat, token: string)
    requires ValidSettings(c) && |Tokens(ServerRun(c, EMPTY, earlier).streams, Active)| == 0
    requires ServedExactly(c, ServerRun(c, EMPTY, earlier), ServerRun(c, ServerRun(c, EMPTY, earlier), later), expected)
    requires token in ServerRun(c, ServerRun(c, EMPTY, earlier), later).streams
    requires token !in ServerRun(c, EMPTY, earlier).streams
    ensures var s := ServerRun(c, ServerRun(c, EMPTY, earlier), later).streams[token];
      s.control == Normal ==>
        && s.eofSent && s.bytesWritten == c.bodyBytes && !s.disconnected
        && (c.observed ==> s.delivery.Some? && Writes(s) == Drains(s) == DrainsDone(s) == Chunks(c))
  {
    var v := ServerRun(c, EMPTY, earlier);
    var w := ServerRun(c, v, later);
    if w.streams[token].control == Normal {
      ServedStream(c, v, w, expected, token);
      QuietContinues(c, earlier, later);
      Served(c, w.streams[token], w.now);
    }
  }
}
