/**
 How a stream ends, told from its own events alone: it overflows exactly when more than the declared body arrives, and
 a stream that is properly served, in any chunking and with anything interleaved, ends intact.
 */
module StreamOutcomes {
  import opened Common
  import opened MapSums
  import opened Text
  import opened Histograms
  import opened BytesPayload
  import opened AttributionConsume
  import opened ObservationRuns
  import opened AttributionMeasure

  // ---------------------------------------------------------------- one stream's events

  /** The events that reached stream `i`, in order; what is addressed to it before it opens reaches nobody. */
  function EventsOf(moves: seq<Move>, i: nat): seq<Event> {
    if moves == [] then []
    else
      var init, last := moves[..|moves| - 1], moves[|moves| - 1];
      EventsOf(init, i) + if last.On? && last.stream == i && i < Opens(init) then [last.event] else []
  }

  /** All bytes delivered by the events, whether or not the stream was still listening. */
  function DeliveredIn(events: seq<Event>): Bytes {
    if events == [] then []
    else
      var last := events[|events| - 1];
      DeliveredIn(events[..|events| - 1]) + if last.Delivered? then last.chunk else []
  }

  predicate NothingRaised(events: seq<Event>) {
    forall k :: 0 <= k < |events| ==> !events[k].Raised?
  }

  lemma EventsSnoc(moves: seq<Move>, i: nat)
    requires moves != []
    ensures var init, last := moves[..|moves| - 1], moves[|moves| - 1];
      var events := EventsOf(init, i);
      && (last.On? && last.stream == i && i < Opens(init) ==> EventsOf(moves, i) == events + [last.event])
      && (!(last.On? && last.stream == i && i < Opens(init)) ==> EventsOf(moves, i) == events)
  {
  }

  /** One move seen from stream `i`: its own event, its opening, or nothing. */
  lemma MoveSeen(config: Config, body: nat, w: World, m: Move, i: nat)
    ensures var w' := Step(config, body, w, m);
      && (i < |w.streams| && m.On? && m.stream == i ==>
            w'.streams[i] == StreamStep(config, body, Some(w.budget), w.streams[i], m.event).1)
      && (i < |w.streams| && !(m.On? && m.stream == i) ==> w'.streams[i] == w.streams[i])
      && (i == |w.streams| && m.Open? ==> w'.streams[i] == FreshStream(m.startedNs))
  {
  }

  // ---------------------------------------------------------------- overflow

  /** The only error a stream has on its own is that too much arrived. */
  ghost predicate FailsByOverflow(s: Stream, body: nat) {
    s.error == if s.observations.bytesRead > body then Some("ValueError") else None
  }

  lemma StepOverflows(config: Config, body: nat, b: Budget, s: Stream, e: Event)
    requires FailsByOverflow(s, body) && Concluded(body, s) && !e.Raised?
    ensures FailsByOverflow(StreamStep(config, body, Some(b), s, e).1, body)
  {
    if e.Delivered? { ObservedBytes(config, Some(b), s.observations, |e.chunk|, e.arrivedNs, s.startedNs); }
  }

  lemma ObservedBytes(config: Config, b: Option<Budget>, o: Observations, size: nat, arrivedNs: int, startedNs: int)
    ensures ObserveStep(config, b, o, size, arrivedNs, startedNs).1.bytesRead == o.bytesRead + size
    ensures ObserveStep(config, b, o, size, arrivedNs, startedNs).1.trace == o.trace
  {
  }

  /**
   After any schedule in which nothing raised on stream `i`, the stream has failed exactly when more bytes arrived than
   its body declares.
   */
  lemma {:induction false} OverflowIff(
    config: Config, body: nat, recordCap: nat, binsCap: nat, global: bool, moves: seq<Move>, i: nat)
    requires i < Opens(moves) && NothingRaised(EventsOf(moves, i))
    ensures |Run(config, body, StartWorld(recordCap, binsCap, global), moves).streams| == Opens(moves)
    ensures var s := Run(config, body, StartWorld(recordCap, binsCap, global), moves).streams[i];
      && (s.error.Some? <==> Sum(SizesOf(s.arrivals)) > body)
      && (s.error.Some? ==> s.error == Some("ValueError"))
      && FailsByOverflow(s, body)
  {
    var start := StartWorld(recordCap, binsCap, global);
    var init, last := moves[..|moves| - 1], moves[|moves| - 1];
    RunOpens(config, body, start, moves);
    RunOpens(config, body, start, init);
    StartOk(config, body, recordCap, binsCap, global);
    RunKeepsWorld(config, body, start, moves);
    RunKeepsWorld(config, body, start, init);
    var w := Run(config, body, start, init);
    assert StreamOk(config, body, Run(config, body, start, moves).streams[i]);
    MoveSeen(config, body, w, last, i);
    EventsSnoc(moves, i);
    if i < |w.streams| {
      assert StreamOk(config, body, w.streams[i]);
      NothingRaisedBefore(moves, i);
      OverflowIff(config, body, recordCap, binsCap, global, init, i);
      if last.On? && last.stream == i {
        assert last.event == EventsOf(moves, i)[|EventsOf(moves, i)| - 1];
        StepOverflows(config, body, w.budget, w.streams[i], last.event);
      }
    }
  }

  lemma NothingRaisedBefore(moves: seq<Move>, i: nat)
    requires moves != [] && NothingRaised(EventsOf(moves, i))
    ensures NothingRaised(EventsOf(moves[..|moves| - 1], i))
  {
    var before, events := EventsOf(moves[..|moves| - 1], i), EventsOf(moves, i);
    forall k | 0 <= k < |before| ensures !before[k].Raised? {
      assert events[k] == before[k];
    }
  }

  // ---------------------------------------------------------------- exceptions

  lemma EndedStep(config: Config, body: nat, b: Option<Budget>, s: Stream, e: Event)
    requires s.phase == Closed
    ensures StreamStep(config, body, b, s, e).1 == s
  {
  }

  lemma EndedMove(config: Config, body: nat, w: World, m: Move, i: nat)
    requires i < |w.streams| && w.streams[i].phase == Closed
    ensures i < |Step(config, body, w, m).streams| && Step(config, body, w, m).streams[i] == w.streams[i]
  {
    if m.On? && m.stream == i { EndedStep(config, body, Some(w.budget), w.streams[i], m.event); }
    MoveSeen(config, body, w, m, i);
  }

  /** Nothing reaches a stream that has ended. */
  lemma {:induction false} EndedStays(config: Config, body: nat, w: World, moves: seq<Move>, i: nat)
    requires i < |w.streams| && w.streams[i].phase == Closed
    ensures |Run(config, body, w, moves).streams| > i && Run(config, body, w, moves).streams[i] == w.streams[i]
  {
    if moves != [] {
      var init := moves[..|moves| - 1];
      EndedStays(config, body, w, init, i);
      EndedMove(config, body, Run(config, body, w, init), moves[|moves| - 1], i);
    }
  }

  /**
   An exception ends a stream that has not ended yet, wherever it stands, and is the error it is left with whatever
   follows; what was received until then is kept. On a stream that has ended it changes nothing.
   */
  lemma RaisedIsKept(config: Config, body: nat, w: World, errorType: string, moves: seq<Move>, i: nat)
    requires i < |w.streams|
    ensures var after := Run(config, body, Step(config, body, w, On(i, Raised(errorType))), moves);
      var s := w.streams[i];
      && i < |after.streams|
      && after.streams[i] == if s.phase == Closed then s else s.(error := Some(errorType), phase := Closed)
  {
    var raised := Step(config, body, w, On(i, Raised(errorType)));
    MoveSeen(config, body, w, On(i, Raised(errorType)), i);
    EndedStays(config, body, raised, moves, i);
  }

  // ---------------------------------------------------------------- a served stream

  /** How far an undisturbed exchange has come. */
  datatype Stage = Connecting | Listening | Handling | Finished | Gone

  function NextStage(stage: Stage, e: Event): Option<Stage> {
    match stage
    case Connecting => if e.Connected? then Some(Listening) else None
    case Listening =>
      if e.Delivered? then Some(if e.chunk == [] then Listening else Handling)
      else if e.Exhausted? then Some(Finished) else None
    case Handling => if e.Consumed? then Some(Listening) else None
    case Finished => if e.Left? then Some(Gone) else None
    case Gone => None
  }

  /** Connect, then chunks, each handled before the next is awaited, then the end, then leaving; None otherwise. */
  function StageOf(events: seq<Event>): Option<Stage> {
    if events == [] then Some(Stage.Connecting)
    else
      var before := StageOf(events[..|events| - 1]);
      if before.None? then None else NextStage(before.value, events[|events| - 1])
  }

  function HeadIn(events: seq<Event>): Option<Head> {
    if events == [] then None
    else if events[|events| - 1].Connected? then Some(events[|events| - 1].head)
    else HeadIn(events[..|events| - 1])
  }

  ghost predicate AtStage(s: Stream, stage: Stage) {
    match stage
    case Connecting => s.phase == Phase.Connecting && !s.eof
    case Listening => s.phase == Awaiting && !s.eof
    case Handling => s.phase.Consuming? && !s.eof
    case Finished => s.phase == Exiting && s.eof
    case Gone => s.phase == Closed && s.eof
  }

  /** The stream holds what the events delivered, until they deliver too much. */
  ghost predicate Tracks(s: Stream, events: seq<Event>, body: nat) {
    var bytes := DeliveredIn(events);
    if |bytes| <= body then
      && StageOf(events).Some? && AtStage(s, StageOf(events).value)
      && s.error.None? && s.digest == bytes && s.observations.bytesRead == |bytes| && s.head == HeadIn(events)
    else s.error.Some? && s.phase == Closed
  }

  lemma Snocs(events: seq<Event>, e: Event)
    ensures (events + [e])[..|events|] == events
    ensures DeliveredIn(events + [e]) == DeliveredIn(events) + if e.Delivered? then e.chunk else []
    ensures HeadIn(events + [e]) == if e.Connected? then Some(e.head) else HeadIn(events)
    ensures StageOf(events + [e]) == if StageOf(events).None? then None else NextStage(StageOf(events).value, e)
  {
    assert (events + [e])[..|events|] == events;
  }

  lemma StepTracks(config: Config, body: nat, b: Budget, s: Stream, events: seq<Event>, e: Event)
    requires Tracks(s, events, body) && StageOf(events + [e]).Some?
    ensures Tracks(StreamStep(config, body, Some(b), s, e).1, events + [e], body)
  {
    Snocs(events, e);
    if e.Delivered? { ObservedBytes(config, Some(b), s.observations, |e.chunk|, e.arrivedNs, s.startedNs); }
  }

  lemma {:induction false} RunTracks(
    config: Config, body: nat, recordCap: nat, binsCap: nat, global: bool, moves: seq<Move>, i: nat)
    requires i < Opens(moves) && StageOf(EventsOf(moves, i)).Some?
    ensures |Run(config, body, StartWorld(recordCap, binsCap, global), moves).streams| == Opens(moves)
    ensures var w := Run(config, body, StartWorld(recordCap, binsCap, global), moves);
      Tracks(w.streams[i], EventsOf(moves, i), body)
  {
    var start := StartWorld(recordCap, binsCap, global);
    var init, last := moves[..|moves| - 1], moves[|moves| - 1];
    RunOpens(config, body, start, moves);
    RunOpens(config, body, start, init);
    var w := Run(config, body, start, init);
    MoveSeen(config, body, w, last, i);
    EventsSnoc(moves, i);
    if i < |w.streams| {
      if last.On? && last.stream == i {
        Snocs(EventsOf(init, i), last.event);
        RunTracks(config, body, recordCap, binsCap, global, init, i);
        StepTracks(config, body, w.budget, w.streams[i], EventsOf(init, i), last.event);
      } else {
        RunTracks(config, body, recordCap, binsCap, global, init, i);
      }
    } else {
      NotYetOpen(init, i);
    }
  }

  lemma {:induction false} NotYetOpen(moves: seq<Move>, i: nat)
    requires Opens(moves) <= i
    ensures EventsOf(moves, i) == []
  {
    if moves != [] { NotYetOpen(moves[..|moves| - 1], i); }
  }

  /** The response head the workload declares. */
  predicate Declared(head: Option<Head>, body: nat) {
    && head.Some? && head.value.statusCode == 200 && head.value.contentLength == Some(Decimal(body))
    && head.value.transferEncoding.None? && head.value.contentEncoding.None?
    && head.value.httpVersion in {Some("HTTP/1.1"), Some("1.1")}
  }

  /** An undisturbed exchange that ran to its end. */
  ghost predicate Exchanged(moves: seq<Move>, i: nat) {
    i < Opens(moves) && StageOf(EventsOf(moves, i)) == Some(Gone)
  }

  lemma DeclaredOnce(body: nat)
    ensures forall n: nat :: Decimal(n) == Decimal(body) <==> n == body
  {
    forall n: nat | Decimal(n) == Decimal(body) ensures n == body { DecimalInjective(n, body); }
  }

  lemma TrackedIntact<D>(s: Stream, events: seq<Event>, sha: Bytes -> D, body: nat, expected: D)
    requires Tracks(s, events, body) && StageOf(events) == Some(Gone)
    ensures Intact(sha, s, body, expected) <==>
      && Declared(HeadIn(events), body)
      && |DeliveredIn(events)| == body && sha(DeliveredIn(events)) == expected
  {
    DeclaredOnce(body);
    if Intact(sha, s, body, expected) {
      assert s.head.value.contentLength == Some(Decimal(body)) <==> body == body;
    }
  }

  /**
   An exchange that ran to its end leaves the stream intact exactly when its head was the declared one and what was
   delivered, in whatever chunks, has the declared length and digest.
   */
  lemma ServedIntactIff<D>(
    config: Config, body: nat, recordCap: nat, binsCap: nat, global: bool, moves: seq<Move>, i: nat,
    sha: Bytes -> D, expected: D)
    requires Exchanged(moves, i)
    ensures |Run(config, body, StartWorld(recordCap, binsCap, global), moves).streams| == Opens(moves)
    ensures var bytes := DeliveredIn(EventsOf(moves, i));
      Intact(sha, Run(config, body, StartWorld(recordCap, binsCap, global), moves).streams[i], body, expected) <==>
      Declared(HeadIn(EventsOf(moves, i)), body) && |bytes| == body && sha(bytes) == expected
  {
    RunTracks(config, body, recordCap, binsCap, global, moves, i);
    TrackedIntact(Run(config, body, StartWorld(recordCap, binsCap, global), moves).streams[i], EventsOf(moves, i),
                  sha, body, expected);
  }

  /** A stream that is served the declared body. */
  ghost predicate Served(moves: seq<Move>, i: nat, body: nat) {
    && Exchanged(moves, i) && Declared(HeadIn(EventsOf(moves, i)), body)
    && DeliveredIn(EventsOf(moves, i)) == Pattern(body)
  }

  /** ... ends intact, whatever the other streams do. */
  lemma ServedIsIntact<D>(
    config: Config, body: nat, recordCap: nat, binsCap: nat, global: bool, moves: seq<Move>, i: nat, sha: Bytes -> D)
    requires Served(moves, i, body)
    ensures |Run(config, body, StartWorld(recordCap, binsCap, global), moves).streams| == Opens(moves)
    ensures Intact(sha, Run(config, body, StartWorld(recordCap, binsCap, global), moves).streams[i], body,
                   sha(Pattern(body)))
  {
    ServedIntactIff(config, body, recordCap, binsCap, global, moves, i, sha, sha(Pattern(body)));
  }

  // ---------------------------------------------------------------- diagnostic records

  /** When each nonempty delivery was awaited and when it arrived. */
  function NonemptyIn(events: seq<Event>): seq<(int, int)> {
    if events == [] then []
    else
      var last := events[|events| - 1];
      NonemptyIn(events[..|events| - 1])
      + if last.Delivered? && last.chunk != [] then [(last.awaitStartedNs, last.arrivedNs)] else []
  }

  function EmptyIn(events: seq<Event>): nat {
    if events == [] then 0
    else
      var last := events[|events| - 1];
      EmptyIn(events[..|events| - 1]) + if last.Delivered? && last.chunk == [] then 1 else 0
  }

  /** One record per handled chunk: its number, and when it was awaited, arrived and was done with. */
  function TraceLog(events: seq<Event>): seq<TraceSample> {
    if events == [] then []
    else
      var init, last := events[..|events| - 1], events[|events| - 1];
      var chunks := NonemptyIn(init);
      TraceLog(init)
      + if last.Consumed? && chunks != []
        then [TraceSample(|chunks|, chunks[|chunks| - 1].0, chunks[|chunks| - 1].1, last.finishedNs)] else []
  }

  /** In an undisturbed exchange, record k is about chunk k. */
  lemma {:induction false} LogNumbers(events: seq<Event>)
    requires StageOf(events).Some?
    ensures |TraceLog(events)| + (if StageOf(events) == Some(Handling) then 1 else 0) == |NonemptyIn(events)|
    ensures forall k :: 0 <= k < |TraceLog(events)| ==>
      var chunk := NonemptyIn(events)[k];
      TraceLog(events)[k].index == k + 1
      && TraceLog(events)[k].awaitStartNs == chunk.0 && TraceLog(events)[k].awaitFinishedNs == chunk.1
  {
    if events != [] { LogNumbers(events[..|events| - 1]); }
  }

  /** Deliveries are counted; the trace is the beginning of the log, cut only by a cap that is still reached. */
  ghost predicate TraceTracks(config: Config, b: Budget, s: Stream, events: seq<Event>) {
    var log, chunks := TraceLog(events), NonemptyIn(events);
    && s.observations.chunksRead == |chunks| && s.observations.emptyDeliveries == EmptyIn(events)
    && (s.phase.Consuming? ==> chunks != [] && chunks[|chunks| - 1] == (s.phase.awaitStartedNs, s.phase.arrivedNs))
    && s.observations.trace <= log
    && (!config.diagnostic ==> s.observations.trace == [])
    && (config.diagnostic && |s.observations.trace| < |log| ==>
          |s.observations.trace| >= config.chunkSampleCap || b.records >= b.recordCap)
  }

  lemma TraceSnocs(events: seq<Event>, e: Event)
    ensures NonemptyIn(events + [e])
         == NonemptyIn(events) + if e.Delivered? && e.chunk != [] then [(e.awaitStartedNs, e.arrivedNs)] else []
    ensures EmptyIn(events + [e]) == EmptyIn(events) + if e.Delivered? && e.chunk == [] then 1 else 0
    ensures var chunks := NonemptyIn(events);
      TraceLog(events + [e]) == TraceLog(events)
        + if e.Consumed? && chunks != []
          then [TraceSample(|chunks|, chunks[|chunks| - 1].0, chunks[|chunks| - 1].1, e.finishedNs)] else []
  {
    assert (events + [e])[..|events|] == events;
  }

  lemma ObserveLeaves(config: Config, b: Budget, o: Observations, size: nat, arrivedNs: int, startedNs: int)
    ensures var (b', o') := ObserveStep(config, Some(b), o, size, arrivedNs, startedNs);
      && o'.chunksRead == o.chunksRead + (if size > 0 then 1 else 0) && o'.trace == o.trace
      && o'.emptyDeliveries == o.emptyDeliveries + (if size > 0 then 0 else 1)
      && b'.Some? && b'.value.records >= b.records && b'.value.recordCap == b.recordCap
  {
  }

  lemma StepTraces(config: Config, body: nat, b: Budget, s: Stream, events: seq<Event>, e: Event)
    requires Tracks(s, events, body) && TraceTracks(config, b, s, events) && StageOf(events + [e]).Some?
    requires |DeliveredIn(events + [e])| <= body
    ensures var (b', s') := StreamStep(config, body, Some(b), s, e);
      b'.Some? && TraceTracks(config, b'.value, s', events + [e])
  {
    Snocs(events, e);
    TraceSnocs(events, e);
    if e.Delivered? {
      ObserveLeaves(config, b, s.observations, |e.chunk|, e.arrivedNs, s.startedNs);
      ObservedBytes(config, Some(b), s.observations, |e.chunk|, e.arrivedNs, s.startedNs);
    }
  }

  /** Shared records are never given back. */
  lemma BudgetGrows(config: Config, body: nat, w: World, m: Move)
    ensures var w' := Step(config, body, w, m);
      w'.budget.records >= w.budget.records && w'.budget.recordCap == w.budget.recordCap
  {
    if m.On? && m.stream < |w.streams| && m.event.Delivered? {
      var s := w.streams[m.stream];
      ObserveLeaves(config, w.budget, s.observations, |m.event.chunk|, m.event.arrivedNs, s.startedNs);
    }
  }

  /**
   With diagnostics, the trace of an undisturbed exchange records its handled chunks from the first on, each with its
   number and its own times, until its own cap or the shared one is reached; without diagnostics there is none.
   */
  lemma {:induction false} TraceIsPrefix(
    config: Config, body: nat, recordCap: nat, binsCap: nat, global: bool, moves: seq<Move>, i: nat)
    requires i < Opens(moves) && StageOf(EventsOf(moves, i)).Some? && |DeliveredIn(EventsOf(moves, i))| <= body
    ensures |Run(config, body, StartWorld(recordCap, binsCap, global), moves).streams| == Opens(moves)
    ensures var w := Run(config, body, StartWorld(recordCap, binsCap, global), moves);
      TraceTracks(config, w.budget, w.streams[i], EventsOf(moves, i))
  {
    var start := StartWorld(recordCap, binsCap, global);
    var init, last := moves[..|moves| - 1], moves[|moves| - 1];
    RunOpens(config, body, start, moves);
    RunOpens(config, body, start, init);
    var w := Run(config, body, start, init);
    MoveSeen(config, body, w, last, i);
    EventsSnoc(moves, i);
    BudgetGrows(config, body, w, last);
    if i < |w.streams| {
      RunTracksBefore(config, body, recordCap, binsCap, global, moves, i);
      TraceIsPrefix(config, body, recordCap, binsCap, global, init, i);
      if last.On? && last.stream == i {
        StepTraces(config, body, w.budget, w.streams[i], EventsOf(init, i), last.event);
      }
    } else {
      NotYetOpen(init, i);
    }
  }

  /** What holds of a run holds of the run without its last move. */
  lemma RunTracksBefore(
    config: Config, body: nat, recordCap: nat, binsCap: nat, global: bool, moves: seq<Move>, i: nat)
    requires moves != [] && i < Opens(moves[..|moves| - 1]) && StageOf(EventsOf(moves, i)).Some?
    ensures var init := moves[..|moves| - 1];
      && StageOf(EventsOf(init, i)).Some? && |DeliveredIn(EventsOf(init, i))| <= |DeliveredIn(EventsOf(moves, i))|
      && |Run(config, body, StartWorld(recordCap, binsCap, global), init).streams| == Opens(init)
      && Tracks(Run(config, body, StartWorld(recordCap, binsCap, global), init).streams[i], EventsOf(init, i), body)
  {
    var init, last := moves[..|moves| - 1], moves[|moves| - 1];
    EventsSnoc(moves, i);
    if last.On? && last.stream == i {
      Snocs(EventsOf(init, i), last.event);
    }
    RunTracks(config, body, recordCap, binsCap, global, init, i);
  }
}
