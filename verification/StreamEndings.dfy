/**
 How a response body ends, told from the events: which exceptions leave the handler, what they are booked as, and that
 a body whose writes and drains all succeed reaches its end.
 */
module StreamEndings {
  import opened Common
  import opened Arithmetic
  import opened StreamMachine
  import opened ServerRuns

  // ---------------------------------------------------------------- exceptions

  predicate More(c: Settings, index: nat) {
    (index + 1) * c.writeBytes < c.bodyBytes
  }

  /** The peer is known to be there after a wait for release. */
  predicate Present(s: Stream, peerGone: bool) {
    !s.disconnected && !peerGone
  }

  /** Whether the handler, woken by `e`, writes a chunk before its next await. */
  predicate WritesNext(c: Settings, s: Stream, e: Event) {
    match e
    case HeadersDrained(_) => s.place == HeaderDrain && s.control != BodyWait
    case DrainDone(_, _) =>
      && s.place.Drain? && !(s.control == HeldTail && s.place.index == 0)
      && More(c, s.place.index) && c.writeDelayS == 0.0
    case Woke(_) => s.place.Sleep?
    case Resumed(peerGone, _) =>
      && s.released && Present(s, peerGone)
      && (s.place == ReleaseWait || (s.place == TailWait && More(c, 0) && c.writeDelayS == 0.0))
    case _ => false
  }

  predicate Draining(s: Stream) {
    s.place == HeaderDrain || s.place.Drain?
  }

  /** The exception `e` lets out of a write or a drain, and whether it is a connection error. */
  function ExceptionOf(c: Settings, s: Stream, e: Event): Option<bool> {
    if e.DrainRaised? then (if Draining(s) then Some(e.connection) else None)
    else if WritesNext(c, s, e) && e.io.Raised? then Some(e.io.connection)
    else None
  }

  /**
   An exception ends the stream: a connection error as a disconnect, any other as a failure that is charged, and
   nothing else fails a stream.
   */
  lemma ExceptionDecides(c: Settings, s: Stream, now: nat, e: Event)
    requires ValidSettings(c) && StreamOk(c, s, now)
    ensures var t, x := StreamStep(c, s, now, e), ExceptionOf(c, s, e);
      && (x.Some? ==> t.place == Ended && !t.eofSent && (t.disconnected <==> x.value) && (Failed(t) <==> !x.value))
      && (Failed(t) <==> Failed(s) || x == Some(false))
  {
    assert More(c, 0);
  }

  /** Whether a handler that waits for its release learns from `e` that the peer has gone. */
  predicate LosesPeer(s: Stream, e: Event) {
    && (s.place == ReleaseWait || s.place == TailWait)
    && (e.PeerGone? || (e.Resumed? && s.released && e.peerGone))
  }

  /** A stream is marked disconnected exactly by a connection error or by losing its peer during a wait. */
  lemma DisconnectedIff(c: Settings, s: Stream, now: nat, e: Event)
    requires ValidSettings(c) && StreamOk(c, s, now)
    ensures StreamStep(c, s, now, e).disconnected
      <==> s.disconnected || ExceptionOf(c, s, e) == Some(true) || LosesPeer(s, e)
  {
    assert More(c, 0);
  }

  /** The end of file is sent exactly when the drain of the last chunk succeeds. */
  lemma EofIff(c: Settings, s: Stream, now: nat, e: Event)
    requires ValidSettings(c) && StreamOk(c, s, now)
    ensures StreamStep(c, s, now, e).eofSent
      <==> s.eofSent || (e.DrainDone? && s.place.Drain? && !More(c, s.place.index))
  {
    assert More(c, 0);
  }

  // ---------------------------------------------------------------- charges over a run

  /** An exception that is no connection error leaves the handler of an accepted stream. */
  predicate Uncaught(c: Settings, v: Server, r: Request) {
    match r
    case Open(token, control, header, _) => !Refused(v, token, control) && header.Raised? && !header.connection
    case OnStream(token, event) =>
      token in v.streams && !event.Release? && ExceptionOf(c, v.streams[token], event) == Some(false)
    case _ => false
  }

  /** A reply outside the accepted streams could not be written. */
  predicate Unanswered(v: Server, r: Request) {
    match r
    case Open(token, control, _, answered) => Refused(v, token, control) && !answered
    case OnStream(_, _) => false
    case ReleaseStream(_, answered) => !answered
    case Other(answered) => !answered
  }

  function UncaughtIn(c: Settings, ticks: seq<Tick>): nat {
    if ticks == [] then 0
    else
      var init, last := ticks[..|ticks| - 1], ticks[|ticks| - 1];
      UncaughtIn(c, init) + if Uncaught(c, ServerRun(c, EMPTY, init), last.request) then 1 else 0
  }

  function UnansweredIn(c: Settings, ticks: seq<Tick>): nat {
    if ticks == [] then 0
    else
      var init, last := ticks[..|ticks| - 1], ticks[|ticks| - 1];
      UnansweredIn(c, init) + if Unanswered(ServerRun(c, EMPTY, init), last.request) then 1 else 0
  }

  lemma HandleCharges(c: Settings, v: Server, r: Request)
    requires ValidSettings(c) && ServerOk(c, v)
    ensures var w := ServerHandle(c, v, r);
      && w.otherErrors == v.otherErrors + (if Unanswered(v, r) then 1 else 0)
      && w.handlerErrors - w.otherErrors == v.handlerErrors - v.otherErrors + if Uncaught(c, v, r) then 1 else 0
  {
    if r.OnStream? && r.token in v.streams {
      ExceptionDecides(c, v.streams[r.token], v.now, r.event);
    } else if r.ReleaseStream? && r.token in v.streams {
      ExceptionDecides(c, v.streams[r.token], v.now, Release);
    }
  }

  lemma LaterSame(c: Settings, v: Server, elapsedNs: nat, r: Request)
    ensures Uncaught(c, Later(v, elapsedNs), r) <==> Uncaught(c, v, r)
    ensures Unanswered(Later(v, elapsedNs), r) <==> Unanswered(v, r)
  {
  }

  /**
   After any schedule the handler errors are exactly the exceptions other than connection errors that left an accepted
   stream, and the replies outside them that could not be written.
   */
  lemma {:induction false} ChargedExactly(c: Settings, ticks: seq<Tick>)
    requires ValidSettings(c)
    ensures var v := ServerRun(c, EMPTY, ticks);
      && v.handlerErrors == UncaughtIn(c, ticks) + UnansweredIn(c, ticks)
      && v.handlerErrors - v.otherErrors == UncaughtIn(c, ticks)
  {
    if ticks != [] {
      var init, last := ticks[..|ticks| - 1], ticks[|ticks| - 1];
      ChargedExactly(c, init);
      RunKeepsServer(c, EMPTY, init);
      var v := ServerRun(c, EMPTY, init);
      LaterKeeps(c, v, last.elapsedNs);
      LaterSame(c, v, last.elapsedNs, last.request);
      HandleCharges(c, Later(v, last.elapsedNs), last.request);
    }
  }

  // ---------------------------------------------------------------- reaching the end

  const DONE := Wrote(0, 0)

  function StreamRun(c: Settings, s: Stream, now: nat, events: seq<Event>): Stream {
    if events == [] then s
    else StreamStep(c, StreamRun(c, s, now, events[..|events| - 1]), now, events[|events| - 1])
  }

  lemma {:induction false} RunPlus(c: Settings, s: Stream, now: nat, a: seq<Event>, b: seq<Event>)
    ensures StreamRun(c, s, now, a + b) == StreamRun(c, StreamRun(c, s, now, a), now, b)
    decreases |b|
  {
    if b == [] {
      assert a + b == a;
    } else {
      RunPlus(c, s, now, a, b[..|b| - 1]);
      assert (a + b)[..|a + b| - 1] == a + b[..|b| - 1];
    }
  }

  lemma RunThree(c: Settings, s: Stream, now: nat, x: Event, y: Event, z: Event)
    ensures StreamRun(c, s, now, [x]) == StreamStep(c, s, now, x)
    ensures StreamRun(c, s, now, [x, y]) == StreamStep(c, StreamStep(c, s, now, x), now, y)
    ensures StreamRun(c, s, now, [x, y, z])
         == StreamStep(c, StreamStep(c, StreamStep(c, s, now, x), now, y), now, z)
  {
    assert [x][..0] == [] && [x, y][..1] == [x] && [x, y, z][..2] == [x, y];
    assert StreamRun(c, s, now, []) == s;
  }

  /** Headers and, where the body waits for it, the release. */
  function Opening(control: Control): seq<Event> {
    if control == BodyWait then [HeadersDrained(DONE), Release, Resumed(false, DONE)] else [HeadersDrained(DONE)]
  }

  /** From one chunk under way to the next. */
  function ToNext(c: Settings, control: Control, index: nat): seq<Event> {
    [DrainDone(0, DONE)]
    + (if control == HeldTail && index == 0 then [Release, Resumed(false, DONE)] else [])
    + if c.writeDelayS != 0.0 then [Woke(DONE)] else []
  }

  /** Everything that happens until chunk `index` is under way, when nothing goes wrong. */
  function Until(c: Settings, control: Control, index: nat): seq<Event> {
    if index == 0 then Opening(control) else Until(c, control, index - 1) + ToNext(c, control, index - 1)
  }

  ghost predicate UnderWay(c: Settings, s: Stream, control: Control, index: nat, now: nat) {
    && StreamOk(c, s, now) && s.control == control && s.place == Drain(index)
    && s.bytesWritten == index * c.writeBytes
  }

  lemma BeginsBody(c: Settings, control: Control, now: nat)
    requires ValidSettings(c)
    ensures UnderWay(c, StreamRun(c, Opened(c, control), now, Opening(control)), control, 0, now)
  {
    var s := Opened(c, control);
    OpenOk(c, control, now, DONE);
    RunThree(c, s, now, HeadersDrained(DONE), Release, Resumed(false, DONE));
    var s1 := StreamStep(c, s, now, HeadersDrained(DONE));
    EventKeepsStream(c, s, now, HeadersDrained(DONE));
    if control == BodyWait {
      var s2 := StreamStep(c, s1, now, Release);
      EventKeepsStream(c, s1, now, Release);
      EventKeepsStream(c, s2, now, Resumed(false, DONE));
    }
  }

  /** A drained chunk leads to the next one, through the release and the delay where there are any. */
  lemma GoesOn(c: Settings, s: Stream, control: Control, index: nat, now: nat)
    requires ValidSettings(c) && UnderWay(c, s, control, index, now) && More(c, index)
    ensures UnderWay(c, StreamRun(c, s, now, ToNext(c, control, index)), control, index + 1, now)
  {
    var held := control == HeldTail && index == 0;
    RunPlus(c, s, now, [DrainDone(0, DONE)] + (if held then [Release, Resumed(false, DONE)] else []),
            if c.writeDelayS != 0.0 then [Woke(DONE)] else []);
    AfterDrain(c, s, control, index, now);
    var t := StreamRun(c, s, now, [DrainDone(0, DONE)] + if held then [Release, Resumed(false, DONE)] else []);
    RunThree(c, t, now, Woke(DONE), Release, Release);
    assert StreamRun(c, t, now, []) == t;
    EventKeepsStream(c, t, now, Woke(DONE));
  }

  lemma AfterDrain(c: Settings, s: Stream, control: Control, index: nat, now: nat)
    requires ValidSettings(c) && UnderWay(c, s, control, index, now) && More(c, index)
    ensures var held := control == HeldTail && index == 0;
      var t := StreamRun(c, s, now, [DrainDone(0, DONE)] + if held then [Release, Resumed(false, DONE)] else []);
      && StreamOk(c, t, now) && t.control == control && t.bytesWritten == (index + 1) * c.writeBytes
      && t.place == if c.writeDelayS != 0.0 then Sleep(index + 1) else Drain(index + 1)
  {
    ChunkAt(c, index);
    RunThree(c, s, now, DrainDone(0, DONE), Release, Resumed(false, DONE));
    assert [DrainDone(0, DONE)] + [Release, Resumed(false, DONE)]
        == [DrainDone(0, DONE), Release, Resumed(false, DONE)];
    assert [DrainDone(0, DONE)] + [] == [DrainDone(0, DONE)];
    var s1 := StreamStep(c, s, now, DrainDone(0, DONE));
    EventKeepsStream(c, s, now, DrainDone(0, DONE));
    if control == HeldTail && index == 0 {
      var s2 := StreamStep(c, s1, now, Release);
      EventKeepsStream(c, s1, now, Release);
      EventKeepsStream(c, s2, now, Resumed(false, DONE));
    }
  }

  lemma {:induction false} ReachesChunk(c: Settings, control: Control, index: nat, now: nat)
    requires ValidSettings(c) && index * c.writeBytes < c.bodyBytes
    ensures UnderWay(c, StreamRun(c, Opened(c, control), now, Until(c, control, index)), control, index, now)
  {
    if index == 0 {
      BeginsBody(c, control, now);
    } else {
      Widen(index - 1, index, c.writeBytes);
      ReachesChunk(c, control, index - 1, now);
      RunPlus(c, Opened(c, control), now, Until(c, control, index - 1), ToNext(c, control, index - 1));
      GoesOn(c, StreamRun(c, Opened(c, control), now, Until(c, control, index - 1)), control, index - 1, now);
    }
  }

  /**
   With every write and drain successful and every wait released, a stream of any kind writes its whole body and sends
   the end of file after ceil(body / write) chunks.
   */
  lemma WholeBodyServed(c: Settings, control: Control, now: nat)
    requires ValidSettings(c)
    ensures Chunks(c) >= 1
    ensures var s := StreamRun(c, Opened(c, control), now, Until(c, control, Chunks(c) - 1) + [DrainDone(0, DONE)]);
      s.eofSent && s.bytesWritten == c.bodyBytes && !s.active && !s.disconnected
  {
    LastIndex(c);
    var n := Chunks(c) - 1;
    ReachesChunk(c, control, n, now);
    RunPlus(c, Opened(c, control), now, Until(c, control, n), [DrainDone(0, DONE)]);
    var s := StreamRun(c, Opened(c, control), now, Until(c, control, n));
    RunThree(c, s, now, DrainDone(0, DONE), Release, Release);
    EofIff(c, s, now, DrainDone(0, DONE));
    EventKeepsStream(c, s, now, DrainDone(0, DONE));
  }

  /** The last chunk begins within the body and ends it. */
  lemma LastIndex(c: Settings)
    requires ValidSettings(c)
    ensures Chunks(c) >= 1 && (Chunks(c) - 1) * c.writeBytes < c.bodyBytes && !More(c, Chunks(c) - 1)
  {
    var n, q := c.bodyBytes + c.writeBytes - 1, Chunks(c);
    var r := n % c.writeBytes;
    assert n == q * c.writeBytes + r && 0 <= r < c.writeBytes;
    assert (q - 1) * c.writeBytes == q * c.writeBytes - c.writeBytes;
    assert (q - 1 + 1) * c.writeBytes == q * c.writeBytes;
  }
}
