/**
 One response body of the lifecycle server, cut at its awaits: header drain, the two release barriers, the write
 and drain of each chunk and the configured delay between chunks.
 */
module StreamMachine {
  import opened Common
  import opened Arithmetic

  /** What the server was started with; the command line admits only 0 < writeBytes < bodyBytes. */
  datatype Settings = Settings(
    bodyBytes: nat,
    writeBytes: nat,
    writeDelayS: real,
    identityHeader: bool,
    observed: bool)

  predicate ValidSettings(c: Settings) {
    0 < c.writeBytes < c.bodyBytes
  }

  datatype Control = Normal | HeldTail | BodyWait

  datatype Delivery = Delivery(
    startedNs: Option<nat>,
    finishedNs: Option<nat>,
    writeCalls: nat,
    drainCalls: nat,
    drainsCompleted: nat,
    writeElapsedNs: nat,
    drainElapsedNs: nat,
    maxBufferBytes: nat)

  const NOT_STARTED := Delivery(None, None, 0, 0, 0, 0, 0, 0)

  /** Where a handler is suspended; chunk `index` starts at offset `index * writeBytes`. */
  datatype Place =
    | HeaderDrain
    | ReleaseWait
    | Drain(index: nat)
    | Sleep(index: nat)
    | TailWait
    | Ended

  datatype Stream = Stream(
    control: Control,
    released: bool,
    headersSent: bool,
    firstWritten: bool,
    eofSent: bool,
    disconnected: bool,
    bytesWritten: nat,
    active: bool,
    delivery: Option<Delivery>,
    place: Place)

  /** The outcome of one `writer.write`: it may raise a connection error or any other. */
  datatype Write = Wrote(elapsedNs: nat, bufferBytes: nat) | Raised(elapsedNs: nat, connection: bool)

  /** What wakes a handler; `io` is the next write, if one follows without another await. */
  datatype Event =
    | HeadersDrained(io: Write)
    | DrainDone(spentNs: nat, io: Write)
    | DrainRaised(spentNs: nat, connection: bool)
    | Woke(io: Write)
    | PeerGone
    | Resumed(peerGone: bool, io: Write)
    | Release

  function Opened(c: Settings, control: Control): Stream {
    Stream(control, false, false, false, false, false, 0, true, if c.observed then Some(NOT_STARTED) else None,
           HeaderDrain)
  }

  function Finished(d: Option<Delivery>, now: nat): Option<Delivery> {
    if d.Some? && d.value.startedNs.Some? then Some(d.value.(finishedNs := Some(now))) else d
  }

  /** Leaving the handler without an exception. */
  function Leave(s: Stream, now: nat): (r: Stream)
    ensures r.control == s.control && r.released == s.released
  {
    s.(active := false, place := Ended, delivery := Finished(s.delivery, now))
  }

  /** Leaving by an exception; only a connection error marks the stream disconnected. */
  function Fail(s: Stream, now: nat, connection: bool): (r: Stream)
    ensures r.control == s.control && r.released == s.released
  {
    Leave(s.(disconnected := s.disconnected || connection), now)
  }

  /** `BodyDelivery.write` up to its drain. */
  function Begun(d: Delivery, io: Write): Delivery {
    match io
    case Wrote(elapsedNs, bufferBytes) =>
      d.(writeCalls := d.writeCalls + 1, writeElapsedNs := d.writeElapsedNs + elapsedNs,
         maxBufferBytes := Max(d.maxBufferBytes, bufferBytes), drainCalls := d.drainCalls + 1)
    case Raised(elapsedNs, _) =>
      d.(writeCalls := d.writeCalls + 1, writeElapsedNs := d.writeElapsedNs + elapsedNs)
  }

  /** `BodyDelivery.write` after its drain. */
  function Drained(d: Delivery, spentNs: nat): Delivery {
    d.(drainElapsedNs := d.drainElapsedNs + spentNs, drainsCompleted := d.drainsCompleted + 1)
  }

  function WriteChunk(s: Stream, index: nat, now: nat, io: Write): (r: Stream)
    ensures r.control == s.control && r.released == s.released
  {
    var s := s.(delivery := if s.delivery.Some? then Some(Begun(s.delivery.value, io)) else None);
    if io.Raised? then Fail(s, now, io.connection) else s.(place := Drain(index))
  }

  function BeginBody(s: Stream, now: nat, io: Write): (r: Stream)
    ensures r.control == s.control && r.released == s.released
  {
    WriteChunk(s.(delivery := if s.delivery.Some? then Some(s.delivery.value.(startedNs := Some(now))) else None),
               0, now, io)
  }

  /** The end of one loop iteration: stop, pause or write the next chunk. */
  function NextChunk(c: Settings, s: Stream, index: nat, now: nat, io: Write): (r: Stream)
    ensures r.control == s.control && r.released == s.released
  {
    if s.disconnected then Leave(s, now)
    else if (index + 1) * c.writeBytes >= c.bodyBytes then Leave(s.(eofSent := true), now)
    else if c.writeDelayS != 0.0 then s.(place := Sleep(index + 1))
    else WriteChunk(s, index + 1, now, io)
  }

  function ChunkLength(c: Settings, index: nat): nat {
    if index * c.writeBytes + c.writeBytes <= c.bodyBytes then c.writeBytes
    else if index * c.writeBytes <= c.bodyBytes then c.bodyBytes - index * c.writeBytes
    else 0
  }

  function StreamStep(c: Settings, s: Stream, now: nat, e: Event): (r: Stream)
    ensures r.control == s.control && r.released == (s.released || e.Release?)
  {
    match e
    case HeadersDrained(io) =>
      if s.place != HeaderDrain then s
      else
        var s := s.(headersSent := true);
        if s.control == BodyWait then s.(place := ReleaseWait) else BeginBody(s, now, io)
    case DrainDone(spentNs, io) =>
      if !s.place.Drain? then s
      else
        var index := s.place.index;
        var s := s.(delivery := if s.delivery.Some? then Some(Drained(s.delivery.value, spentNs)) else None,
                    bytesWritten := s.bytesWritten + ChunkLength(c, index), firstWritten := true);
        if s.control == HeldTail && index == 0 then s.(place := TailWait) else NextChunk(c, s, index, now, io)
    case DrainRaised(spentNs, connection) =>
      if s.place == HeaderDrain then Fail(s, now, connection)
      else if s.place.Drain? then
        Fail(s.(delivery := if s.delivery.Some?
                            then Some(s.delivery.value.(drainElapsedNs := s.delivery.value.drainElapsedNs + spentNs))
                            else None), now, connection)
      else s
    case Woke(io) =>
      if s.place.Sleep? then WriteChunk(s, s.place.index, now, io) else s
    case PeerGone =>
      if s.place == ReleaseWait || s.place == TailWait then s.(disconnected := true) else s
    case Resumed(peerGone, io) =>
      if !s.released then s
      else
        var t := s.(disconnected := s.disconnected || peerGone);
        if s.place == ReleaseWait then (if t.disconnected then Leave(t, now) else BeginBody(t, now, io))
        else if s.place == TailWait then NextChunk(c, t, 0, now, io)
        else s
    case Release => s.(released := true)
  }

  // ---------------------------------------------------------------- what every schedule keeps

  /** ceil(body / write) */
  function Chunks(c: Settings): nat
    requires ValidSettings(c)
  {
    (c.bodyBytes + c.writeBytes - 1) / c.writeBytes
  }

  /** How many chunks have been started and how many drained, at each place of a live handler. */
  function ChunksBegun(s: Stream): nat {
    match s.place
    case Drain(index) => index + 1
    case Sleep(index) => index
    case TailWait => 1
    case _ => 0
  }

  function ChunksDrained(s: Stream): nat {
    match s.place
    case Drain(index) => index
    case Sleep(index) => index
    case TailWait => 1
    case _ => 0
  }

  ghost predicate Live(c: Settings, s: Stream) {
    && s.active && !s.eofSent
    && (s.place != HeaderDrain ==> s.headersSent)
    && s.bytesWritten == ChunksDrained(s) * c.writeBytes
    && (s.firstWritten <==> ChunksDrained(s) > 0)
    && (s.place.Drain? || s.place.Sleep? ==> s.place.index * c.writeBytes < c.bodyBytes)
    && (s.place.Sleep? ==> s.place.index > 0)
    && (s.disconnected ==> s.place == ReleaseWait || s.place == TailWait)
    && (s.place == ReleaseWait ==> s.control == BodyWait)
    && (s.place == TailWait ==> s.control == HeldTail)
  }

  ghost predicate Settled(c: Settings, s: Stream) {
    && !s.active
    && s.bytesWritten <= c.bodyBytes
    && (s.eofSent ==> s.bytesWritten == c.bodyBytes && !s.disconnected && s.headersSent && s.firstWritten)
  }

  /** Nothing passes a barrier before its release. */
  ghost predicate HeldBack(c: Settings, s: Stream) {
    !s.released ==>
      && (s.control == HeldTail ==>
            && s.bytesWritten <= c.writeBytes && !s.eofSent && !(s.place.Drain? && s.place.index > 0)
            && !s.place.Sleep?
            && (s.firstWritten ==> s.bytesWritten == c.writeBytes))
      && (s.control == BodyWait ==> s.bytesWritten == 0 && !s.firstWritten && !s.eofSent && !s.place.Drain?
                                    && !s.place.Sleep?)
  }

  ghost predicate Observed(c: Settings, s: Stream, now: nat) {
    && (s.delivery.Some? <==> c.observed)
    && (s.delivery.Some? ==>
          var d := s.delivery.value;
          && (d.startedNs.Some? ==> d.startedNs.value <= now)
          && (d.finishedNs.Some? ==> d.startedNs.Some? && d.startedNs.value <= d.finishedNs.value)
          && (s.place.Drain? || s.place.Sleep? || s.place == TailWait || s.eofSent ==> d.startedNs.Some?)
          && (s.place != Ended ==>
                && d.writeCalls == d.drainCalls == ChunksBegun(s) && d.drainsCompleted == ChunksDrained(s)
                && d.finishedNs.None?)
          && (s.eofSent ==>
                && ValidSettings(c) && d.writeCalls == d.drainCalls == d.drainsCompleted == Chunks(c)
                && d.finishedNs.Some?))
  }

  ghost predicate StreamOk(c: Settings, s: Stream, now: nat) {
    && (if s.place == Ended then Settled(c, s) else Live(c, s))
    && HeldBack(c, s)
    && Observed(c, s, now)
  }

  /** The chunk that reaches the end of the body is number ceil(body / write). */
  lemma LastChunk(body: nat, write: nat, index: nat)
    requires 0 < write && index * write < body <= (index + 1) * write
    ensures (body + write - 1) / write == index + 1
  {
    var n: nat := body + write - 1;
    var q, r := n / write, n % write;
    assert n == q * write + r && 0 <= r < write;
    assert (index + 1) * write == index * write + write;
    if q > index + 1 {
      Apart(index + 1, q, write);
    } else if q < index + 1 {
      Widen(q, index, write);
    }
  }

  lemma ChunkAt(c: Settings, index: nat)
    requires ValidSettings(c) && index * c.writeBytes < c.bodyBytes
    ensures (index + 1) * c.writeBytes == index * c.writeBytes + c.writeBytes
    ensures (index + 1) * c.writeBytes >= c.bodyBytes ==>
      index * c.writeBytes + ChunkLength(c, index) == c.bodyBytes && Chunks(c) == index + 1
    ensures (index + 1) * c.writeBytes < c.bodyBytes ==> ChunkLength(c, index) == c.writeBytes
  {
    assert (index + 1) * c.writeBytes == index * c.writeBytes + c.writeBytes;
    if (index + 1) * c.writeBytes >= c.bodyBytes {
      LastChunk(c.bodyBytes, c.writeBytes, index);
    }
  }

  /** A live handler between two chunks: `index` chunks are done and none is under way. */
  ghost predicate Between(c: Settings, s: Stream, index: nat, now: nat) {
    && s.active && !s.eofSent && !s.disconnected && s.headersSent
    && s.bytesWritten == index * c.writeBytes < c.bodyBytes && (s.firstWritten <==> index > 0)
    && (!s.released ==> (s.control == HeldTail ==> index == 0) && s.control != BodyWait)
    && (s.delivery.Some? <==> c.observed)
    && (s.delivery.Some? ==>
          var d := s.delivery.value;
          && d.startedNs.Some? && d.startedNs.value <= now && d.finishedNs.None?
          && d.writeCalls == d.drainCalls == d.drainsCompleted == index)
  }

  lemma WriteKeeps(c: Settings, s: Stream, index: nat, now: nat, io: Write)
    requires ValidSettings(c) && Between(c, s, index, now)
    ensures StreamOk(c, WriteChunk(s, index, now, io), now)
  {
    var t := s.(delivery := if s.delivery.Some? then Some(Begun(s.delivery.value, io)) else None);
    if io.Raised? {
      Held(c, s, index);
      assert HeldBack(c, t.(place := Ended));
    }
  }

  lemma Held(c: Settings, s: Stream, index: nat)
    requires s.bytesWritten == index * c.writeBytes
    requires !s.released ==> (s.control == HeldTail ==> index == 0) && s.control != BodyWait
    ensures !s.released && s.control == HeldTail ==> s.bytesWritten == 0
  {
  }

  /** The state a drain leaves behind, before the loop decides what comes next. */
  ghost predicate ChunkDone(c: Settings, s: Stream, index: nat, now: nat) {
    && s.active && !s.eofSent && s.headersSent && s.firstWritten
    && index * c.writeBytes < c.bodyBytes && s.bytesWritten == index * c.writeBytes + ChunkLength(c, index)
    && (!s.released ==> s.control == Normal)
    && (s.delivery.Some? <==> c.observed)
    && (s.delivery.Some? ==>
          var d := s.delivery.value;
          && d.startedNs.Some? && d.startedNs.value <= now && d.finishedNs.None?
          && d.writeCalls == d.drainCalls == d.drainsCompleted == index + 1)
  }

  lemma NextKeeps(c: Settings, s: Stream, index: nat, now: nat, io: Write)
    requires ValidSettings(c) && ChunkDone(c, s, index, now)
    ensures StreamOk(c, NextChunk(c, s, index, now, io), now)
  {
    ChunkAt(c, index);
    if !s.disconnected && (index + 1) * c.writeBytes < c.bodyBytes && c.writeDelayS == 0.0 {
      WriteKeeps(c, s, index + 1, now, io);
    }
  }

  lemma DrainKeeps(c: Settings, s: Stream, now: nat, spentNs: nat, io: Write)
    requires ValidSettings(c) && StreamOk(c, s, now) && s.place.Drain?
    ensures StreamOk(c, StreamStep(c, s, now, DrainDone(spentNs, io)), now)
  {
    var index := s.place.index;
    ChunkAt(c, index);
    if s.control == HeldTail && index == 0 {
      assert ChunkLength(c, 0) == c.writeBytes;
    } else {
      var t := s.(delivery := if s.delivery.Some? then Some(Drained(s.delivery.value, spentNs)) else None,
                  bytesWritten := s.bytesWritten + ChunkLength(c, index), firstWritten := true);
      NextKeeps(c, t, index, now, io);
    }
  }

  lemma BeginKeeps(c: Settings, s: Stream, now: nat, io: Write)
    requires ValidSettings(c) && s.active && !s.eofSent && !s.disconnected && s.headersSent && !s.firstWritten
    requires s.bytesWritten == 0 && (s.delivery.Some? <==> c.observed)
    requires s.control == BodyWait ==> s.released
    requires s.delivery.Some? ==>
      s.delivery.value.writeCalls == s.delivery.value.drainCalls == s.delivery.value.drainsCompleted == 0
      && s.delivery.value.finishedNs.None?
    ensures StreamOk(c, BeginBody(s, now, io), now)
  {
    WriteKeeps(c, s.(delivery := if s.delivery.Some? then Some(s.delivery.value.(startedNs := Some(now))) else None),
               0, now, io);
  }

  lemma ResumeKeeps(c: Settings, s: Stream, now: nat, peerGone: bool, io: Write)
    requires ValidSettings(c) && StreamOk(c, s, now) && s.released
    ensures StreamOk(c, StreamStep(c, s, now, Resumed(peerGone, io)), now)
  {
    var t := s.(disconnected := s.disconnected || peerGone);
    if s.place == ReleaseWait && !t.disconnected {
      BeginKeeps(c, t, now, io);
    } else if s.place == TailWait {
      ChunkAt(c, 0);
      NextKeeps(c, t, 0, now, io);
    }
  }

  lemma RaiseKeeps(c: Settings, s: Stream, now: nat, spentNs: nat, connection: bool)
    requires ValidSettings(c) && StreamOk(c, s, now)
    ensures StreamOk(c, StreamStep(c, s, now, DrainRaised(spentNs, connection)), now)
  {
  }

  /** Every event, at every place, keeps the invariant of its stream. */
  lemma EventKeepsStream(c: Settings, s: Stream, now: nat, e: Event)
    requires ValidSettings(c) && StreamOk(c, s, now)
    ensures StreamOk(c, StreamStep(c, s, now, e), now)
  {
    match e
    case HeadersDrained(io) =>
      if s.place == HeaderDrain && s.control != BodyWait {
        BeginKeeps(c, s.(headersSent := true), now, io);
      }
    case DrainDone(spentNs, io) =>
      if s.place.Drain? { DrainKeeps(c, s, now, spentNs, io); }
    case DrainRaised(spentNs, connection) =>
      RaiseKeeps(c, s, now, spentNs, connection);
    case Woke(io) =>
      if s.place.Sleep? { WriteKeeps(c, s, s.place.index, now, io); }
    case PeerGone =>
    case Resumed(peerGone, io) =>
      if s.released { ResumeKeeps(c, s, now, peerGone, io); }
    case Release =>
  }

  /** A handler that has ended changes only by a late release. */
  lemma EndedStays(c: Settings, s: Stream, now: nat, e: Event)
    requires s.place == Ended
    ensures StreamStep(c, s, now, e) == (if e.Release? then s.(released := true) else s)
  {
  }
}
