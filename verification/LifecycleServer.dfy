/** The lifecycle server as objects: each method runs a handler from one await to the next. */
module LifecycleServer {
  import opened Common
  import opened StreamMachine
  import opened ServerRuns

  class BodyDelivery {
    ghost const token: string
    var startedNs: Option<nat>
    var finishedNs: Option<nat>
    var writeCalls: nat
    var drainCalls: nat
    var drainsCompleted: nat
    var writeElapsedNs: nat
    var drainElapsedNs: nat
    var maxBufferBytes: nat

    constructor (ghost token: string)
      ensures State() == NOT_STARTED && this.token == token
    {
      this.token := token;
      startedNs, finishedNs := None, None;
      writeCalls, drainCalls, drainsCompleted, writeElapsedNs, drainElapsedNs, maxBufferBytes := 0, 0, 0, 0, 0, 0;
    }

    function State(): Delivery
      reads this
    {
      Delivery(startedNs, finishedNs, writeCalls, drainCalls, drainsCompleted, writeElapsedNs, drainElapsedNs,
               maxBufferBytes)
    }

    /** `write` up to its drain. */
    method BeginWrite(io: Write)
      modifies this
      ensures State() == Begun(old(State()), io)
    {
      writeCalls := writeCalls + 1;
      writeElapsedNs := writeElapsedNs + io.elapsedNs;
      if io.Wrote? {
        maxBufferBytes := Max(maxBufferBytes, io.bufferBytes);
        drainCalls := drainCalls + 1;
      }
    }

    /** The end of the drain, whether or not it raised. */
    method EndDrain(spentNs: nat, raised: bool)
      modifies this
      ensures State() == if raised then old(State()).(drainElapsedNs := old(State()).drainElapsedNs + spentNs)
                         else Drained(old(State()), spentNs)
    {
      drainElapsedNs := drainElapsedNs + spentNs;
      if !raised { drainsCompleted := drainsCompleted + 1; }
    }
  }

  function DeliveryState(d: BodyDelivery?): Option<Delivery>
    reads d
  {
    if d == null then None else Some(d.State())
  }

  ghost function DeliveryFrame(d: BodyDelivery?): set<object> {
    if d == null then {} else {d}
  }

  class StreamState {
    const token: string
    const control: Control
    const delivery: BodyDelivery?
    var released: bool
    var headersSent: bool
    var firstWritten: bool
    var eofSent: bool
    var disconnected: bool
    var bytesWritten: nat
    var active: bool
    var place: Place

    constructor (c: Settings, token: string, control: Control)
      ensures this.token == token && (delivery != null ==> delivery.token == token)
      ensures fresh(DeliveryFrame(delivery))
      ensures State() == Opened(c, control)
    {
      this.token, this.control := token, control;
      released, headersSent, firstWritten, eofSent, disconnected := false, false, false, false, false;
      bytesWritten, active, place := 0, true, HeaderDrain;
      if c.observed {
        delivery := new BodyDelivery(token);
      } else {
        delivery := null;
      }
    }

    function State(): Stream
      reads this, delivery
    {
      Stream(control, released, headersSent, firstWritten, eofSent, disconnected, bytesWritten, active,
             DeliveryState(delivery), place)
    }

    method Exit(now: nat)
      modifies this, DeliveryFrame(delivery)
      ensures State() == Leave(old(State()), now)
    {
      if delivery != null && delivery.startedNs.Some? {
        delivery.finishedNs := Some(now);
      }
      active, place := false, Ended;
    }

    /** An exception leaves the handler; `raised` tells whether it goes on to be charged. */
    method ExitRaising(now: nat, connection: bool) returns (raised: bool)
      requires active && !eofSent && !disconnected
      modifies this, DeliveryFrame(delivery)
      ensures State() == Fail(old(State()), now, connection)
      ensures raised <==> Failed(State())
    {
      if connection { disconnected := true; }
      Exit(now);
      raised := !connection;
    }

    method WriteNext(index: nat, now: nat, io: Write) returns (raised: bool)
      requires active && !eofSent && !disconnected
      modifies this, DeliveryFrame(delivery)
      ensures State() == WriteChunk(old(State()), index, now, io)
      ensures raised <==> Failed(State())
    {
      if delivery != null { delivery.BeginWrite(io); }
      if io.Raised? {
        raised := ExitRaising(now, io.connection);
      } else {
        place, raised := Drain(index), false;
      }
    }

    method StartBody(now: nat, io: Write) returns (raised: bool)
      requires active && !eofSent && !disconnected
      modifies this, DeliveryFrame(delivery)
      ensures State() == BeginBody(old(State()), now, io)
      ensures raised <==> Failed(State())
    {
      if delivery != null { delivery.startedNs := Some(now); }
      raised := WriteNext(0, now, io);
    }

    method GoOn(c: Settings, index: nat, now: nat, io: Write) returns (raised: bool)
      requires active && !eofSent
      modifies this, DeliveryFrame(delivery)
      ensures State() == NextChunk(c, old(State()), index, now, io)
      ensures raised <==> Failed(State())
    {
      raised := false;
      if disconnected {
        Exit(now);
      } else if (index + 1) * c.writeBytes >= c.bodyBytes {
        eofSent := true;
        Exit(now);
      } else if c.writeDelayS != 0.0 {
        place := Sleep(index + 1);
      } else {
        raised := WriteNext(index + 1, now, io);
      }
    }

    method ChunkDrained(c: Settings, now: nat, spentNs: nat, io: Write) returns (raised: bool)
      requires place.Drain? && active && !eofSent
      modifies this, DeliveryFrame(delivery)
      ensures State() == StreamStep(c, old(State()), now, DrainDone(spentNs, io))
      ensures raised <==> Failed(State())
    {
      var index := place.index;
      Account(c, index, spentNs);
      if control == HeldTail && index == 0 {
        place, raised := TailWait, false;
      } else {
        raised := GoOn(c, index, now, io);
      }
    }

    /** The bookkeeping of one drained chunk. */
    method Account(c: Settings, index: nat, spentNs: nat)
      modifies this`bytesWritten, this`firstWritten, DeliveryFrame(delivery)
      ensures State() == old(State()).(
        delivery := if delivery == null then None else Some(Drained(old(DeliveryState(delivery)).value, spentNs)),
        bytesWritten := old(bytesWritten) + ChunkLength(c, index), firstWritten := true)
    {
      if delivery != null { delivery.EndDrain(spentNs, false); }
      bytesWritten := bytesWritten + ChunkLength(c, index);
      firstWritten := true;
    }

    method AfterRelease(c: Settings, now: nat, peerGone: bool, io: Write) returns (raised: bool)
      requires place == ReleaseWait || place == TailWait ==> active && !eofSent
      modifies this, DeliveryFrame(delivery)
      ensures State() == StreamStep(c, old(State()), now, Resumed(peerGone, io))
      ensures raised <==> Failed(State()) && !Failed(old(State()))
    {
      raised := false;
      if released && place == ReleaseWait {
        disconnected := disconnected || peerGone;
        if disconnected {
          Exit(now);
        } else {
          raised := StartBody(now, io);
        }
      } else if released && place == TailWait {
        disconnected := disconnected || peerGone;
        raised := GoOn(c, 0, now, io);
      }
    }

    /** Runs the handler until its next await. */
    method Advance(c: Settings, now: nat, e: Event) returns (raised: bool)
      requires StreamOk(c, State(), now)
      modifies this, DeliveryFrame(delivery)
      ensures State() == StreamStep(c, old(State()), now, e)
      ensures raised <==> Failed(State()) && !Failed(old(State()))
    {
      raised := false;
      match e {
        case HeadersDrained(io) =>
          if place == HeaderDrain {
            headersSent := true;
            if control == BodyWait {
              place := ReleaseWait;
            } else {
              raised := StartBody(now, io);
            }
          }
        case DrainDone(spentNs, io) =>
          if place.Drain? { raised := ChunkDrained(c, now, spentNs, io); }
        case DrainRaised(spentNs, connection) =>
          if place == HeaderDrain {
            raised := ExitRaising(now, connection);
          } else if place.Drain? {
            if delivery != null { delivery.EndDrain(spentNs, true); }
            raised := ExitRaising(now, connection);
          }
        case Woke(io) =>
          if place.Sleep? { raised := WriteNext(place.index, now, io); }
        case PeerGone =>
          if place == ReleaseWait || place == TailWait { disconnected := true; }
        case Resumed(peerGone, io) =>
          raised := AfterRelease(c, now, peerGone, io);
        case Release =>
          released := true;
      }
    }
  }

  /** A stream whose header write may already have raised. */
  method NewStream(c: Settings, token: string, control: Control, header: Write, now: nat)
    returns (s: StreamState, raised: bool)
    ensures fresh(s) && fresh(DeliveryFrame(s.delivery))
    ensures s.token == token && (s.delivery != null ==> s.delivery.token == token)
    ensures s.State() == if header.Raised? then Fail(Opened(c, control), now, header.connection) else Opened(c, control)
    ensures raised <==> Failed(s.State())
  {
    s := new StreamState(c, token, control);
    raised := false;
    if header.Raised? {
      raised := s.ExitRaising(now, header.connection);
    }
  }

  class LifecycleServer {
    const settings: Settings
    var streams: map<string, StreamState>
    var handlerErrors: nat
    var now: nat
    ghost var otherErrors: nat
    ghost var owned: set<object>

    constructor (settings: Settings)
      ensures this.settings == settings && owned == {} && Separate() && Represents(EMPTY)
    {
      this.settings := settings;
      streams, handlerErrors, now, otherErrors, owned := map[], 0, 0, 0, {};
    }

    /** Streams share nothing with each other or with the server. */
    ghost predicate Separate()
      reads this
    {
      && this !in owned
      && forall t :: t in streams ==>
        && streams[t].token == t && streams[t] in owned
        && (streams[t].delivery != null ==> streams[t].delivery.token == t && streams[t].delivery in owned)
    }

    /** The objects are in the state the machine calls `v`. */
    ghost predicate Represents(v: Server)
      requires Separate()
      reads this, owned
    {
      && streams.Keys == v.streams.Keys
      && (forall t :: t in streams ==> streams[t].State() == v.streams[t])
      && handlerErrors == v.handlerErrors && otherErrors == v.otherErrors && now == v.now
    }

    /** All streams but one are in the state `v` gives them. */
    ghost predicate AllBut(token: string, v: Server)
      requires Separate()
      reads this, owned
    {
      && streams.Keys == v.streams.Keys + {token}
      && (forall u :: u in streams && u != token ==> streams[u].State() == v.streams[u])
      && otherErrors == v.otherErrors && now == v.now
    }

    /** Books the exception that left a handler, if any; storing its last state is what the machine calls `Put`. */
    method Book(raised: bool, ghost token: string, ghost v: Server, ghost next: Stream)
      requires Separate() && AllBut(token, v) && handlerErrors == v.handlerErrors && streams[token].State() == next
      requires raised <==> Failed(next) && !(token in v.streams && Failed(v.streams[token]))
      modifies this`handlerErrors
      ensures Separate() && Represents(Put(v, token, next))
    {
      if raised { handlerErrors := handlerErrors + 1; }
    }

    method Insert(token: string, s: StreamState, ghost v: Server)
      requires Separate() && Represents(v) && token !in streams
      requires s.token == token && (s.delivery != null ==> s.delivery.token == token)
      modifies this`streams, this`owned
      ensures Separate() && owned == old(owned) + {s} + DeliveryFrame(s.delivery)
      ensures AllBut(token, v) && streams[token] == s
    {
      streams := streams[token := s];
      owned := owned + {s} + DeliveryFrame(s.delivery);
    }

    /** `_stream` up to the drain of its headers, for a request that is not refused. */
    method Admit(token: string, control: Control, header: Write, ghost v: Server)
      requires Separate() && Represents(v) && token !in streams
      modifies this`streams, this`handlerErrors, this`owned
      ensures Separate() && fresh(owned - old(owned))
      ensures var s := Opened(settings, control);
        Represents(Put(v, token, if header.Raised? then Fail(s, v.now, header.connection) else s))
    {
      var s, raised := NewStream(settings, token, control, header, now);
      Insert(token, s, v);
      Book(raised, token, v, s.State());
    }

    method Wake(token: string, e: Event, ghost v: Server) returns (raised: bool)
      requires Separate() && Represents(v) && token in streams && StreamOk(settings, v.streams[token], v.now)
      modifies streams[token], DeliveryFrame(streams[token].delivery)
      ensures Separate() && AllBut(token, v)
      ensures streams[token].State() == StreamStep(settings, v.streams[token], v.now, e)
      ensures raised <==> Failed(streams[token].State()) && !Failed(v.streams[token])
    {
      var s := streams[token];
      raised := s.Advance(settings, now, e);
      forall u | u in streams && u != token ensures streams[u].State() == v.streams[u] {
        assert streams[u].token != s.token;
      }
    }

    /** Runs one handler to its next await. */
    method Resume(token: string, e: Event, ghost v: Server)
      requires Separate() && Represents(v) && token in streams && StreamOk(settings, v.streams[token], v.now)
      modifies this`handlerErrors, streams[token], DeliveryFrame(streams[token].delivery)
      ensures Separate()
      ensures Represents(Put(v, token, StreamStep(settings, v.streams[token], v.now, e)))
    {
      var raised := Wake(token, e, v);
      Book(raised, token, v, streams[token].State());
    }

    /** A request outside the accepted streams whose reply may have raised. */
    method Charged(answered: bool, ghost v: Server)
      requires Separate() && Represents(v)
      modifies this`handlerErrors, this`otherErrors
      ensures Separate() && Represents(Charge(v, answered))
    {
      if !answered {
        handlerErrors := handlerErrors + 1;
        otherErrors := otherErrors + 1;
      }
    }

    /** Accepts or refuses a stream request. */
    method HandleOpen(token: string, control: string, header: Write, answered: bool, ghost v: Server)
      requires Separate() && Represents(v)
      modifies this
      ensures Separate() && fresh(owned - old(owned))
      ensures Represents(ServerHandle(settings, v, Request.Open(token, control, header, answered)))
    {
      assert |streams| == |streams.Keys| == |v.streams.Keys| == |v.streams|;
      if token == "" || token in streams || ControlOf(control).None? || |streams| >= MAX_STREAMS {
        Charged(answered, v);
      } else {
        Admit(token, ControlOf(control).value, header, v);
      }
    }

    method HandleRelease(token: string, answered: bool, ghost v: Server)
      requires Separate() && Represents(v) && Knows(v, token)
      modifies this`handlerErrors, this`otherErrors, owned
      ensures Separate()
      ensures Represents(ServerHandle(settings, v, ReleaseStream(token, answered)))
    {
      ghost var w := v;
      if token in streams {
        w := Put(v, token, StreamStep(settings, v.streams[token], v.now, Release));
        Resume(token, Release, v);
      }
      Charged(answered, w);
    }

    /** The state of one stream, if there is one, is reachable. */
    ghost predicate Knows(v: Server, token: string) {
      token in v.streams ==> StreamOk(settings, v.streams[token], v.now)
    }

    method HandleEvent(token: string, e: Event, ghost v: Server)
      requires Separate() && Represents(v) && Knows(v, token)
      modifies this`handlerErrors, owned
      ensures Separate()
      ensures Represents(ServerHandle(settings, v, OnStream(token, e)))
    {
      if token in streams && !e.Release? {
        Resume(token, e, v);
      }
    }

    method Dispatch(r: Request, ghost v: Server)
      requires Separate() && Represents(v)
      requires r.OnStream? || r.ReleaseStream? ==> Knows(v, r.token)
      modifies this, owned
      ensures Separate() && fresh(owned - old(owned))
      ensures Represents(ServerHandle(settings, v, r))
    {
      match r {
        case Open(token, control, header, answered) =>
          HandleOpen(token, control, header, answered, v);
        case OnStream(token, event) =>
          HandleEvent(token, event, v);
        case ReleaseStream(token, answered) =>
          HandleRelease(token, answered, v);
        case Other(answered) =>
          Charged(answered, v);
      }
    }

    lemma Known(v: Server, elapsedNs: nat, token: string)
      requires ServerOk(settings, v)
      ensures Knows(Later(v, elapsedNs), token)
    {
      if token in v.streams {
        LaterOk(settings, v.streams[token], v.now, v.now + elapsedNs);
      }
    }

    method Wait(elapsedNs: nat, ghost v: Server)
      requires Separate() && Represents(v)
      modifies this`now
      ensures Separate() && Represents(Later(v, elapsedNs))
    {
      now := now + elapsedNs;
    }

    /** One segment of some handler, some time after the previous one: exactly one step of the machine. */
    method Handle(t: Tick, ghost v: Server)
      requires ServerOk(settings, v) && Separate() && Represents(v)
      modifies this, owned
      ensures Separate() && fresh(owned - old(owned))
      ensures Represents(ServerStep(settings, v, t))
    {
      if t.request.OnStream? || t.request.ReleaseStream? {
        Known(v, t.elapsedNs, t.request.token);
      }
      Wait(t.elapsedNs, v);
      Dispatch(t.request, Later(v, t.elapsedNs));
    }
  }

  /** Serving any schedule from the start is a run of the machine. */
  method Serve(c: Settings, ticks: seq<Tick>) returns (server: LifecycleServer)
    requires ValidSettings(c)
    ensures server.settings == c && server.Separate() && server.Represents(ServerRun(c, EMPTY, ticks))
  {
    server := new LifecycleServer(c);
    for k := 0 to |ticks|
      invariant fresh(server) && fresh(server.owned) && server.settings == c && server.Separate()
      invariant server.Represents(ServerRun(c, EMPTY, ticks[..k]))
    {
      RunKeepsServer(c, EMPTY, ticks[..k]);
      assert ticks[..k + 1][..k] == ticks[..k];
      server.Handle(ticks[k], ServerRun(c, EMPTY, ticks[..k]));
    }
    assert ticks[..|ticks|] == ticks;
  }
}
