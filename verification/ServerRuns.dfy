/** The lifecycle server as a whole: any number of handlers interleaved over one table of streams. */
module ServerRuns {
  import opened Common
  import opened StreamMachine

  const MAX_STREAMS := 20000

  /** `otherErrors` is the history of handler errors that were not charged to an accepted stream. */
  datatype Server = Server(streams: map<string, Stream>, handlerErrors: nat, otherErrors: nat, now: nat)

  const EMPTY := Server(map[], 0, 0, 0)

  /** `answered` is false when writing the reply raised. */
  datatype Request =
    | Open(token: string, control: string, header: Write, answered: bool)
    | OnStream(token: string, event: Event)
    | ReleaseStream(token: string, answered: bool)
    | Other(answered: bool)

  /** A segment of some handler, `elapsedNs` after the previous one. */
  datatype Tick = Tick(elapsedNs: nat, request: Request)

  function ControlOf(control: string): Option<Control> {
    if control == "normal" then Some(Normal)
    else if control == "held-tail" then Some(HeldTail)
    else if control == "body-wait" then Some(BodyWait)
    else None
  }

  /** Accepted, but neither served to its end nor marked disconnected. */
  predicate Failed(s: Stream) {
    !s.active && !s.eofSent && !s.disconnected
  }

  predicate Refused(v: Server, token: string, control: string) {
    token == "" || token in v.streams || ControlOf(control).None? || |v.streams| >= MAX_STREAMS
  }

  /** A raising request is charged one handler error, whatever it raised. */
  function Charge(v: Server, answered: bool): Server {
    if answered then v else v.(handlerErrors := v.handlerErrors + 1, otherErrors := v.otherErrors + 1)
  }

  /** Stores a stream; an exception that is not a connection error reaches the handler and is charged there. */
  function Put(v: Server, token: string, s: Stream): Server {
    var newlyFailed := Failed(s) && !(token in v.streams && Failed(v.streams[token]));
    v.(streams := v.streams[token := s], handlerErrors := v.handlerErrors + if newlyFailed then 1 else 0)
  }

  function Later(v: Server, elapsedNs: nat): Server {
    v.(now := v.now + elapsedNs)
  }

  function ServerHandle(c: Settings, v: Server, r: Request): Server {
    match r
    case Open(token, control, header, answered) =>
      if Refused(v, token, control) then Charge(v, answered)
      else
        var s := Opened(c, ControlOf(control).value);
        Put(v, token, if header.Raised? then Fail(s, v.now, header.connection) else s)
    case OnStream(token, event) =>
      if token !in v.streams || event.Release? then v
      else Put(v, token, StreamStep(c, v.streams[token], v.now, event))
    case ReleaseStream(token, answered) =>
      if token !in v.streams then Charge(v, answered)
      else Charge(Put(v, token, StreamStep(c, v.streams[token], v.now, Release)), answered)
    case Other(answered) => Charge(v, answered)
  }

  function ServerStep(c: Settings, v: Server, t: Tick): Server {
    ServerHandle(c, Later(v, t.elapsedNs), t.request)
  }

  function ServerRun(c: Settings, v: Server, ticks: seq<Tick>): Server {
    if ticks == [] then v else ServerStep(c, ServerRun(c, v, ticks[..|ticks| - 1]), ticks[|ticks| - 1])
  }

  // ---------------------------------------------------------------- invariant

  function Tokens(streams: map<string, Stream>, p: Stream -> bool): set<string> {
    set t | t in streams && p(streams[t])
  }

  ghost predicate ServerOk(c: Settings, v: Server) {
    && (forall t :: t in v.streams ==> StreamOk(c, v.streams[t], v.now))
    && "" !in v.streams && |v.streams| <= MAX_STREAMS
    && v.handlerErrors == |Tokens(v.streams, Failed)| + v.otherErrors
  }

  lemma TokensAfter(streams: map<string, Stream>, token: string, s: Stream, p: Stream -> bool)
    ensures Tokens(streams[token := s], p) == Tokens(streams, p) - {token} + if p(s) then {token} else {}
  {
  }

  lemma PutCounts(v: Server, token: string, s: Stream)
    requires v.handlerErrors == |Tokens(v.streams, Failed)| + v.otherErrors
    requires token in v.streams && Failed(v.streams[token]) ==> Failed(s)
    ensures Put(v, token, s).handlerErrors == |Tokens(Put(v, token, s).streams, Failed)| + v.otherErrors
  {
    TokensAfter(v.streams, token, s, Failed);
  }

  /** Time passing does not disturb a stream. */
  lemma LaterOk(c: Settings, s: Stream, now: nat, later: nat)
    requires StreamOk(c, s, now) && now <= later
    ensures StreamOk(c, s, later)
  {
  }

  lemma StaysFailed(c: Settings, s: Stream, now: nat, e: Event)
    requires StreamOk(c, s, now) && Failed(s)
    ensures Failed(StreamStep(c, s, now, e))
  {
    EndedStays(c, s, now, e);
  }

  lemma OpenOk(c: Settings, control: Control, now: nat, header: Write)
    ensures StreamOk(c, Opened(c, control), now)
    ensures header.Raised? ==> StreamOk(c, Fail(Opened(c, control), now, header.connection), now)
  {
  }

  lemma PutKeeps(c: Settings, v: Server, token: string, s: Stream)
    requires ServerOk(c, v) && StreamOk(c, s, v.now) && token != ""
    requires token in v.streams || |v.streams| < MAX_STREAMS
    requires token in v.streams && Failed(v.streams[token]) ==> Failed(s)
    ensures ServerOk(c, Put(v, token, s))
  {
    PutCounts(v, token, s);
  }

  lemma LaterKeeps(c: Settings, v: Server, elapsedNs: nat)
    requires ServerOk(c, v)
    ensures ServerOk(c, Later(v, elapsedNs))
  {
    forall k | k in v.streams ensures StreamOk(c, v.streams[k], v.now + elapsedNs) {
      LaterOk(c, v.streams[k], v.now, v.now + elapsedNs);
    }
  }

  lemma StepKeepsServer(c: Settings, v: Server, t: Tick)
    requires ValidSettings(c) && ServerOk(c, v)
    ensures ServerOk(c, ServerStep(c, v, t))
  {
    LaterKeeps(c, v, t.elapsedNs);
    Handle(c, Later(v, t.elapsedNs), t.request);
  }

  lemma HandleOpen(c: Settings, v: Server, r: Request)
    requires ServerOk(c, v) && r.Open? && !Refused(v, r.token, r.control)
    ensures ServerOk(c, ServerHandle(c, v, r))
  {
    var control := ControlOf(r.control).value;
    var s := Opened(c, control);
    OpenOk(c, control, v.now, r.header);
    PutKeeps(c, v, r.token, if r.header.Raised? then Fail(s, v.now, r.header.connection) else s);
  }

  lemma Handle(c: Settings, v: Server, r: Request)
    requires ValidSettings(c) && ServerOk(c, v)
    ensures ServerOk(c, ServerHandle(c, v, r))
  {
    match r
    case Open(token, control, _, _) =>
      if !Refused(v, token, control) { HandleOpen(c, v, r); }
    case OnStream(token, event) =>
      if token in v.streams && !event.Release? { KeepOne(c, v, token, event); }
    case ReleaseStream(token, _) =>
      if token in v.streams { KeepOne(c, v, token, Release); }
    case Other(_) =>
  }

  lemma KeepOne(c: Settings, w: Server, token: string, event: Event)
    requires ValidSettings(c) && ServerOk(c, w) && token in w.streams
    ensures ServerOk(c, Put(w, token, StreamStep(c, w.streams[token], w.now, event)))
  {
    EventKeepsStream(c, w.streams[token], w.now, event);
    if Failed(w.streams[token]) { StaysFailed(c, w.streams[token], w.now, event); }
    PutKeeps(c, w, token, StreamStep(c, w.streams[token], w.now, event));
  }

  /** Every schedule of every set of handlers keeps the invariant. */
  lemma {:induction false} RunKeepsServer(c: Settings, v: Server, ticks: seq<Tick>)
    requires ValidSettings(c) && ServerOk(c, v)
    ensures ServerOk(c, ServerRun(c, v, ticks))
  {
    if ticks != [] {
      RunKeepsServer(c, v, ticks[..|ticks| - 1]);
      StepKeepsServer(c, ServerRun(c, v, ticks[..|ticks| - 1]), ticks[|ticks| - 1]);
    }
  }

  // ---------------------------------------------------------------- results

  /**
   Safety of every stream under every schedule: end of file means the whole body, excludes a disconnect, and is never
   reached before a barrier's release.
   */
  lemma StreamSafety(c: Settings, ticks: seq<Tick>, token: string)
    requires ValidSettings(c) && token in ServerRun(c, EMPTY, ticks).streams
    ensures var s := ServerRun(c, EMPTY, ticks).streams[token];
      && (s.eofSent ==> s.bytesWritten == c.bodyBytes && !s.active)
      && !(s.eofSent && s.disconnected)
      && s.bytesWritten <= c.bodyBytes
      && (s.control == HeldTail && !s.released ==> s.bytesWritten <= c.writeBytes && !s.eofSent)
      && (s.control == BodyWait && !s.released ==> s.bytesWritten == 0 && !s.firstWritten && !s.eofSent)
      && (s.active ==> s.place != Ended)
  {
    RunKeepsServer(c, EMPTY, ticks);
    var v := ServerRun(c, EMPTY, ticks);
    assert StreamOk(c, v.streams[token], v.now);
    if v.streams[token].place != Ended {
      PrefixWithinBody(c, v.streams[token], v.now);
    }
  }

  lemma PrefixWithinBody(c: Settings, s: Stream, now: nat)
    requires ValidSettings(c) && StreamOk(c, s, now) && s.place != Ended
    ensures s.bytesWritten <= c.bodyBytes
  {
  }

  /** Every accepted handler that is over ended in exactly one way, and every charge is accounted for. */
  lemma Conservation(c: Settings, ticks: seq<Tick>)
    requires ValidSettings(c)
    ensures var v := ServerRun(c, EMPTY, ticks);
      && (forall t :: t in v.streams ==>
            var s := v.streams[t];
            && (!s.active <==> s.eofSent || (s.disconnected && s.place == Ended) || Failed(s))
            && !(s.eofSent && s.disconnected) && !(s.eofSent && Failed(s)) && !(s.disconnected && Failed(s)))
      && v.handlerErrors == |Tokens(v.streams, Failed)| + v.otherErrors
      && |v.streams| <= MAX_STREAMS
  {
    RunKeepsServer(c, EMPTY, ticks);
    var v := ServerRun(c, EMPTY, ticks);
    forall t | t in v.streams
      ensures var s := v.streams[t];
        && (!s.active <==> s.eofSent || (s.disconnected && s.place == Ended) || Failed(s))
        && !(s.eofSent && s.disconnected) && !(s.eofSent && Failed(s)) && !(s.disconnected && Failed(s))
    {
      assert StreamOk(c, v.streams[t], v.now);
    }
  }

  // ---------------------------------------------------------------- held-tail evidence

  predicate Releases(ticks: seq<Tick>, token: string) {
    exists k :: 0 <= k < |ticks| && ticks[k].request.ReleaseStream? && ticks[k].request.token == token
  }

  lemma StepReleases(c: Settings, v: Server, t: Tick, token: string)
    requires token in v.streams
    ensures token in ServerStep(c, v, t).streams
    ensures ServerStep(c, v, t).streams[token].control == v.streams[token].control
    ensures ServerStep(c, v, t).streams[token].released
         == (v.streams[token].released || (t.request.ReleaseStream? && t.request.token == token))
  {
  }

  /** A stream is released exactly by an explicit release request for it. */
  lemma {:induction false} ReleasedIff(c: Settings, v: Server, ticks: seq<Tick>, token: string)
    requires token in v.streams
    ensures token in ServerRun(c, v, ticks).streams
    ensures ServerRun(c, v, ticks).streams[token].control == v.streams[token].control
    ensures ServerRun(c, v, ticks).streams[token].released <==> v.streams[token].released || Releases(ticks, token)
  {
    if ticks != [] {
      var init, last := ticks[..|ticks| - 1], ticks[|ticks| - 1];
      ReleasedIff(c, v, init, token);
      StepReleases(c, ServerRun(c, v, init), last, token);
      if Releases(init, token) {
        var k :| 0 <= k < |init| && init[k].request.ReleaseStream? && init[k].request.token == token;
        assert ticks[k].request.ReleaseStream? && ticks[k].request.token == token;
      }
      if last.request.ReleaseStream? && last.request.token == token {
        assert ticks[|ticks| - 1].request.ReleaseStream?;
      }
      assert ticks == init + [last];
    }
  }

  /** The three state checks of the held-tail control on one token. */
  predicate EvidenceHolds(s: Stream) {
    !s.released && !s.eofSent && s.firstWritten
  }

  /**
   Evidence about a held-tail stream is taken strictly before its end of file: as long as nobody released it, it
   holds exactly once the first chunk has drained, and whatever happens later the stream cannot reach its end
   without a release in between.
   */
  lemma EvidenceBeforeEof(c: Settings, before: seq<Tick>, after: seq<Tick>, token: string)
    requires ValidSettings(c) && token in ServerRun(c, EMPTY, before).streams
    requires ServerRun(c, EMPTY, before).streams[token].control == HeldTail
    ensures var s := ServerRun(c, EMPTY, before).streams[token];
      && (EvidenceHolds(s) <==> !s.released && s.firstWritten)
      && (EvidenceHolds(s) ==> s.bytesWritten == c.writeBytes < c.bodyBytes)
    ensures var s := ServerRun(c, EMPTY, before).streams[token];
      var v := ServerRun(c, ServerRun(c, EMPTY, before), after);
      EvidenceHolds(s) ==>
        && token in v.streams
        && (v.streams[token].eofSent ==> Releases(after, token))
        && (!Releases(after, token) ==> v.streams[token].bytesWritten <= c.writeBytes)
  {
    var mid := ServerRun(c, EMPTY, before);
    RunKeepsServer(c, EMPTY, before);
    StreamSafety(c, before, token);
    assert StreamOk(c, mid.streams[token], mid.now);
    RunKeepsServer(c, mid, after);
    ReleasedIff(c, mid, after, token);
    assert StreamOk(c, ServerRun(c, mid, after).streams[token], ServerRun(c, mid, after).now);
    if ServerRun(c, mid, after).streams[token].place != Ended {
      PrefixWithinBody(c, ServerRun(c, mid, after).streams[token], ServerRun(c, mid, after).now);
    }
  }
}
