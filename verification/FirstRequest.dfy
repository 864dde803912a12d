/** The serialised first request of the synchronous zapros adapter, under every thread schedule. */
module FirstRequest {
  import opened Common

  /** Where one calling thread stands. `InFlight` and `FirstInFlight` are inside the underlying client. */
  datatype Place =
    | Outside
    | Waiting
    | Holding
    | FirstInFlight
    | FirstReturned
    | Unlocking(thenCall: bool)
    | InFlight

  /** What lets a thread go on; `Failure` is the underlying request raising. */
  datatype Move = Go | Success | Failure

  /** `served` is the history: how many requests completed under the lock without raising. */
  datatype Adapter = Adapter(done: bool, holder: Option<nat>, served: nat, threads: seq<Place>)

  function Begin(serialize: bool, threads: nat): Adapter {
    Adapter(!serialize, None, 0, seq(threads, i requires 0 <= i < threads => Outside))
  }

  /** One thread between two points where another may run. */
  function ThreadStep(done: bool, holder: Option<nat>, thread: nat, place: Place, m: Move): (bool, Option<nat>, Place) {
    match place
    case Outside =>
      if m != Go then (done, holder, place) else if done then (done, holder, InFlight) else (done, holder, Waiting)
    case Waiting => if m == Go && holder.None? then (done, Some(thread), Holding) else (done, holder, place)
    case Holding =>
      if m != Go then (done, holder, place)
      else if !done then (done, holder, FirstInFlight) else (done, holder, Unlocking(true))
    case FirstInFlight =>
      if m == Success then (done, holder, FirstReturned)
      else if m == Failure then (done, holder, Unlocking(false))
      else (done, holder, place)
    case FirstReturned => if m == Go then (true, holder, Unlocking(false)) else (done, holder, place)
    case Unlocking(thenCall) =>
      if m == Go then (done, None, if thenCall then InFlight else Outside) else (done, holder, place)
    case InFlight => if m == Go then (done, holder, place) else (done, holder, Outside)
  }

  function Step(a: Adapter, thread: nat, m: Move): Adapter {
    if thread >= |a.threads| then a
    else
      var place := a.threads[thread];
      var (done, holder, next) := ThreadStep(a.done, a.holder, thread, place, m);
      Adapter(done, holder, a.served + (if place == FirstInFlight && m == Success then 1 else 0),
              a.threads[thread := next])
  }

  function Run(a: Adapter, moves: seq<(nat, Move)>): Adapter {
    if moves == [] then a
    else Step(Run(a, moves[..|moves| - 1]), moves[|moves| - 1].0, moves[|moves| - 1].1)
  }

  predicate Inside(place: Place) {
    place != Outside && place != Waiting && place != InFlight
  }

  ghost predicate Safe(a: Adapter, serialize: bool) {
    && (forall t :: 0 <= t < |a.threads| ==> (Inside(a.threads[t]) <==> a.holder == Some(t)))
    && (forall t :: 0 <= t < |a.threads| && (a.threads[t] == FirstInFlight || a.threads[t] == FirstReturned) ==>
          !a.done)
    && (forall t :: 0 <= t < |a.threads| && (a.threads[t] == InFlight || a.threads[t] == Unlocking(true)) ==> a.done)
    && (a.holder.Some? ==> a.holder.value < |a.threads|)
    && a.served <= 1
    && (serialize ==> (a.done ==> a.served == 1))
    && (!a.done ==>
          (a.served == 1 <==> a.holder.Some? && a.threads[a.holder.value] == FirstReturned))
    && (!serialize ==> a.done && a.served == 0)
  }

  lemma StepSafe(a: Adapter, serialize: bool, thread: nat, m: Move)
    requires Safe(a, serialize)
    ensures Safe(Step(a, thread, m), serialize)
  {
  }

  lemma {:induction false} RunSafe(a: Adapter, serialize: bool, moves: seq<(nat, Move)>)
    requires Safe(a, serialize)
    ensures Safe(Run(a, moves), serialize)
  {
    if moves != [] {
      RunSafe(a, serialize, moves[..|moves| - 1]);
      StepSafe(Run(a, moves[..|moves| - 1]), serialize, moves[|moves| - 1].0, moves[|moves| - 1].1);
    }
  }

  predicate Calling(place: Place) {
    place == FirstInFlight || place == InFlight
  }

  /**
   Under every schedule: while the flag is clear at most one request is inside the client and it belongs to the lock
   holder; the flag is set only after exactly one request completed under the lock without raising; and no further
   request ever runs under the lock.
   */
  lemma Serialised(threads: nat, moves: seq<(nat, Move)>)
    ensures var a := Run(Begin(true, threads), moves);
      && (forall t :: 0 <= t < |a.threads| && Calling(a.threads[t]) && !a.done ==> a.holder == Some(t))
      && (!a.done ==> forall t, u ::
            0 <= t < |a.threads| && 0 <= u < |a.threads| && Calling(a.threads[t]) && Calling(a.threads[u]) ==> t == u)
      && (a.done ==> a.served == 1)
      && (forall t :: 0 <= t < |a.threads| && a.done ==> a.threads[t] != FirstInFlight)
  {
    RunSafe(Begin(true, threads), true, moves);
  }

  /** Without serialisation nobody ever waits. */
  lemma Unserialised(threads: nat, moves: seq<(nat, Move)>)
    ensures var a := Run(Begin(false, threads), moves);
      && a.done && (forall t :: 0 <= t < |a.threads| ==> a.threads[t] == Outside || a.threads[t] == InFlight)
  {
    RunSafe(Begin(false, threads), false, moves);
    RunOpen(Begin(false, threads), moves);
  }

  lemma {:induction false} RunOpen(a: Adapter, moves: seq<(nat, Move)>)
    requires a.done && forall t :: 0 <= t < |a.threads| ==> a.threads[t] == Outside || a.threads[t] == InFlight
    ensures var b := Run(a, moves);
      b.done && forall t :: 0 <= t < |b.threads| ==> b.threads[t] == Outside || b.threads[t] == InFlight
  {
    if moves != [] { RunOpen(a, moves[..|moves| - 1]); }
  }

  /**
   A first request that raises leaves the flag clear and the lock free, and whichever waiter goes next is serialised
   in its turn: it calls the client holding the lock.
   */
  lemma NextIsSerialised(threads: nat, moves: seq<(nat, Move)>, failing: nat, next: nat)
    requires var a := Run(Begin(true, threads), moves);
      && failing < |a.threads| && a.threads[failing] == FirstInFlight
      && next < |a.threads| && a.threads[next] == Waiting
    ensures var a := Run(Begin(true, threads), moves);
      var freed := Step(Step(a, failing, Failure), failing, Go);
      var again := Step(Step(freed, next, Go), next, Go);
      && !freed.done && freed.holder.None? && freed.threads[failing] == Outside && freed.served == 0
      && again.holder == Some(next) && again.threads[next] == FirstInFlight && !again.done
  {
    RunSafe(Begin(true, threads), true, moves);
  }

  /** The lock is never orphaned: its holder always has a move that takes it on. */
  lemma HolderMoves(threads: nat, serialize: bool, moves: seq<(nat, Move)>)
    requires Run(Begin(serialize, threads), moves).holder.Some?
    ensures var a := Run(Begin(serialize, threads), moves);
      var t := a.holder.value;
      && t < |a.threads|
      && (Step(a, t, Go).threads[t] != a.threads[t] || Step(a, t, Success).threads[t] != a.threads[t])
  {
    RunSafe(Begin(serialize, threads), serialize, moves);
  }

  /**
   Who can go on: a thread inside the client when its request ends, either way; any other thread by itself, except a
   waiter while somebody holds the lock.
   */
  lemma MovesIff(a: Adapter, t: nat, m: Move)
    requires t < |a.threads|
    ensures var place := a.threads[t];
      Step(a, t, m) != a <==>
        if Calling(place) then m != Go else m == Go && (place == Waiting ==> a.holder.None?)
  {
    var place := a.threads[t];
    var next := ThreadStep(a.done, a.holder, t, place, m).2;
    if next != place {
      assert Step(a, t, m).threads[t] == next;
    } else {
      assert a.threads[t := place] == a.threads;
    }
  }

  // ---------------------------------------------------------------- one request for each call

  /** How often a thread called the adapter, entered the underlying client and returned from the adapter. */
  datatype Tally = Tally(calls: nat, requests: nat, answers: nat)

  function TallyStep(tally: Tally, before: Place, after: Place): Tally {
    Tally(tally.calls + (if before == Outside && after != Outside then 1 else 0),
          tally.requests + (if !Calling(before) && Calling(after) then 1 else 0),
          tally.answers + (if before != Outside && after == Outside then 1 else 0))
  }

  function TallyOf(a: Adapter, moves: seq<(nat, Move)>, t: nat): Tally {
    if moves == [] then Tally(0, 0, 0)
    else
      var init := moves[..|moves| - 1];
      TallyStep(TallyOf(a, init, t), PlaceOf(Run(a, init), t), PlaceOf(Run(a, moves), t))
  }

  function PlaceOf(a: Adapter, t: nat): Place {
    if t < |a.threads| then a.threads[t] else Outside
  }

  predicate BeforeRequest(place: Place) {
    place == Waiting || place == Holding || place == Unlocking(true)
  }

  ghost predicate OneRequestEach(tally: Tally, place: Place) {
    && tally.calls == tally.answers + (if place == Outside then 0 else 1)
    && tally.requests == tally.calls - (if BeforeRequest(place) then 1 else 0)
  }

  /**
   Under every schedule, with or without serialisation, each call of the adapter makes exactly one request: once it has
   returned it made one, and until then it made none while it waits, holds the lock before its request, or gives the
   lock back because another thread was first. No call returns without its request.
   */
  lemma {:induction false} EachCallRequestsOnce(serialize: bool, threads: nat, moves: seq<(nat, Move)>, t: nat)
    ensures var a := Begin(serialize, threads); OneRequestEach(TallyOf(a, moves, t), PlaceOf(Run(a, moves), t))
  {
    var a := Begin(serialize, threads);
    if moves != [] {
      var init, last := moves[..|moves| - 1], moves[|moves| - 1];
      EachCallRequestsOnce(serialize, threads, init, t);
      assert Run(a, moves) == Step(Run(a, init), last.0, last.1);
    }
  }

  class ZaprosSyncAdapter {
    var firstRequestDone: bool
    var holder: Option<nat>

    constructor (serializeFirstRequest: bool)
      ensures firstRequestDone == !serializeFirstRequest && holder == None
    {
      firstRequestDone, holder := !serializeFirstRequest, None;
    }

    /** Runs one thread from `place` to the next point where another thread may run. */
    method Advance(thread: nat, place: Place, m: Move) returns (next: Place)
      modifies this
      ensures (firstRequestDone, holder, next) == ThreadStep(old(firstRequestDone), old(holder), thread, place, m)
    {
      next := place;
      match place {
        case Outside =>
          if m == Go { next := if firstRequestDone then InFlight else Waiting; }
        case Waiting =>
          if m == Go && holder.None? {
            holder, next := Some(thread), Holding;
          }
        case Holding =>
          if m == Go { next := if !firstRequestDone then FirstInFlight else Unlocking(true); }
        case FirstInFlight =>
          if m == Success {
            next := FirstReturned;
          } else if m == Failure {
            next := Unlocking(false);
          }
        case FirstReturned =>
          if m == Go {
            firstRequestDone := true;
            next := Unlocking(false);
          }
        case Unlocking(thenCall) =>
          if m == Go {
            holder := None;
            next := if thenCall then InFlight else Outside;
          }
        case InFlight =>
          if m != Go { next := Outside; }
      }
    }
  }

  /** Threads sharing one adapter object behave as the machine does. */
  method Schedule(serialize: bool, threads: nat, moves: seq<(nat, Move)>)
    returns (adapter: ZaprosSyncAdapter, places: seq<Place>)
    ensures var a := Run(Begin(serialize, threads), moves);
      adapter.firstRequestDone == a.done && adapter.holder == a.holder && places == a.threads
  {
    adapter := new ZaprosSyncAdapter(serialize);
    places := seq(threads, i requires 0 <= i < threads => Outside);
    for k := 0 to |moves|
      invariant fresh(adapter)
      invariant var a := Run(Begin(serialize, threads), moves[..k]);
        adapter.firstRequestDone == a.done && adapter.holder == a.holder && places == a.threads
    {
      assert moves[..k + 1][..k] == moves[..k];
      var (thread, m) := moves[k];
      if thread < |places| {
        var next := adapter.Advance(thread, places[thread], m);
        places := places[thread := next];
      }
    }
    assert moves[..|moves|] == moves;
  }
}
