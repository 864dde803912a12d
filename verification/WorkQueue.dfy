/** Load workers draining one shared queue, cut at their awaits; a run is any interleaving of their segments. */
module WorkQueue {
  import opened Common
  import opened MapSums

  /** `error` is the failed check or the exception type of a request that did not succeed. */
  datatype Reply = Reply(error: Option<string>, latencyMs: real)

  /** A worker between two awaits: what it has collected and the index it is working on. */
  datatype Worker = Worker(latencies: seq<real>, errorTypes: map<string, nat>, held: Option<nat>, done: bool)

  const IDLE := Worker([], map[], None, false)

  /** One finished request: which index, by which worker, and how it ended. */
  datatype Done = Done(index: nat, worker: nat, reply: Reply)

  /**
   `unfinished` is the queue's own count of tasks not yet marked done. `takenBy` and `finished` are the history:
   index i was taken by worker takenBy[i].
   */
  datatype Load = Load(queue: seq<nat>, unfinished: int, workers: seq<Worker>, takenBy: seq<nat>, finished: seq<Done>)

  datatype Action = Take(worker: nat) | Finish(worker: nat, reply: Reply)

  function Range(low: nat, high: nat): seq<nat>
    requires low <= high
  {
    seq(high - low, i requires 0 <= i < high - low => low + i)
  }

  function Begin(requests: nat, workers: nat): Load {
    Load(Range(0, requests), requests, seq(workers, i requires 0 <= i < workers => IDLE), [], [])
  }

  /** `increment`. */
  function Recorded(errorTypes: map<string, nat>, error: Option<string>): map<string, nat> {
    if error.None? then errorTypes else Bump(errorTypes, error.value, 1)
  }

  function Act(s: Load, collect: bool, a: Action): Load {
    if a.worker >= |s.workers| then s
    else
      var w := s.workers[a.worker];
      match a
      case Take(k) =>
        if w.done || w.held.Some? then s
        else if s.queue == [] then s.(workers := s.workers[k := w.(done := true)])
        else s.(queue := s.queue[1..], takenBy := s.takenBy + [k],
                workers := s.workers[k := w.(held := Some(s.queue[0]))])
      case Finish(k, reply) =>
        if w.held.None? then s
        else
          s.(unfinished := s.unfinished - 1, finished := s.finished + [Done(w.held.value, k, reply)],
             workers := s.workers[k := Worker(
               if collect then w.latencies + [reply.latencyMs] else w.latencies,
               Recorded(w.errorTypes, reply.error), None, w.done)])
  }

  function Run(s: Load, collect: bool, actions: seq<Action>): Load {
    if actions == [] then s else Act(Run(s, collect, actions[..|actions| - 1]), collect, actions[|actions| - 1])
  }

  // ---------------------------------------------------------------- invariant: every index, exactly once

  ghost predicate FinishedOnce(s: Load) {
    && (forall a, b :: 0 <= a < b < |s.finished| ==> s.finished[a].index != s.finished[b].index)
    && (forall a :: 0 <= a < |s.finished| ==>
          s.finished[a].index < |s.takenBy| && s.takenBy[s.finished[a].index] == s.finished[a].worker)
  }

  ghost predicate HeldRightly(s: Load) {
    forall k :: 0 <= k < |s.workers| && s.workers[k].held.Some? ==>
      var i := s.workers[k].held.value;
      && i < |s.takenBy| && s.takenBy[i] == k && !s.workers[k].done
      && forall a :: 0 <= a < |s.finished| ==> s.finished[a].index != i
  }

  ghost predicate IsFinished(s: Load, i: nat) {
    exists a :: 0 <= a < |s.finished| && s.finished[a].index == i
  }

  /** An index that was taken is either finished or still held by the worker that took it. */
  ghost predicate Accounted(s: Load) {
    forall i :: 0 <= i < |s.takenBy| ==>
      && s.takenBy[i] < |s.workers|
      && (IsFinished(s, i) || s.workers[s.takenBy[i]].held == Some(i))
  }

  ghost predicate ExactlyOnce(s: Load, requests: nat) {
    && |s.takenBy| <= requests
    && s.queue == Range(|s.takenBy|, requests)
    && FinishedOnce(s) && HeldRightly(s) && Accounted(s)
    && s.unfinished == requests - |s.finished|
    && (forall k :: 0 <= k < |s.workers| && s.workers[k].done ==> s.queue == [])
  }

  lemma BeginOnce(requests: nat, workers: nat)
    ensures ExactlyOnce(Begin(requests, workers), requests)
  {
  }

  lemma TakeOnce(s: Load, requests: nat, collect: bool, k: nat)
    requires ExactlyOnce(s, requests)
    ensures ExactlyOnce(Act(s, collect, Take(k)), requests)
  {
    if k < |s.workers| && !s.workers[k].done && s.workers[k].held.None? && s.queue != [] {
      var t := Act(s, collect, Take(k));
      assert s.queue[0] == |s.takenBy|;
      assert s.queue[1..] == Range(|s.takenBy| + 1, requests);
      forall i | 0 <= i < |t.takenBy|
        ensures t.takenBy[i] < |t.workers| && (IsFinished(t, i) || t.workers[t.takenBy[i]].held == Some(i))
      {
        if i < |s.takenBy| && IsFinished(s, i) {
          var a :| 0 <= a < |s.finished| && s.finished[a].index == i;
          assert t.finished[a].index == i;
        }
      }
    }
  }

  lemma FinishOnce(s: Load, requests: nat, collect: bool, k: nat, reply: Reply)
    requires ExactlyOnce(s, requests)
    ensures ExactlyOnce(Act(s, collect, Finish(k, reply)), requests)
  {
    if k < |s.workers| && s.workers[k].held.Some? {
      var t := Act(s, collect, Finish(k, reply));
      var index := s.workers[k].held.value;
      forall i | 0 <= i < |t.takenBy|
        ensures t.takenBy[i] < |t.workers| && (IsFinished(t, i) || t.workers[t.takenBy[i]].held == Some(i))
      {
        if i == index {
          assert t.finished[|s.finished|].index == i;
        } else if IsFinished(s, i) {
          var a :| 0 <= a < |s.finished| && s.finished[a].index == i;
          assert t.finished[a].index == i;
        }
      }
    }
  }

  lemma {:induction false} RunOnce(s: Load, requests: nat, collect: bool, actions: seq<Action>)
    requires ExactlyOnce(s, requests)
    ensures ExactlyOnce(Run(s, collect, actions), requests)
  {
    if actions != [] {
      var init, last := actions[..|actions| - 1], actions[|actions| - 1];
      RunOnce(s, requests, collect, init);
      if last.Take? {
        TakeOnce(Run(s, collect, init), requests, collect, last.worker);
      } else {
        FinishOnce(Run(s, collect, init), requests, collect, last.worker, last.reply);
      }
    }
  }

  // ---------------------------------------------------------------- invariant: totals

  function Held(w: Worker): nat { if w.held.Some? then 1 else 0 }

  function Latencies(w: Worker): nat { |w.latencies| }

  ghost function Errors(w: Worker): nat { Total(w.errorTypes) }

  function ErrorsOf(w: Worker, key: string): nat { Get(w.errorTypes, key) }

  ghost function Each(workers: seq<Worker>, f: Worker -> nat): seq<nat> {
    seq(|workers|, i requires 0 <= i < |workers| => f(workers[i]))
  }

  ghost function Over(workers: seq<Worker>, f: Worker -> nat): nat {
    Sum(Each(workers, f))
  }

  /** How many finished requests failed, and how many failed in one particular way. */
  function FailedIn(finished: seq<Done>): nat {
    if finished == [] then 0
    else FailedIn(finished[..|finished| - 1]) + if finished[|finished| - 1].reply.error.Some? then 1 else 0
  }

  function FailedAs(finished: seq<Done>, key: string): nat {
    if finished == [] then 0
    else FailedAs(finished[..|finished| - 1], key) + if finished[|finished| - 1].reply.error == Some(key) then 1 else 0
  }

  ghost predicate Totals(s: Load, collect: bool) {
    && |s.takenBy| == Over(s.workers, Held) + |s.finished|
    && Over(s.workers, Latencies) == (if collect then |s.finished| else 0)
    && Over(s.workers, Errors) == FailedIn(s.finished)
  }

  ghost predicate TotalsFor(s: Load, key: string) {
    Over(s.workers, w => ErrorsOf(w, key)) == FailedAs(s.finished, key)
  }

  lemma OverUpdate(workers: seq<Worker>, k: nat, w: Worker, f: Worker -> nat)
    requires k < |workers|
    ensures Over(workers[k := w], f) + f(workers[k]) == Over(workers, f) + f(w)
  {
    assert Each(workers[k := w], f) == Each(workers, f)[k := f(w)];
    SumUpdate(Each(workers, f), k, f(w));
  }

  lemma {:induction false} OverIdle(n: nat, f: Worker -> nat)
    requires f(IDLE) == 0
    ensures Over(Begin(0, n).workers, f) == 0
  {
    SumConstant(Each(Begin(0, n).workers, f), 0);
  }

  lemma BeginTotals(requests: nat, workers: nat, collect: bool, key: string)
    ensures Totals(Begin(requests, workers), collect) && TotalsFor(Begin(requests, workers), key)
  {
    OverIdle(workers, Held);
    OverIdle(workers, Latencies);
    OverIdle(workers, Errors);
    OverIdle(workers, w => ErrorsOf(w, key));
  }

  lemma RecordedTotals(m: map<string, nat>, error: Option<string>, key: string)
    ensures Total(Recorded(m, error)) == Total(m) + if error.Some? then 1 else 0
    ensures Get(Recorded(m, error), key) == Get(m, key) + if error == Some(key) then 1 else 0
  {
    if error.Some? { TotalBump(m, error.value, 1); }
  }

  lemma ActTotals(s: Load, collect: bool, a: Action, key: string)
    requires Totals(s, collect) && TotalsFor(s, key)
    ensures Totals(Act(s, collect, a), collect) && TotalsFor(Act(s, collect, a), key)
  {
    if a.worker < |s.workers| {
      var k, w, t := a.worker, s.workers[a.worker], Act(s, collect, a);
      OverUpdate(s.workers, k, t.workers[k], Held);
      OverUpdate(s.workers, k, t.workers[k], Latencies);
      OverUpdate(s.workers, k, t.workers[k], Errors);
      OverUpdate(s.workers, k, t.workers[k], w => ErrorsOf(w, key));
      assert t.workers == s.workers[k := t.workers[k]];
      if a.Finish? && w.held.Some? {
        RecordedTotals(w.errorTypes, a.reply.error, key);
        assert t.finished[..|s.finished|] == s.finished;
      }
    }
  }

  lemma {:induction false} RunTotals(requests: nat, workers: nat, collect: bool, actions: seq<Action>, key: string)
    ensures var s := Run(Begin(requests, workers), collect, actions); Totals(s, collect) && TotalsFor(s, key)
  {
    if actions == [] {
      BeginTotals(requests, workers, collect, key);
    } else {
      RunTotals(requests, workers, collect, actions[..|actions| - 1], key);
      ActTotals(Run(Begin(requests, workers), collect, actions[..|actions| - 1]), collect, actions[|actions| - 1], key);
    }
  }

  /** Conservation after any schedule: every request is queued, held or finished. */
  lemma Conservation(requests: nat, workers: nat, collect: bool, actions: seq<Action>)
    ensures var s := Run(Begin(requests, workers), collect, actions);
      && |s.queue| + Over(s.workers, Held) + |s.finished| == requests
      && s.unfinished == requests - |s.finished|
      && ExactlyOnce(s, requests)
  {
    BeginOnce(requests, workers);
    RunOnce(Begin(requests, workers), requests, collect, actions);
    RunTotals(requests, workers, collect, actions, "");
  }

  // ---------------------------------------------------------------- latencies

  /** The latencies of the requests one worker finished, in order. */
  function LogOf(finished: seq<Done>, worker: nat): seq<real> {
    if finished == [] then []
    else
      var last := finished[|finished| - 1];
      LogOf(finished[..|finished| - 1], worker) + if last.worker == worker then [last.reply.latencyMs] else []
  }

  /** The latencies of all finished requests, whoever finished them. */
  function AllLatencies(finished: seq<Done>): multiset<real> {
    if finished == [] then multiset{}
    else AllLatencies(finished[..|finished| - 1]) + multiset{finished[|finished| - 1].reply.latencyMs}
  }

  /** Each worker has collected exactly its own latencies, or nothing when the load does not collect. */
  ghost predicate Logged(s: Load, collect: bool) {
    forall k :: 0 <= k < |s.workers| ==> s.workers[k].latencies == if collect then LogOf(s.finished, k) else []
  }

  lemma LogSnoc(finished: seq<Done>, last: Done, worker: nat)
    ensures LogOf(finished + [last], worker)
         == LogOf(finished, worker) + if last.worker == worker then [last.reply.latencyMs] else []
    ensures AllLatencies(finished + [last]) == AllLatencies(finished) + multiset{last.reply.latencyMs}
  {
    assert (finished + [last])[..|finished|] == finished;
  }

  lemma ActLogged(s: Load, collect: bool, a: Action)
    requires Logged(s, collect)
    ensures Logged(Act(s, collect, a), collect)
  {
    if a.Finish? && a.worker < |s.workers| && s.workers[a.worker].held.Some? {
      var t := Act(s, collect, a);
      forall k | 0 <= k < |t.workers|
        ensures t.workers[k].latencies == if collect then LogOf(t.finished, k) else []
      {
        LogSnoc(s.finished, Done(s.workers[a.worker].held.value, a.worker, a.reply), k);
      }
    }
  }

  /** After any schedule every worker holds the latencies of exactly the requests it finished, in order. */
  lemma {:induction false} RunLogged(requests: nat, workers: nat, collect: bool, actions: seq<Action>)
    ensures Logged(Run(Begin(requests, workers), collect, actions), collect)
  {
    if actions != [] {
      RunLogged(requests, workers, collect, actions[..|actions| - 1]);
      ActLogged(Run(Begin(requests, workers), collect, actions[..|actions| - 1]), collect, actions[|actions| - 1]);
    }
  }

  function Logs(finished: seq<Done>, workers: nat): seq<seq<real>> {
    seq(workers, k requires 0 <= k < workers => LogOf(finished, k))
  }

  lemma {:induction false} FlatUpdate(parts: seq<seq<real>>, k: nat, x: real)
    requires k < |parts|
    ensures multiset(Flat(parts[k := parts[k] + [x]])) == multiset(Flat(parts)) + multiset{x}
  {
    var n := |parts| - 1;
    var after := parts[k := parts[k] + [x]];
    if k < n {
      FlatUpdate(parts[..n], k, x);
      assert after[..n] == parts[..n][k := parts[k] + [x]];
    } else {
      assert after[..n] == parts[..n];
      assert Flat(after) == Flat(parts[..n]) + (parts[n] + [x]);
    }
  }

  lemma {:induction false} FlatEmpty(parts: seq<seq<real>>)
    requires forall k :: 0 <= k < |parts| ==> parts[k] == []
    ensures Flat(parts) == []
  {
    if parts != [] { FlatEmpty(parts[..|parts| - 1]); }
  }

  lemma LogsSnoc(init: seq<Done>, last: Done, workers: nat)
    requires last.worker < workers
    ensures var logs := Logs(init, workers);
      Logs(init + [last], workers) == logs[last.worker := logs[last.worker] + [last.reply.latencyMs]]
  {
    var logs, all := Logs(init, workers), Logs(init + [last], workers);
    forall k | 0 <= k < workers
      ensures all[k] == logs[last.worker := logs[last.worker] + [last.reply.latencyMs]][k]
    {
      LogSnoc(init, last, k);
    }
  }

  /** All workers' latencies together are those of all finished requests. */
  lemma {:induction false} LogsHoldAll(finished: seq<Done>, workers: nat)
    requires forall i :: 0 <= i < |finished| ==> finished[i].worker < workers
    ensures multiset(Flat(Logs(finished, workers))) == AllLatencies(finished)
  {
    if finished == [] {
      FlatEmpty(Logs(finished, workers));
    } else {
      var init, last := finished[..|finished| - 1], finished[|finished| - 1];
      assert finished == init + [last];
      LogsHoldAll(init, workers);
      LogsSnoc(init, last, workers);
      FlatUpdate(Logs(init, workers), last.worker, last.reply.latencyMs);
    }
  }

  lemma FinishedByWorkers(s: Load, requests: nat)
    requires ExactlyOnce(s, requests)
    ensures forall i :: 0 <= i < |s.finished| ==> s.finished[i].worker < |s.workers|
  {
    forall i | 0 <= i < |s.finished| ensures s.finished[i].worker < |s.workers| {
      assert s.takenBy[s.finished[i].index] < |s.workers|;
    }
  }

  // ---------------------------------------------------------------- the end

  ghost predicate AllDone(s: Load) {
    forall k :: 0 <= k < |s.workers| ==> s.workers[k].done
  }

  lemma {:induction false} NoneHeld(workers: seq<Worker>)
    requires forall k :: 0 <= k < |workers| ==> workers[k].held.None?
    ensures Over(workers, Held) == 0
  {
    forall k | 0 <= k < |workers| ensures Each(workers, Held)[k] == 0 {
      assert Each(workers, Held)[k] == Held(workers[k]);
    }
    SumConstant(Each(workers, Held), 0);
  }

  lemma {:induction false} OverZero(workers: seq<Worker>, k: nat)
    requires Over(workers, Held) == 0 && k < |workers|
    ensures workers[k].held.None?
  {
    assert Each(workers, Held)[k] == Held(workers[k]);
    SumUpdate(Each(workers, Held), k, 0);
  }

  /**
   Both ways of waiting for the end agree: the queue's `join` returns (nothing unfinished) exactly when everything
   was finished, and so it is once all workers, of which there is at least one, have returned.
   */
  lemma JoinIffFinished(requests: nat, workers: nat, collect: bool, actions: seq<Action>)
    requires workers > 0
    ensures var s := Run(Begin(requests, workers), collect, actions);
      && (s.unfinished == 0 <==> |s.finished| == requests)
      && (s.unfinished == 0 ==> s.queue == [] && forall k :: 0 <= k < |s.workers| ==> s.workers[k].held.None?)
      && (AllDone(s) ==> s.unfinished == 0)
  {
    var s := Run(Begin(requests, workers), collect, actions);
    Conservation(requests, workers, collect, actions);
    RunWorkers(Begin(requests, workers), collect, actions);
    if s.unfinished == 0 {
      forall k | 0 <= k < |s.workers| ensures s.workers[k].held.None? { OverZero(s.workers, k); }
    }
    if AllDone(s) {
      assert s.workers[0].done;
      NoneHeld(s.workers);
    }
  }

  lemma {:induction false} RunWorkers(s: Load, collect: bool, actions: seq<Action>)
    ensures |Run(s, collect, actions).workers| == |s.workers|
  {
    if actions != [] { RunWorkers(s, collect, actions[..|actions| - 1]); }
  }

  // ---------------------------------------------------------------- merging

  datatype LoadResult = LoadResult(latenciesMs: seq<real>, errors: nat, errorTypes: map<string, nat>)

  function Flat(parts: seq<seq<real>>): seq<real> {
    if parts == [] then [] else Flat(parts[..|parts| - 1]) + parts[|parts| - 1]
  }

  function LatenciesOf(results: seq<LoadResult>): seq<seq<real>> {
    seq(|results|, i requires 0 <= i < |results| => results[i].latenciesMs)
  }

  function ErrorTypesOf(results: seq<LoadResult>): seq<map<string, nat>> {
    seq(|results|, i requires 0 <= i < |results| => results[i].errorTypes)
  }

  /** One more of `key`, and of nothing else. */
  method Increment(values: map<string, nat>, key: string) returns (r: map<string, nat>)
    ensures Get(r, key) == Get(values, key) + 1 && r.Keys == values.Keys + {key}
    ensures forall other :: other != key ==> Get(r, other) == Get(values, other)
    ensures Total(r) == Total(values) + 1
  {
    r := values[key := Get(values, key) + 1];
    TotalUpdate(values, key, Get(values, key) + 1);
  }

  method MergeLoadResults(results: seq<LoadResult>) returns (r: LoadResult)
    ensures r.latenciesMs == Flat(LatenciesOf(results))
    ensures r.errorTypes == AddAll(ErrorTypesOf(results))
    ensures r.errors == Total(r.errorTypes)
  {
    var latencies: seq<real>, errorTypes: map<string, nat> := [], map[];
    ghost var parts, maps := LatenciesOf(results), ErrorTypesOf(results);
    for k := 0 to |results|
      invariant latencies == Flat(parts[..k])
      invariant errorTypes == AddAll(maps[..k])
    {
      assert parts[..k + 1][..k] == parts[..k] && maps[..k + 1][..k] == maps[..k];
      latencies := latencies + results[k].latenciesMs;
      errorTypes := AddCounters(errorTypes, results[k].errorTypes);
    }
    assert parts[..|results|] == parts && maps[..|results|] == maps;
    var errors := SumValues(errorTypes);
    r := LoadResult(latencies, errors, errorTypes);
  }

  lemma {:induction false} FlatLength(parts: seq<seq<real>>)
    ensures |Flat(parts)| == Sum(seq(|parts|, i requires 0 <= i < |parts| => |parts[i]|))
  {
    var lengths: seq<nat> := seq(|parts|, i requires 0 <= i < |parts| => |parts[i]|);
    if parts != [] {
      var init := parts[..|parts| - 1];
      FlatLength(init);
      assert lengths[..|parts| - 1] == seq(|init|, i requires 0 <= i < |init| => |init[i]|);
    }
  }

  lemma {:induction false} GetAddAll(ms: seq<map<string, nat>>, key: string)
    ensures Get(AddAll(ms), key) == Sum(seq(|ms|, i requires 0 <= i < |ms| => Get(ms[i], key)))
  {
    var counts: seq<nat> := seq(|ms|, i requires 0 <= i < |ms| => Get(ms[i], key));
    if ms != [] {
      var init := ms[..|ms| - 1];
      GetAddAll(init, key);
      assert counts[..|ms| - 1] == seq(|init|, i requires 0 <= i < |init| => Get(init[i], key));
    }
  }

  /** What the workers of a load return. */
  ghost predicate Returned(s: Load, results: seq<LoadResult>) {
    && |results| == |s.workers|
    && forall k :: 0 <= k < |results| ==>
      && results[k].latenciesMs == s.workers[k].latencies
      && results[k].errorTypes == s.workers[k].errorTypes
  }

  lemma MergedTotals(s: Load, collect: bool, results: seq<LoadResult>, requests: nat, key: string)
    requires Totals(s, collect) && TotalsFor(s, key) && Returned(s, results) && |s.finished| == requests
    ensures |Flat(LatenciesOf(results))| == (if collect then requests else 0)
    ensures Total(AddAll(ErrorTypesOf(results))) == FailedIn(s.finished) <= requests
    ensures Get(AddAll(ErrorTypesOf(results)), key) == FailedAs(s.finished, key)
  {
    var parts, maps := LatenciesOf(results), ErrorTypesOf(results);
    FlatLength(parts);
    assert seq(|parts|, i requires 0 <= i < |parts| => |parts[i]|) == Each(s.workers, Latencies);
    TotalAddAll(maps);
    assert seq(|maps|, i requires 0 <= i < |maps| => Total(maps[i])) == Each(s.workers, Errors);
    GetAddAll(maps, key);
    assert seq(|maps|, i requires 0 <= i < |maps| => Get(maps[i], key)) == Each(s.workers, w => ErrorsOf(w, key));
    FailedAtMost(s.finished);
  }

  /** What the workers return is what was measured: every finished request's own latency, and no other number. */
  lemma MergedLatencies(s: Load, collect: bool, results: seq<LoadResult>, requests: nat)
    requires Logged(s, collect) && Returned(s, results) && ExactlyOnce(s, requests)
    ensures multiset(Flat(LatenciesOf(results))) == if collect then AllLatencies(s.finished) else multiset{}
  {
    FinishedByWorkers(s, requests);
    var parts := LatenciesOf(results);
    if collect {
      assert parts == Logs(s.finished, |s.workers|);
      LogsHoldAll(s.finished, |s.workers|);
    } else {
      FlatEmpty(parts);
    }
  }

  lemma {:induction false} FailedAtMost(finished: seq<Done>)
    ensures FailedIn(finished) <= |finished|
  {
    if finished != [] { FailedAtMost(finished[..|finished| - 1]); }
  }

  // ---------------------------------------------------------------- mixed origins

  /** Mixed-origin loads send the even indices to the primary origin. */
  predicate ToPrimary(index: nat) {
    index % 2 == 0
  }

  function PrimaryIn(sent: seq<nat>): nat {
    if sent == [] then 0 else PrimaryIn(sent[..|sent| - 1]) + if ToPrimary(sent[|sent| - 1]) then 1 else 0
  }

  lemma {:induction false} PrimaryInRange(n: nat)
    ensures PrimaryIn(Range(0, n)) == (n + 1) / 2
  {
    if n > 0 {
      PrimaryInRange(n - 1);
      assert Range(0, n)[..n - 1] == Range(0, n - 1);
    }
  }

  /** The requests sent so far, in order, are the indices 0, 1, ...: half of them, rounded up, go to the primary. */
  lemma ParitySplit(requests: nat, workers: nat, collect: bool, actions: seq<Action>)
    ensures var s := Run(Begin(requests, workers), collect, actions);
      && Range(0, |s.takenBy|) + s.queue == Range(0, requests)
      && PrimaryIn(Range(0, |s.takenBy|)) == (|s.takenBy| + 1) / 2
      && |s.takenBy| - PrimaryIn(Range(0, |s.takenBy|)) == |s.takenBy| / 2
      && (s.unfinished == 0 ==> PrimaryIn(Range(0, |s.takenBy|)) == (requests + 1) / 2)
  {
    SentInOrder(requests, workers, collect, actions);
    PrimaryInRange(|Run(Begin(requests, workers), collect, actions).takenBy|);
  }

  lemma SentInOrder(requests: nat, workers: nat, collect: bool, actions: seq<Action>)
    ensures var s := Run(Begin(requests, workers), collect, actions);
      Range(0, |s.takenBy|) + s.queue == Range(0, requests) && (s.unfinished == 0 ==> |s.takenBy| == requests)
  {
    Conservation(requests, workers, collect, actions);
    var s := Run(Begin(requests, workers), collect, actions);
    if s.unfinished == 0 {
      assert |s.queue| == 0;
    }
  }

  // ---------------------------------------------------------------- running a load

  /** Each step of a worker uses up some of this, so every schedule ends. */
  ghost function Work(s: Load): nat {
    2 * |s.queue| + Over(s.workers, Held) + Over(s.workers, Unreturned)
  }

  function Unreturned(w: Worker): nat { if w.done then 0 else 1 }

  lemma ActWorks(s: Load, requests: nat, collect: bool, a: Action)
    requires ExactlyOnce(s, requests) && a.worker < |s.workers| && !s.workers[a.worker].done
    requires a.Finish? <==> s.workers[a.worker].held.Some?
    ensures Work(Act(s, collect, a)) < Work(s)
  {
    var k, t := a.worker, Act(s, collect, a);
    OverUpdate(s.workers, k, t.workers[k], Held);
    OverUpdate(s.workers, k, t.workers[k], Unreturned);
    assert t.workers == s.workers[k := t.workers[k]];
  }

  /**
   A load under an arbitrary scheduler: at each turn any worker that has not returned runs to its next await, with any
   reply. It always ends, with every index finished exactly once, one latency per request when collecting, and
   errors counted by type and in all.
   */
  method RunLoad(requests: nat, concurrency: nat, collect: bool)
    returns (r: LoadResult, ghost s: Load, ghost actions: seq<Action>)
    requires concurrency > 0
    ensures s == Run(Begin(requests, Min(concurrency, requests)), collect, actions)
    ensures ExactlyOnce(s, requests) && |s.finished| == requests
    ensures |r.latenciesMs| == if collect then requests else 0
    ensures multiset(r.latenciesMs) == if collect then AllLatencies(s.finished) else multiset{}
    ensures r.errors == Total(r.errorTypes) == FailedIn(s.finished) <= requests
    ensures forall key :: Get(r.errorTypes, key) == FailedAs(s.finished, key)
  {
    actions := [];
    var size := Min(concurrency, requests);
    s := Begin(requests, size);
    BeginOnce(requests, size);
    if requests == 0 {
      return LoadResult([], 0, map[]), s, actions;
    }
    var queue, workers := Range(0, requests), seq(size, i requires 0 <= i < size => IDLE);
    while exists k :: 0 <= k < |workers| && !workers[k].done
      invariant |workers| == size && s.queue == queue && s.workers == workers
      invariant s == Run(Begin(requests, size), collect, actions)
      invariant ExactlyOnce(s, requests)
      decreases Work(s)
    {
      var k :| 0 <= k < |workers| && !workers[k].done;
      ghost var a: Action;
      if workers[k].held.Some? {
        var reply: Reply := *;
        a := Finish(k, reply);
        workers := workers[k := Answered(workers[k], collect, reply)];
      } else {
        a := Take(k);
        if queue == [] {
          workers := workers[k := workers[k].(done := true)];
        } else {
          workers := workers[k := workers[k].(held := Some(queue[0]))];
          queue := queue[1..];
        }
      }
      ActWorks(s, requests, collect, a);
      assert (actions + [a])[..|actions|] == actions;
      s, actions := Act(s, collect, a), actions + [a];
      RunOnce(Begin(requests, size), requests, collect, actions);
    }
    var results := Collect(workers);
    Ends(requests, size, collect, actions, results);
    r := MergeLoadResults(results);
  }

  /** What the results of all workers contain once every one of them has returned. */
  lemma Ends(requests: nat, size: nat, collect: bool, actions: seq<Action>, results: seq<LoadResult>)
    requires size > 0
    requires var s := Run(Begin(requests, size), collect, actions); AllDone(s) && Returned(s, results)
    ensures var s := Run(Begin(requests, size), collect, actions);
      && |s.finished| == requests
      && |Flat(LatenciesOf(results))| == (if collect then requests else 0)
      && multiset(Flat(LatenciesOf(results))) == (if collect then AllLatencies(s.finished) else multiset{})
      && Total(AddAll(ErrorTypesOf(results))) == FailedIn(s.finished) <= requests
      && forall key :: Get(AddAll(ErrorTypesOf(results)), key) == FailedAs(s.finished, key)
  {
    var s := Run(Begin(requests, size), collect, actions);
    JoinIffFinished(requests, size, collect, actions);
    Conservation(requests, size, collect, actions);
    forall key ensures Get(AddAll(ErrorTypesOf(results)), key) == FailedAs(s.finished, key) {
      RunTotals(requests, size, collect, actions, key);
      MergedTotals(s, collect, results, requests, key);
    }
    RunTotals(requests, size, collect, actions, "");
    MergedTotals(s, collect, results, requests, "");
    RunLogged(requests, size, collect, actions);
    MergedLatencies(s, collect, results, requests);
  }

  /** What each worker returns. */
  method Collect(workers: seq<Worker>) returns (results: seq<LoadResult>)
    ensures |results| == |workers|
    ensures forall k :: 0 <= k < |workers| ==>
      results[k] == LoadResult(workers[k].latencies, Total(workers[k].errorTypes), workers[k].errorTypes)
  {
    results := [];
    for k := 0 to |workers|
      invariant |results| == k
      invariant forall i :: 0 <= i < k ==>
        results[i] == LoadResult(workers[i].latencies, Total(workers[i].errorTypes), workers[i].errorTypes)
    {
      var errors := SumValues(workers[k].errorTypes);
      results := results + [LoadResult(workers[k].latencies, errors, workers[k].errorTypes)];
    }
  }

  function Answered(w: Worker, collect: bool, reply: Reply): Worker {
    Worker(if collect then w.latencies + [reply.latencyMs] else w.latencies,
           Recorded(w.errorTypes, reply.error), None, w.done)
  }
}
