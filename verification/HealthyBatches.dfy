/** A load whose server behaves is admitted: from what every stream is sent to the verdict of the later checks. */
module HealthyBatches {
  import opened Common
  import opened Histograms
  import opened BytesPayload
  import opened AttributionConsume
  import opened ObservationRuns
  import opened AttributionWindow
  import opened AttributionOverhead
  import opened AttributionMeasure
  import opened AttributionBatch
  import opened AttributionAdmission
  import opened AttributionMeasurement
  import opened StreamOutcomes

  /** The different sizes in a history. */
  ghost function Different(sizes: seq<nat>): set<nat> {
    set s | s in sizes
  }

  /** Bins opened on demand under a cap are complete exactly when the different sizes fit the cap. */
  lemma CompleteIffFit(h: map<nat, nat>, complete: bool, sizes: seq<nat>, cap: nat)
    requires BinsExact(h, complete, sizes, |h| >= cap) && |h| <= cap
    ensures complete <==> |Different(sizes)| <= cap
  {
    forall s | s in h ensures s in sizes { CountPositive(sizes, s); }
    assert h.Keys <= Different(sizes);
    if complete {
      assert h.Keys == Different(sizes);
    } else {
      var lost :| lost in sizes && lost !in h;
      assert h.Keys + {lost} <= Different(sizes);
      Larger(h.Keys + {lost}, Different(sizes));
    }
  }

  lemma Larger(a: set<nat>, b: set<nat>)
    requires a <= b
    ensures |a| <= |b|
  {
    assert b == a + (b - a);
  }

  /** The window's histogram is complete exactly when no more different sizes arrived than it has bins. */
  lemma WindowCompleteIff(config: Config, body: nat, recordCap: nat, binsCap: nat, moves: seq<Move>)
    ensures var w := Run(config, body, StartWorld(recordCap, binsCap, true), moves);
      w.budget.globalHistogramComplete <==> |Different(w.sizes)| <= binsCap
  {
    var start := StartWorld(recordCap, binsCap, true);
    StartOk(config, body, recordCap, binsCap, true);
    RunKeepsWorld(config, body, start, moves);
    RunKeepsBudgetShape(config, body, start, moves);
    var w := Run(config, body, start, moves);
    CompleteIffFit(w.budget.globalHistogram.value, w.budget.globalHistogramComplete, w.sizes, binsCap);
  }

  /** Every stream that was opened is served the declared body. */
  ghost predicate AllServed(moves: seq<Move>, body: nat) {
    forall i :: 0 <= i < Opens(moves) ==> Served(moves, i, body)
  }

  lemma ServedVerified<D>(
    config: Config, body: nat, recordCap: nat, binsCap: nat, global: bool, moves: seq<Move>, sha: Bytes -> D)
    requires AllServed(moves, body)
    ensures Verified(Run(config, body, StartWorld(recordCap, binsCap, global), moves), sha, body, sha(Pattern(body)))
  {
    var w := Run(config, body, StartWorld(recordCap, binsCap, global), moves);
    RunOpens(config, body, StartWorld(recordCap, binsCap, global), moves);
    forall i | 0 <= i < |w.streams| ensures Intact(sha, w.streams[i], body, sha(Pattern(body))) {
      ServedIsIntact(config, body, recordCap, binsCap, global, moves, i, sha);
    }
  }

  /**
   A judged timed batch, all of whose streams were served the declared body in no more different chunk sizes than the
   window has bins and within the bound on replay segments, is admitted by both later checks.
   */
  lemma HealthyWindowAdmitted<D>(
    batch: Batch, config: Config, concurrency: nat, rounds: nat, done: nat, sha: Bytes -> D, body: nat,
    moves: seq<Move>)
    requires concurrency > 0 && AllServed(moves, body)
    requires var w := Run(config, body, StartOf(config, true), moves);
      && Judged(batch, w, config, concurrency, rounds, true, done, sha, body, sha(Pattern(body)))
      && w.budget.globalHistogram.Some? && FewSegments(w.budget.globalHistogram.value, config)
      && |Different(w.sizes)| <= config.histogramBinsCap
    ensures BatchWorkloadMatches(batch, done, concurrency) && batch.overhead.ok
    ensures DistributionAdmitted(batch, Workload(body, rounds, config))
  {
    ServedVerified(config, body, BUDGET_RECORD_CAP, config.histogramBinsCap, true, moves, sha);
    WindowCompleteIff(config, body, BUDGET_RECORD_CAP, config.histogramBinsCap, moves);
  }
}
