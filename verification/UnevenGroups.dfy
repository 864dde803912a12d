/** When an aggregate of admitted runs is refused, with runs that show it. */
module UnevenGroups {
  import opened Common
  import opened MapSums
  import opened ReportRows
  import opened OrdinaryRows
  import opened RequestAggregation
  import opened RequestAdmission
  import Text

  // ---------------------------------------------------------------- which runs are admitted

  ghost predicate RunKeyCells(row: Row, r: RunResult) {
    && Cell(row, Plain(Mode), Str(r.mode)) && Cell(row, Plain(Client), Str(r.client))
    && Cell(row, Plain(Scenario), Str(r.scenario)) && Cell(row, Plain(Concurrency), Int(r.concurrency))
    && Cell(row, Plain(RequestLimit), Int(r.requestLimit))
  }

  lemma RunKeyCellsHold(row: Row, r: RunResult)
    requires RunFields(row, r)
    ensures RunKeyCells(row, r)
  {
    RunCellHolds(row, r, Plain(Mode), Str(r.mode));
    RunCellHolds(row, r, Plain(Client), Str(r.client));
    RunCellHolds(row, r, Plain(Scenario), Str(r.scenario));
    RunCellHolds(row, r, Plain(Concurrency), Int(r.concurrency));
    RunCellHolds(row, r, Plain(RequestLimit), Int(r.requestLimit));
  }

  lemma RunIdentityHolds(row: Row, r: RunResult)
    requires RunKeyCells(row, r) && Sound(r)
    ensures ValidIdentity(Requests, row)
  {
  }

  ghost predicate RunCountCells(row: Row, r: RunResult) {
    && Cell(row, Plain(RequestCount), Int(r.requests)) && Cell(row, Plain(Repeat), Int(r.repeat))
    && Cell(row, Plain(Errors), Int(r.errors)) && Cell(row, Plain(WarmupErrors), Int(r.warmupErrors))
    && Cell(row, Count(OkRequests), Int(r.okRequests)) && Cell(row, Number(DurationS), Num(r.durationS))
    && Cell(row, Plain(OkRequestsPerSecond), Num(r.okRequestsPerSecond))
  }

  lemma RunCountCellsHold(row: Row, r: RunResult)
    requires RunFields(row, r)
    ensures RunCountCells(row, r)
  {
    RunCellHolds(row, r, Plain(RequestCount), Int(r.requests));
    RunCellHolds(row, r, Plain(Repeat), Int(r.repeat));
    RunCellHolds(row, r, Plain(Errors), Int(r.errors));
    RunCellHolds(row, r, Plain(WarmupErrors), Int(r.warmupErrors));
    RunCellHolds(row, r, Count(OkRequests), Int(r.okRequests));
    RunCellHolds(row, r, Number(DurationS), Num(r.durationS));
    RunCellHolds(row, r, Plain(OkRequestsPerSecond), Num(r.okRequestsPerSecond));
  }

  lemma RunCountsHold(row: Row, r: RunResult)
    requires RunCountCells(row, r) && Sound(r)
    ensures HasInteger(row, Plain(Repeat), 0) <==> r.repeat >= 0
    ensures HasNumber(row, Number(DurationS)) <==> r.durationS >= 0.0
    ensures HasInteger(row, Plain(Errors), 0) && PrimaryOk(Requests, row, RunPrimary(Requests))
    ensures RunBounds(Requests, row)
  {
  }

  lemma RunMapsHold(row: Row, r: RunResult)
    requires ErrorCells(row, r) && Sound(r)
    ensures ErrorMaps(row, Plain(Errors), Plain(WarmupErrors))
  {
    CountTotalOf(r.errorTypes);
    CountTotalOf(r.warmupErrorTypes);
  }

  lemma RunColumnObeys(row: Row, r: RunResult, f: Field)
    requires RunFields(row, r) && Sound(r) && r.durationS >= 0.0 && r.processCpuS >= 0.0 && f in row
    ensures Obeys(f, row[f])
  {
    assert row[f] == RunValue(r, f).value;
  }

  lemma RunOptionalHolds(row: Row, r: RunResult)
    requires RunFields(row, r) && Sound(r) && r.durationS >= 0.0 && r.processCpuS >= 0.0
    ensures ValidOptionalFields(row)
  {
    forall f | f in row ensures Obeys(f, row[f]) {
      RunColumnObeys(row, r, f);
    }
    assert RunValue(r, Plain(ErrorRatePercent)).None?;
  }

  ghost predicate Plausible(r: RunResult) {
    Sound(r) && r.repeat >= 0 && r.durationS >= 0.0 && r.processCpuS >= 0.0
  }

  lemma PlausibleAdmitted(row: Row, r: RunResult)
    requires RunFields(row, r) && Plausible(r)
    ensures RunAdmitted(Requests, row)
  {
    RunKeyCellsHold(row, r);
    RunIdentityHolds(row, r);
    RunCountCellsHold(row, r);
    RunCountsHold(row, r);
    ErrorCellsHold(row, r);
    RunMapsHold(row, r);
    RunOptionalHolds(row, r);
  }

  lemma CpuTimeHolds(row: Row, r: RunResult)
    requires RunFields(row, r) && ValidOptionalFields(row)
    ensures r.processCpuS >= 0.0
  {
    RunCellHolds(row, r, Number(ProcessCpuS), Num(r.processCpuS));
    assert Obeys(Number(ProcessCpuS), row[Number(ProcessCpuS)]);
  }

  lemma AdmittedPlausible(row: Row, r: RunResult)
    requires RunFields(row, r) && RunAdmitted(Requests, row)
    ensures Plausible(r)
  {
    SoundFromRow(row, r);
    CpuTimeHolds(row, r);
    RunCellHolds(row, r, Plain(Repeat), Int(r.repeat));
    RunCellHolds(row, r, Number(DurationS), Num(r.durationS));
  }

  /** A run is admitted exactly when it is sound and its repeat number, duration and CPU time are not negative. */
  lemma RunAdmittedIff(r: RunResult)
    ensures RunAdmitted(Requests, RunRow(r)) <==> Plausible(r)
  {
    RunRowFields(r);
    if RunAdmitted(Requests, RunRow(r)) { AdmittedPlausible(RunRow(r), r); }
    if Plausible(r) { PlausibleAdmitted(RunRow(r), r); }
  }

  // ---------------------------------------------------------------- an uneven group

  /** The same run with `requests` requests, all of which failed in the same way. */
  function AllFailed(r: RunResult, requests: nat): RunResult {
    r.(requests := requests, errors := requests, okRequests := 0, okRequestsPerSecond := 0.0,
       errorTypes := map["ReadError" := requests])
  }

  lemma OneErrorType(errors: nat)
    ensures Total(map["ReadError" := errors]) == errors && NamedCounts(map["ReadError" := errors])
  {
    TotalUpdate(map[], "ReadError", errors);
    assert map[]["ReadError" := errors] == map["ReadError" := errors];
    assert "ReadError"[0] == 'R';
  }

  lemma AllFailedPlausible(r: RunResult, requests: nat)
    requires Plausible(r) && requests >= 1
    ensures Plausible(AllFailed(r, requests)) && KeyOf(AllFailed(r, requests)) == KeyOf(r)
  {
    OneErrorType(requests);
  }

  lemma SumOfTwo(a: RunResult, b: RunResult)
    ensures SumInt([a, b], ErrorsIn) == a.errors + b.errors
  {
    assert [a, b][..1] == [a] && [a][..0] == [];
    assert SumInt([a], ErrorsIn) == SumInt([], ErrorsIn) + ErrorsIn(a);
    assert SumInt([a, b], ErrorsIn) == SumInt([a], ErrorsIn) + ErrorsIn(b);
  }

  lemma PairRefused(r: RunResult, failed: RunResult, stdev: seq<real> -> real)
    requires Sound(r) && Sound(failed) && KeyOf(failed) == KeyOf(r) && failed.errors > 2 * r.requests
    requires forall xs :: stdev(xs) >= 0.0
    ensures !AggregateAdmitted(Requests, RowOf(AggregateOf(KeyOf(r), [r, failed], stdev)))
  {
    SumOfTwo(r, failed);
    AggregateAdmittedIff(KeyOf(r), [r, failed], stdev);
  }

  /**
   After any admitted run, a run of the same key that fails more than twice as many requests: both are admitted, and
   their aggregate is refused.
   */
  lemma UnevenGroupRefused(r: RunResult, requests: nat, stdev: seq<real> -> real)
    requires RunAdmitted(Requests, RunRow(r)) && requests > 2 * r.requests
    requires forall xs :: stdev(xs) >= 0.0
    ensures var failed := AllFailed(r, requests);
      && RunAdmitted(Requests, RunRow(failed)) && KeyOf(failed) == KeyOf(r)
      && !AggregateAdmitted(Requests, RowOf(AggregateOf(KeyOf(r), [r, failed], stdev)))
  {
    var failed := AllFailed(r, requests);
    RunAdmittedIff(r);
    AllFailedPlausible(r, requests);
    RunAdmittedIff(failed);
    PairRefused(r, failed, stdev);
  }

  /** One request that succeeded. */
  function Single(client: string, scenario: string): RunResult {
    RunResult("sync", client, scenario, 1, 10, 1, 0, 1.0, 1.0, 1.0, 1, 1.0, 1.0, 1.0, 0, 0, map[], map[], 0.0,
              None, None, None)
  }

  lemma SyncIsMode()
    ensures !Text.Blank("sync") && Allowed(Plain(Mode), "sync")
  {
    assert "sync"[0] == 's';
    assert "sync" in {"async", "sync"};
  }

  /** There is such a pair: one request that succeeded, then ten of the same key that all failed. */
  lemma SingleThenTen(client: string, scenario: string, stdev: seq<real> -> real)
    requires !Text.Blank(client) && !Text.Blank(scenario) && forall xs :: stdev(xs) >= 0.0
    ensures var r := Single(client, scenario);
      && RunAdmitted(Requests, RunRow(r)) && RunAdmitted(Requests, RunRow(AllFailed(r, 10)))
      && !AggregateAdmitted(Requests, RowOf(AggregateOf(KeyOf(r), [r, AllFailed(r, 10)], stdev)))
  {
    var r := Single(client, scenario);
    SyncIsMode();
    assert Sound(r);
    RunAdmittedIff(r);
    UnevenGroupRefused(r, 10, stdev);
  }
}
