/** How many runs behind an aggregate could observe each resource, and the checks that keep the two in step. */
module ResourceCoverage {
  import opened Common
  import opened ReportRows
  import opened Grouping

  // ---------------------------------------------------------------- producing coverage

  /** `resource_values`: the observations that are there. */
  function Present<T>(values: seq<Option<T>>): seq<T> {
    if values == [] then []
    else Present(values[..|values| - 1])
         + if values[|values| - 1].Some? then [values[|values| - 1].value] else []
  }

  method ResourceValues<T>(values: seq<Option<T>>) returns (present: seq<T>)
    ensures present == Present(values)
  {
    present := [];
    for k := 0 to |values|
      invariant present == Present(values[..k])
    {
      assert values[..k + 1][..k] == values[..k];
      if values[k].None? { continue; }
      present := present + [values[k].value];
    }
    assert values[..|values|] == values;
  }

  lemma {:induction false} PresentFacts<T>(values: seq<Option<T>>)
    ensures |Present(values)| <= |values|
    ensures Present(values) == [] <==> forall i :: 0 <= i < |values| ==> values[i].None?
    ensures forall x :: x in Present(values) <==> Some(x) in values
  {
    if values != [] {
      PresentFacts(values[..|values| - 1]);
      assert values == values[..|values| - 1] + [values[|values| - 1]];
    }
  }

  /** `max` of a nonempty list of reals. */
  function Largest(xs: seq<real>): real
    requires xs != []
  {
    if |xs| == 1 then xs[0]
    else
      var before, last := Largest(xs[..|xs| - 1]), xs[|xs| - 1];
      if last > before then last else before
  }

  lemma {:induction false} LargestFacts(xs: seq<real>)
    requires xs != []
    ensures Largest(xs) in xs
    ensures forall x :: x in xs ==> x <= Largest(xs)
  {
    if |xs| > 1 {
      LargestFacts(xs[..|xs| - 1]);
      assert xs == xs[..|xs| - 1] + [xs[|xs| - 1]];
    }
  }

  function OptionalMax(values: seq<Option<real>>): Option<real> {
    var present := Present(values);
    if present == [] then None else Some(Largest(present))
  }

  /** The maximum is null exactly when nothing was observed, and otherwise is the largest observation. */
  lemma OptionalMaxFacts(values: seq<Option<real>>)
    ensures OptionalMax(values).None? <==> forall i :: 0 <= i < |values| ==> values[i].None?
    ensures OptionalMax(values).Some? ==>
      OptionalMax(values) in values
      && forall i :: 0 <= i < |values| && values[i].Some? ==> values[i].value <= OptionalMax(values).value
  {
    PresentFacts(values);
    var present := Present(values);
    if present != [] {
      LargestFacts(present);
      forall i | 0 <= i < |values| && values[i].Some? ensures values[i].value <= Largest(present) {
        assert Some(values[i].value) in values;
        assert values[i].value in present;
      }
    }
  }

  const NOT_RECORDED := "reason-not-recorded"

  function CoverageOfValues<T>(values: seq<Option<T>>): Observation {
    var available := |Present(values)|;
    Observation(available, |values|, if available < |values| then [NOT_RECORDED] else [])
  }

  // ---------------------------------------------------------------- checking coverage

  /** The run column an aggregate's metric summarises. */
  function RawField(metric: Field): Option<Field> {
    match metric
    case NullableNumber(RssMbMax) => Some(NullableNumber(PeakRssMb))
    case NullableCount(ThreadsMax) => Some(NullableCount(PeakThreads))
    case NullableCount(FdsMax) => Some(NullableCount(PeakFds))
    case NullableCount(PeakActiveRequestsMax) => Some(NullableCount(PeakActiveRequests))
    case NullableCount(PeakPendingRequestsMax) => Some(NullableCount(PeakPendingRequests))
    case NullableCount(PeakBufferedResponseBytesMax) => Some(NullableCount(PeakBufferedResponseBytes))
    case DeltaMax(phase, measure) => Some(Delta(phase, measure))
    case _ => None
  }

  predicate Observable(metric: Field) {
    RawField(metric).Some? || metric.FinalStat?
  }

  /** Whether one run recorded a metric. */
  predicate ObservedIn(run: Row, metric: Field) {
    if RawField(metric).Some? then RawField(metric).value in run && !run[RawField(metric).value].Null?
    else
      && metric.FinalStat? && NestedCounts(ClientStats) in run && run[NestedCounts(ClientStats)].Stats?
      && metric.stat in run[NestedCounts(ClientStats)].stats && !run[NestedCounts(ClientStats)].stats[metric.stat].Null?
  }

  function AvailableIn(runs: seq<Row>, metric: Field): nat {
    if runs == [] then 0
    else AvailableIn(runs[..|runs| - 1], metric) + if ObservedIn(runs[|runs| - 1], metric) then 1 else 0
  }

  function CoverageIn(row: Row): map<Field, Observation> {
    if Plain(Coverage) in row && row[Plain(Coverage)].Observed? then row[Plain(Coverage)].metrics else map[]
  }

  predicate ReadableCoverage(row: Row) {
    Plain(Coverage) in row ==>
      row[Plain(Coverage)].Observed?
      && forall m :: m in row[Plain(Coverage)].metrics ==>
           0 <= row[Plain(Coverage)].metrics[m].available <= row[Plain(Coverage)].metrics[m].expected
  }

  /** A covered metric is present, and null exactly when no run observed it. */
  predicate ConsistentCoverage(row: Row) {
    forall m :: m in CoverageIn(row) ==> m in row && (row[m].Null? <==> CoverageIn(row)[m].available == 0)
  }

  predicate ValidCoverage(row: Row, current: bool) {
    (current ==> Plain(Coverage) in row) && ReadableCoverage(row) && ConsistentCoverage(row)
  }

  /** The runs behind an aggregate, in order. */
  function RunsOf(suite: Suite, runs: seq<Row>, identity: seq<string>): seq<Row> {
    Select(runs, IdentityIn(suite), identity)
  }

  predicate ExpectedMatches(row: Row) {
    && HasInteger(row, Plain(Repeats), 1)
    && forall m :: m in CoverageIn(row) ==> CoverageIn(row)[m].expected == row[Plain(Repeats)].n
  }

  predicate AvailableMatches(row: Row, own: seq<Row>) {
    && |own| == IntegerIn(row, Plain(Repeats))
    && forall m :: m in CoverageIn(row) && Observable(m) ==> CoverageIn(row)[m].available == AvailableIn(own, m)
  }

  /** One aggregate against all runs. */
  predicate RowCovered(suite: Suite, row: Row, runs: seq<Row>, current: bool) {
    && ValidCoverage(row, current)
    && (CoverageIn(row) != map[] ==>
          && ExpectedMatches(row)
          && (runs != [] ==> AvailableMatches(row, RunsOf(suite, runs, AggregateIdentity(suite, row)))))
  }

  // ---------------------------------------------------------------- what accepted coverage says

  /** The metrics that are compared with the runs: six peaks, the deltas and the client counters. */
  ghost predicate Compared(metric: Field) {
    || metric.FinalStat? || metric.DeltaMax? || metric == NullableNumber(RssMbMax)
    || (metric.NullableCount?
        && metric.nullableCount in {ThreadsMax, FdsMax, PeakActiveRequestsMax, PeakPendingRequestsMax,
                                    PeakBufferedResponseBytesMax})
  }

  /** The runs behind an identity, by position, and those among them that recorded a metric. */
  ghost function Behind(suite: Suite, runs: seq<Row>, identity: seq<string>): set<nat> {
    Positions(runs, IdentityIn(suite), identity, run => true)
  }

  ghost function Recording(suite: Suite, runs: seq<Row>, identity: seq<string>, metric: Field): set<nat> {
    Positions(runs, IdentityIn(suite), identity, run => ObservedIn(run, metric))
  }

  lemma {:induction false} AvailableTallied(runs: seq<Row>, metric: Field)
    ensures AvailableIn(runs, metric) == Tally(runs, run => ObservedIn(run, metric))
  {
    if runs != [] { AvailableTallied(runs[..|runs| - 1], metric); }
  }

  lemma RunsCounted(suite: Suite, runs: seq<Row>, identity: seq<string>, metric: Field)
    ensures |RunsOf(suite, runs, identity)| == |Behind(suite, runs, identity)|
    ensures AvailableIn(RunsOf(suite, runs, identity), metric) == |Recording(suite, runs, identity, metric)|
  {
    var own := RunsOf(suite, runs, identity);
    TallyAll(own);
    SelectTallies(runs, IdentityIn(suite), identity, (run: Row) => true);
    AvailableTallied(own, metric);
    SelectTallies(runs, IdentityIn(suite), identity, (run: Row) => ObservedIn(run, metric));
  }

  /**
   An accepted metric tells the truth about the runs: it expects as many observations as there are runs with the row's
   identity, has as many as of these recorded it, and is null exactly when none did.
   */
  lemma CoverageTells(suite: Suite, row: Row, runs: seq<Row>, current: bool, metric: Field)
    requires RowCovered(suite, row, runs, current) && runs != [] && metric in CoverageIn(row)
    ensures var o, identity := CoverageIn(row)[metric], AggregateIdentity(suite, row);
      && metric in row && o.expected == |Behind(suite, runs, identity)| >= 1
      && (Compared(metric) ==> o.available == |Recording(suite, runs, identity, metric)|)
      && (Compared(metric) ==> (row[metric].Null? <==> Recording(suite, runs, identity, metric) == {}))
  {
    RunsCounted(suite, runs, AggregateIdentity(suite, row), metric);
    assert Compared(metric) ==> Observable(metric);
  }

  /** `validate_ordinary_resource_coverage`. */
  predicate CoverageAdmitted(suite: Suite, aggregates: seq<Row>, runs: seq<Row>, current: bool) {
    forall i :: 0 <= i < |aggregates| ==> RowCovered(suite, aggregates[i], runs, current)
  }

  method ValidateResourceCoverage(suite: Suite, aggregates: seq<Row>, runs: seq<Row>, current: bool) returns (ok: bool)
    ensures ok <==> CoverageAdmitted(suite, aggregates, runs, current)
  {
    var groups, _ := GroupBy(runs, IdentityIn(suite));
    for k := 0 to |aggregates|
      invariant forall i :: 0 <= i < k ==> RowCovered(suite, aggregates[i], runs, current)
    {
      var own := Lookup(groups, AggregateIdentity(suite, aggregates[k]));
      var covered := CheckRow(suite, aggregates[k], runs, own, current);
      if !covered { return false; }
    }
    ok := true;
  }

  method CheckRow(suite: Suite, row: Row, runs: seq<Row>, own: seq<Row>, current: bool) returns (ok: bool)
    requires own == RunsOf(suite, runs, AggregateIdentity(suite, row))
    ensures ok <==> RowCovered(suite, row, runs, current)
  {
    if !ValidCoverage(row, current) { return false; }
    if CoverageIn(row) == map[] { return true; }
    if !ExpectedMatches(row) { return false; }
    ok := runs == [] || AvailableMatches(row, own);
  }
}
