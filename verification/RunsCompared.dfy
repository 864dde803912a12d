/** From runs to verdicts: what a comparison of two reports says is said of the runs the reports were made of. */
module RunsCompared {
  import opened Common
  import opened Ordering
  import opened Grouping
  import opened Medians
  import opened ReportRows
  import opened OrdinaryRows
  import opened ResourceCoverage
  import opened RequestAggregation
  import opened RequestAdmission
  import opened BenchmarkRows
  import Comparison
  import opened ComparisonMeaning
  import Text

  // ---------------------------------------------------------------- one row

  /** The columns a comparison reads. */
  ghost predicate ReadsColumns(b: Comparison.BenchmarkRow, a: AggregateRow) {
    && b.mode == a.key.mode && Comparison.ClientOf(b) == a.key.client && b.scenario == a.key.scenario
    && b.primary == Some(a.okReqSMedian) && b.p95Ms == Some(a.p95MsMedian) && b.p99Ms == Some(a.p99MsMedian)
    && b.errorsTotal == a.errorsTotal && b.warmupErrorsTotal == a.warmupErrorsTotal
    && b.rssMb == a.rssMbMax && b.threads == a.threadsMax && b.fds == a.fdsMax
  }

  lemma KeyRead(row: Row, key: Key)
    requires BenchmarkRowOf(Requests, row).Some? && KeyCells(row, key)
    ensures var b := BenchmarkRowOf(Requests, row).value;
      b.mode == key.mode && Comparison.ClientOf(b) == key.client && b.scenario == key.scenario
  {
    LoadedIdentity(Requests, row);
  }

  lemma NumbersRead(row: Row, primary: real, p95: real, p99: real)
    requires BenchmarkRowOf(Requests, row).Some?
    requires Cell(row, Plain(OkReqSMedian), Num(primary))
    requires Cell(row, Number(P95MsMedian), Num(p95)) && Cell(row, Number(P99MsMedian), Num(p99))
    ensures var b := BenchmarkRowOf(Requests, row).value;
      b.primary == Some(primary) && b.p95Ms == Some(p95) && b.p99Ms == Some(p99)
  {
  }

  lemma ErrorsRead(row: Row, a: AggregateRow)
    requires BenchmarkRowOf(Requests, row).Some? && MapCells(row, a)
    ensures var b := BenchmarkRowOf(Requests, row).value;
      b.errorsTotal == a.errorsTotal && b.warmupErrorsTotal == a.warmupErrorsTotal
  {
  }

  lemma ResourcesRead(row: Row, a: AggregateRow)
    requires BenchmarkRowOf(Requests, row).Some?
    requires ResourceCells(row, a.rssMbMax, a.threadsMax, a.fdsMax, a.coverage, a.repeats)
    ensures var b := BenchmarkRowOf(Requests, row).value;
      b.rssMb == a.rssMbMax && b.threads == a.threadsMax && b.fds == a.fdsMax
  {
  }

  lemma NumberCellsHold(row: Row, a: AggregateRow)
    requires AggregateFields(row, a)
    ensures Cell(row, Plain(OkReqSMedian), Num(a.okReqSMedian))
    ensures Cell(row, Number(P95MsMedian), Num(a.p95MsMedian)) && Cell(row, Number(P99MsMedian), Num(a.p99MsMedian))
  {
    CellHolds(row, a, Plain(OkReqSMedian), Num(a.okReqSMedian));
    CellHolds(row, a, Number(P95MsMedian), Num(a.p95MsMedian));
    CellHolds(row, a, Number(P99MsMedian), Num(a.p99MsMedian));
  }

  lemma ColumnsRead(row: Row, a: AggregateRow)
    requires BenchmarkRowOf(Requests, row).Some? && AggregateFields(row, a)
    ensures ReadsColumns(BenchmarkRowOf(Requests, row).value, a)
  {
    KeyCellsHold(row, a);
    MapCellsHold(row, a);
    ResourceCellsHold(row, a);
    NumberCellsHold(row, a);
    KeyRead(row, a.key);
    NumbersRead(row, a.okReqSMedian, a.p95MsMedian, a.p99MsMedian);
    ErrorsRead(row, a);
    ResourcesRead(row, a);
  }

  // ---------------------------------------------------------------- what a row says of its runs

  /** The runs with one key, as a comparison sees them. */
  ghost predicate TellsRuns(b: Comparison.BenchmarkRow, items: seq<RunResult>) {
    && items != [] && b.primary.Some? && b.p95Ms.Some? && b.p99Ms.Some?
    && IsMedian(Reals(items, (r: RunResult) => r.okRequestsPerSecond), b.primary.value)
    && IsMedian(Reals(items, (r: RunResult) => r.p95Ms), b.p95Ms.value)
    && IsMedian(Reals(items, (r: RunResult) => r.p99Ms), b.p99Ms.value)
    && b.errorsTotal == SumInt(items, (r: RunResult) => r.errors)
    && b.warmupErrorsTotal == SumInt(items, (r: RunResult) => r.warmupErrors)
    && IsMaximum(Column(items, (r: RunResult) => r.peakRssMb), b.rssMb)
    && IsMaximumInt(Column(items, (r: RunResult) => r.peakThreads), b.threads)
    && IsMaximumInt(Column(items, (r: RunResult) => r.peakFds), b.fds)
  }

  /** `b` was read from the aggregate of the runs with `key`. */
  ghost predicate FromRuns(b: Comparison.BenchmarkRow, results: seq<RunResult>, key: Key) {
    && b.identity == KeyIdentity(key)
    && b.mode == key.mode && Comparison.ClientOf(b) == key.client && b.scenario == key.scenario
    && TellsRuns(b, Select(results, KeyOf, key))
  }

  lemma ColumnsTell(b: Comparison.BenchmarkRow, a: AggregateRow, key: Key, items: seq<RunResult>,
                    stdev: seq<real> -> real)
    requires ReadsColumns(b, a) && Summarises(a, key, items, stdev)
    ensures TellsRuns(b, items)
  {
  }

  /** Runs, each admitted by itself, and all those with one key alike in their number of requests. */
  ghost predicate GoodRuns(results: seq<RunResult>) {
    && (forall i :: 0 <= i < |results| ==> RunAdmitted(Requests, RunRows(results)[i]))
    && Uniform(results)
  }

  lemma RowFromRuns(results: seq<RunResult>, key: Key, stdev: seq<real> -> real)
    requires GoodRuns(results) && Select(results, KeyOf, key) != [] && forall xs :: stdev(xs) >= 0.0
    ensures var row := RowOf(AggregateOf(key, Select(results, KeyOf, key), stdev));
      BenchmarkRowOf(Requests, row).Some? && FromRuns(BenchmarkRowOf(Requests, row).value, results, key)
  {
    var items := Select(results, KeyOf, key);
    var a := AggregateOf(key, items, stdev);
    AllSound(results);
    RowStands(results, key, stdev);
    RequestAdmission.GroupOf(results, key);
    CountsSound(key, items, stdev);
    RowKeyed(a);
    ResourcesHold(key, items, stdev);
    CoverageIsValid(RowOf(a), items);
    AdmittedLoads(Requests, RowOf(a));
    LoadedIdentity(Requests, RowOf(a));
    RowFields(a);
    ColumnsRead(RowOf(a), a);
    RowSummarises(key, items, stdev);
    ColumnsTell(BenchmarkRowOf(Requests, RowOf(a)).value, a, key, items, stdev);
  }

  // ---------------------------------------------------------------- a report

  /** The rows of a report as a comparison reads them; None when one is refused. */
  function LoadedRows(suite: Suite, rows: seq<Row>): Option<seq<Comparison.BenchmarkRow>> {
    Gather(rows, (row: Row) => BenchmarkRowOf(suite, row))
  }

  /** The report of a list of runs, read for a comparison. */
  ghost function ReadReport(results: seq<RunResult>, stdev: seq<real> -> real): Option<seq<Comparison.BenchmarkRow>> {
    SortedKeys(results);
    LoadedRows(Requests, RowsOf(AggregateAll(results, SortedKeysOf(results), stdev)))
  }

  lemma RowAt(results: seq<RunResult>, stdev: seq<real> -> real, i: nat)
    requires GoodRuns(results) && i < |SortedKeysOf(results)| && forall xs :: stdev(xs) >= 0.0
    ensures AllPresent(results, SortedKeysOf(results))
    ensures var rows := RowsOf(AggregateAll(results, SortedKeysOf(results), stdev));
      && |rows| == |SortedKeysOf(results)| && BenchmarkRowOf(Requests, rows[i]).Some?
      && FromRuns(BenchmarkRowOf(Requests, rows[i]).value, results, SortedKeysOf(results)[i])
  {
    SortedKeys(results);
    AggregateAllAt(results, SortedKeysOf(results), stdev, i);
    RowFromRuns(results, SortedKeysOf(results)[i], stdev);
  }

  /** A report of good runs is read in full: one row for each key, of exactly the runs with that key. */
  lemma ReportIsRead(results: seq<RunResult>, stdev: seq<real> -> real)
    requires GoodRuns(results) && forall xs :: stdev(xs) >= 0.0
    ensures ReadReport(results, stdev).Some?
    ensures var rows, keys := ReadReport(results, stdev).value, SortedKeysOf(results);
      && |rows| == |keys| && (forall i :: 0 <= i < |rows| ==> FromRuns(rows[i], results, keys[i]))
      && Comparison.DistinctRows(rows)
  {
    var keys := SortedKeysOf(results);
    SortedKeys(results);
    AggregateAllLength(results, keys, stdev);
    var rows := RowsOf(AggregateAll(results, keys, stdev));
    forall i | 0 <= i < |rows|
      ensures BenchmarkRowOf(Requests, rows[i]).Some?
      ensures FromRuns(BenchmarkRowOf(Requests, rows[i]).value, results, keys[i])
    {
      RowAt(results, stdev, i);
    }
    AllGathered(rows, (row: Row) => BenchmarkRowOf(Requests, row));
    var read := LoadedRows(Requests, rows).value;
    DistinctKeysOfRuns(results, keys);
    forall i, j | 0 <= i < j < |read| ensures Comparison.IdentityOf(read[i]) != Comparison.IdentityOf(read[j]) {
      if KeyIdentity(keys[i]) == KeyIdentity(keys[j]) { KeyIdentityInjective(keys[i], keys[j]); }
    }
  }

  // ---------------------------------------------------------------- a comparison

  /** `c` compares the old with the new runs of one key. */
  ghost predicate ComparesRuns(
    c: Comparison.RowComparison, oldRuns: seq<RunResult>, newRuns: seq<RunResult>, focus: string, key: Key)
  {
    && key.client == focus && c.row.identity == KeyIdentity(key)
    && IsMedian(Reals(Select(oldRuns, KeyOf, key), (r: RunResult) => r.okRequestsPerSecond), c.oldPrimary)
    && IsMedian(Reals(Select(newRuns, KeyOf, key), (r: RunResult) => r.okRequestsPerSecond), c.newPrimary)
    && RatioMeans(c.primaryRatio, c.newPrimary, c.oldPrimary)
    && c.oldErrorsTotal == SumInt(Select(oldRuns, KeyOf, key), (r: RunResult) => r.errors)
    && c.newErrorsTotal == SumInt(Select(newRuns, KeyOf, key), (r: RunResult) => r.errors)
  }

  lemma PairComparesRuns(
    c: Comparison.RowComparison, o: Comparison.BenchmarkRow, n: Comparison.BenchmarkRow,
    oldRuns: seq<RunResult>, newRuns: seq<RunResult>, oldKey: Key, newKey: Key)
    requires Compares(c, o, n) && FromRuns(o, oldRuns, oldKey) && FromRuns(n, newRuns, newKey)
    ensures oldKey == newKey && ComparesRuns(c, oldRuns, newRuns, Comparison.ClientOf(o), oldKey)
  {
    KeyIdentityInjective(oldKey, newKey);
  }

  ghost predicate SomeKeyCompared(
    c: Comparison.RowComparison, oldRuns: seq<RunResult>, newRuns: seq<RunResult>, focus: string)
  {
    exists key :: ComparesRuns(c, oldRuns, newRuns, focus, key)
  }

  ghost predicate KeyCompared(
    key: Key, cs: seq<Comparison.RowComparison>, oldRuns: seq<RunResult>, newRuns: seq<RunResult>, focus: string)
  {
    exists c :: c in cs && ComparesRuns(c, oldRuns, newRuns, focus, key)
  }

  lemma KeyOfRow(results: seq<RunResult>, stdev: seq<real> -> real, b: Comparison.BenchmarkRow) returns (key: Key)
    requires GoodRuns(results) && forall xs :: stdev(xs) >= 0.0
    requires ReadReport(results, stdev).Some? && b in ReadReport(results, stdev).value
    ensures FromRuns(b, results, key)
  {
    ReportIsRead(results, stdev);
    var i :| 0 <= i < |ReadReport(results, stdev).value| && ReadReport(results, stdev).value[i] == b;
    key := SortedKeysOf(results)[i];
  }

  lemma KeyListed(results: seq<RunResult>, key: Key) returns (i: nat)
    requires Select(results, KeyOf, key) != []
    ensures i < |SortedKeysOf(results)| && SortedKeysOf(results)[i] == key
  {
    SortedKeys(results);
    SelectFacts(results, KeyOf, key);
    KeysFacts(results, KeyOf);
    var own := Select(results, KeyOf, key);
    assert own[0] in own;
    assert key in multiset(KeysOf(results, KeyOf));
    i :| 0 <= i < |SortedKeysOf(results)| && SortedKeysOf(results)[i] == key;
  }

  lemma RowOfKey(results: seq<RunResult>, stdev: seq<real> -> real, key: Key) returns (b: Comparison.BenchmarkRow)
    requires GoodRuns(results) && Select(results, KeyOf, key) != [] && forall xs :: stdev(xs) >= 0.0
    ensures ReadReport(results, stdev).Some? && b in ReadReport(results, stdev).value && FromRuns(b, results, key)
  {
    ReportIsRead(results, stdev);
    var i := KeyListed(results, key);
    b := ReadReport(results, stdev).value[i];
  }

  /** The report was read from the runs. */
  ghost predicate ReportOf(report: Comparison.Report, results: seq<RunResult>, stdev: seq<real> -> real) {
    GoodRuns(results) && ReadReport(results, stdev) == Some(report.rows)
  }

  lemma RowsDistinct(report: Comparison.Report, results: seq<RunResult>, stdev: seq<real> -> real)
    requires ReportOf(report, results, stdev) && forall xs :: stdev(xs) >= 0.0
    ensures Comparison.DistinctRows(report.rows)
  {
    ReportIsRead(results, stdev);
  }

  lemma ComparedFromRuns(
    c: Comparison.RowComparison, oldReport: Comparison.Report, newReport: Comparison.Report,
    oldRuns: seq<RunResult>, newRuns: seq<RunResult>, stdev: seq<real> -> real, focus: string)
    requires ReportOf(oldReport, oldRuns, stdev) && ReportOf(newReport, newRuns, stdev)
    requires (forall xs :: stdev(xs) >= 0.0) && OfFocus(c, oldReport.rows, newReport.rows, focus)
    ensures SomeKeyCompared(c, oldRuns, newRuns, focus)
  {
    var o, n :|
      FocusRow(o, oldReport.rows, focus) && FocusRow(n, newReport.rows, focus) && Compares(c, o, n);
    var oldKey := KeyOfRow(oldRuns, stdev, o);
    var newKey := KeyOfRow(newRuns, stdev, n);
    PairComparesRuns(c, o, n, oldRuns, newRuns, oldKey, newKey);
  }

  lemma RunsCompareKey(
    key: Key, cs: seq<Comparison.RowComparison>, oldReport: Comparison.Report, newReport: Comparison.Report,
    oldRuns: seq<RunResult>, newRuns: seq<RunResult>, stdev: seq<real> -> real, focus: string)
    requires ReportOf(oldReport, oldRuns, stdev) && ReportOf(newReport, newRuns, stdev)
    requires (forall xs :: stdev(xs) >= 0.0) && AllCompared(cs, oldReport.rows, newReport.rows, focus)
    requires key.client == focus && Select(oldRuns, KeyOf, key) != [] && Select(newRuns, KeyOf, key) != []
    ensures KeyCompared(key, cs, oldRuns, newRuns, focus)
  {
    var o := RowOfKey(oldRuns, stdev, key);
    var n := RowOfKey(newRuns, stdev, key);
    assert FocusRow(o, oldReport.rows, focus) && FocusRow(n, newReport.rows, focus) && o.identity == n.identity;
    assert ComparedIn(o, n, cs);
    var c :| c in cs && Compares(c, o, n);
    PairComparesRuns(c, o, n, oldRuns, newRuns, key, key);
  }

  /**
   From measurement to verdict. Two reports of good runs, aggregated, written, read back and compared, have one
   comparison for each key of the client that both measured, and no other. It relates the medians of exactly the old and
   the new runs with that key, new against old, and counts exactly their errors.
   */
  lemma RunsAreCompared(
    oldReport: Comparison.Report, newReport: Comparison.Report, oldRuns: seq<RunResult>, newRuns: seq<RunResult>,
    stdev: seq<real> -> real, focus: string)
    requires ReportOf(oldReport, oldRuns, stdev) && ReportOf(newReport, newRuns, stdev)
    requires forall xs :: stdev(xs) >= 0.0
    ensures Comparison.DistinctRows(oldReport.rows) && Comparison.DistinctRows(newReport.rows)
    ensures forall c :: c in SharedOf(oldReport, newReport, focus) ==> SomeKeyCompared(c, oldRuns, newRuns, focus)
    ensures forall key: Key ::
      key.client == focus && Select(oldRuns, KeyOf, key) != [] && Select(newRuns, KeyOf, key) != [] ==>
        KeyCompared(key, SharedOf(oldReport, newReport, focus), oldRuns, newRuns, focus)
  {
    var cs := SharedOf(oldReport, newReport, focus);
    RowsDistinct(oldReport, oldRuns, stdev);
    RowsDistinct(newReport, newRuns, stdev);
    SharedAllCompared(oldReport, newReport, focus);
    forall c | c in cs ensures SomeKeyCompared(c, oldRuns, newRuns, focus) {
      ComparedFromRuns(c, oldReport, newReport, oldRuns, newRuns, stdev, focus);
    }
    forall key: Key |
      key.client == focus && Select(oldRuns, KeyOf, key) != [] && Select(newRuns, KeyOf, key) != []
      ensures KeyCompared(key, cs, oldRuns, newRuns, focus)
    {
      RunsCompareKey(key, cs, oldReport, newReport, oldRuns, newRuns, stdev, focus);
    }
  }
}
