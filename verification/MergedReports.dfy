/** The merged report of isolated children: finalised, checked the way any report is, and published. */
module MergedReports {
  import opened Common
  import opened ReportRows
  import opened OrdinaryRows
  import opened ResourceCoverage
  import opened RowChanges
  import opened ReportMerge
  import ProxyRatios

  // ---------------------------------------------------------------- migrating rows that are already admitted

  lemma NothingToMigrate(suite: Suite, row: Row)
    requires ValidIdentity(suite, row) && !OperationSuite(suite)
    ensures MigrateRow(suite, row) == row
  {
  }

  lemma MigrationHarmless(suite: Suite, row: Row)
    requires OperationSuite(suite) && Migratable(row)
    ensures Harmless(suite, row, MigrateRow(suite, row), Plain(RequestLimit))
    ensures MigrateRow(suite, row) != row ==> Plain(RequestLimit) !in row
  {
  }

  ghost predicate AllMigratable(rows: seq<Row>) {
    forall i :: 0 <= i < |rows| ==> Migratable(rows[i])
  }

  /** Migrating admitted rows keeps them admitted. */
  lemma MigrationKeepsAdmitted(suite: Suite, aggregate: seq<Row>, runs: seq<Row>, current: bool)
    requires Admitted(suite, aggregate, runs, current) && AllMigratable(aggregate) && AllMigratable(runs)
    ensures Admitted(suite, MigrateAll(suite, aggregate), MigrateAll(suite, runs), current)
  {
    var rows, changed := MigrateAll(suite, aggregate), MigrateAll(suite, runs);
    if OperationSuite(suite) {
      MigrationTouches(suite, aggregate, runs, current);
      RowsStayAdmitted(suite, aggregate, runs, rows, changed, Plain(RequestLimit));
      CoverageStaysAdmitted(suite, aggregate, runs, rows, changed, Plain(RequestLimit), current);
      IdentitiesStay(suite, aggregate, rows, Plain(RequestLimit));
    } else {
      MigrationIdle(suite, aggregate, runs);
    }
  }

  lemma MigrationTouches(suite: Suite, aggregate: seq<Row>, runs: seq<Row>, current: bool)
    requires OperationSuite(suite) && AllMigratable(aggregate) && AllMigratable(runs)
    requires CoverageAdmitted(suite, aggregate, runs, current)
    ensures Touched(suite, aggregate, MigrateAll(suite, aggregate), Plain(RequestLimit))
    ensures AllHarmless(suite, runs, MigrateAll(suite, runs), Plain(RequestLimit))
  {
    forall i | 0 <= i < |aggregate|
      ensures Harmless(suite, aggregate[i], MigrateAll(suite, aggregate)[i], Plain(RequestLimit))
      ensures aggregate[i] == MigrateAll(suite, aggregate)[i] || Plain(RequestLimit) !in CoverageIn(aggregate[i])
    {
      MigrationHarmless(suite, aggregate[i]);
      assert RowCovered(suite, aggregate[i], runs, current);
    }
    forall i | 0 <= i < |runs|
      ensures Harmless(suite, runs[i], MigrateAll(suite, runs)[i], Plain(RequestLimit))
    {
      MigrationHarmless(suite, runs[i]);
    }
  }

  lemma MigrationIdle(suite: Suite, aggregate: seq<Row>, runs: seq<Row>)
    requires !OperationSuite(suite) && RowsAdmitted(suite, aggregate, runs)
    ensures MigrateAll(suite, aggregate) == aggregate && MigrateAll(suite, runs) == runs
  {
    forall i | 0 <= i < |aggregate| ensures MigrateRow(suite, aggregate[i]) == aggregate[i] {
      assert AggregateAdmitted(suite, aggregate[i]);
      NothingToMigrate(suite, aggregate[i]);
    }
    forall i | 0 <= i < |runs| ensures MigrateRow(suite, runs[i]) == runs[i] {
      assert RunAdmitted(suite, runs[i]);
      NothingToMigrate(suite, runs[i]);
    }
  }

  // ---------------------------------------------------------------- the merged report

  predicate AllCurrent(children: seq<Report>) {
    forall i :: 0 <= i < |children| ==> Current(children[i].metadata)
  }

  /** The parent names the suite; it declares the resource rules only when every child was recorded under them. */
  function MergedMetadata(suite: Suite, children: seq<Report>): Metadata {
    Metadata(Some(suite), None,
             if children != [] && AllCurrent(children) then Some(RESOURCE_METRIC_SCHEMA_VERSION) else None)
  }

  /** A merge is held to the current resource rules exactly when it has children and all of them were. */
  lemma MergedCurrentIff(suite: Suite, children: seq<Report>)
    ensures Current(MergedMetadata(suite, children))
      <==> |children| > 0 && forall c :: c in children ==> Current(c.metadata)
    ensures Merged(suite, children).metadata.suite == Some(suite)
  {
    if AllCurrent(children) {
      forall c | c in children ensures Current(c.metadata) {
        var i :| 0 <= i < |children| && children[i] == c;
      }
    }
  }

  function Merged(suite: Suite, children: seq<Report>): Report {
    Report(MergedMetadata(suite, children), Aggregates(RowsOfReports(children)), Runs(RowsOfReports(children)))
  }

  /** The published report declares the current schema version. */
  function Published(r: Report): Report {
    r.(metadata := r.metadata.(schemaVersion := Some(REPORT_SCHEMA_VERSION)))
  }

  /** A decoded child whose runs belong to its own aggregates. */
  ghost predicate DecodedChild(suite: Suite, child: Report) {
    Decode(child, suite) == Some(child) && SelfContained(suite, Child(child.aggregate, child.runs))
  }

  lemma ChildAdmitted(suite: Suite, child: Report)
    requires DecodedChild(suite, child)
    ensures Admitted(suite, child.aggregate, child.runs, Current(child.metadata))
    ensures SelfContained(suite, Child(child.aggregate, child.runs))
  {
  }

  lemma MergedAdmitted(suite: Suite, children: seq<Report>)
    requires forall i :: 0 <= i < |children| ==> DecodedChild(suite, children[i])
    requires Unique(suite, Aggregates(RowsOfReports(children)))
    ensures var m := Merged(suite, children); Admitted(suite, m.aggregate, m.runs, Current(m.metadata))
  {
    var rows := RowsOfReports(children);
    var current := seq(|children|, i requires 0 <= i < |children| => Current(children[i].metadata));
    forall i | 0 <= i < |rows|
      ensures Admitted(suite, rows[i].aggregate, rows[i].runs, current[i]) && SelfContained(suite, rows[i])
    {
      ChildAdmitted(suite, children[i]);
    }
    UniqueDisjoint(suite, rows);
    MergeMixed(suite, rows, current);
    WeakerOf(suite, rows, current, children);
  }

  /** The current rules are declared only when all children follow them. */
  lemma WeakerOf(suite: Suite, rows: seq<Child>, current: seq<bool>, children: seq<Report>)
    requires current == seq(|children|, i requires 0 <= i < |children| => Current(children[i].metadata))
    requires Admitted(suite, Aggregates(rows), Runs(rows), forall i :: 0 <= i < |current| ==> current[i])
    ensures Admitted(suite, Aggregates(rows), Runs(rows), children != [] && AllCurrent(children))
  {
    if AllCurrent(children) {
      forall i | 0 <= i < |current| ensures current[i] {
        assert Current(children[i].metadata);
      }
      if children == [] { CurrentImpliesLegacy(suite, Aggregates(rows), Runs(rows)); }
    } else {
      var k :| 0 <= k < |children| && !Current(children[k].metadata);
      assert !current[k];
    }
  }

  lemma MergedDecodes(suite: Suite, m: Report)
    requires m.metadata.suite == Some(suite) && ValidVersions(m.metadata) && m.metadata.schemaVersion.None?
    requires Admitted(suite, m.aggregate, m.runs, Current(m.metadata))
    ensures Decode(m, suite).Some? <==> AllMigratable(m.aggregate) && AllMigratable(m.runs)
  {
    if AllMigratable(m.aggregate) && AllMigratable(m.runs) {
      MigrationKeepsAdmitted(suite, m.aggregate, m.runs, Current(m.metadata));
    }
  }

  lemma PublishedDecodes(suite: Suite, m: Report)
    requires m.metadata.suite == Some(suite) && ValidVersions(m.metadata)
    requires Admitted(suite, m.aggregate, m.runs, Current(m.metadata))
    ensures Decode(Published(m), suite) == Some(Published(m))
  {
  }

  /**
   The merged report passes the decoder, which takes it for a legacy one because it declares no schema version, exactly
   when every row would survive the legacy migration. Once published it decodes, to itself.
   */
  lemma MergedDecodableIff(suite: Suite, children: seq<Report>)
    requires forall i :: 0 <= i < |children| ==> DecodedChild(suite, children[i])
    requires Unique(suite, Aggregates(RowsOfReports(children)))
    ensures var m := Merged(suite, children);
      && (Decode(m, suite).Some? <==> AllMigratable(m.aggregate) && AllMigratable(m.runs))
      && Decode(Published(m), suite) == Some(Published(m))
  {
    var m := Merged(suite, children);
    MergedAdmitted(suite, children);
    MergedDecodes(suite, m);
    PublishedDecodes(suite, m);
  }

  // ---------------------------------------------------------------- a child that decodes and cannot be merged

  /** The child with a null legacy limit added to one aggregate row. */
  function WithNullLimit(child: Report, i: nat): Report
    requires i < |child.aggregate|
  {
    child.(aggregate := child.aggregate[i := child.aggregate[i][Plain(MaxConnections) := Null]])
  }

  /** A current child with such a row still decodes, to itself; merging it alone is refused. */
  lemma NullLimitRefused(suite: Suite, child: Report, i: nat)
    requires Decode(child, suite) == Some(child) && child.metadata.schemaVersion.Some?
    requires i < |child.aggregate| && Plain(MaxConnections) !in child.aggregate[i]
    ensures var odd := WithNullLimit(child, i);
      Decode(odd, suite) == Some(odd) && Decode(Merged(suite, [odd]), suite).None?
  {
    var odd := WithNullLimit(child, i);
    NullLimitAdmitted(suite, child, i);
    OneChild(odd);
    assert odd.aggregate[i][Plain(MaxConnections)] == Null;
    assert !Migratable(odd.aggregate[i]);
  }

  lemma NullLimitAdmitted(suite: Suite, child: Report, i: nat)
    requires Admitted(suite, child.aggregate, child.runs, Current(child.metadata))
    requires i < |child.aggregate| && Plain(MaxConnections) !in child.aggregate[i]
    ensures Admitted(suite, WithNullLimit(child, i).aggregate, child.runs, Current(child.metadata))
  {
    var rows, g := WithNullLimit(child, i).aggregate, Plain(MaxConnections);
    NullLimitTouches(suite, child, i);
    RowsStayAdmitted(suite, child.aggregate, child.runs, rows, child.runs, g);
    CoverageStaysAdmitted(suite, child.aggregate, child.runs, rows, child.runs, g, Current(child.metadata));
    IdentitiesStay(suite, child.aggregate, rows, g);
  }

  lemma OneChild(child: Report)
    ensures Aggregates(RowsOfReports([child])) == child.aggregate
  {
    var rows := RowsOfReports([child]);
    assert rows[..0] == [] && Aggregates(rows[..0]) == [];
    assert Aggregates(rows) == [] + child.aggregate;
  }

  lemma LimitHarmless(suite: Suite, row: Row)
    ensures Harmless(suite, row, row[Plain(MaxConnections) := Null], Plain(MaxConnections))
    ensures Harmless(suite, row, row, Plain(MaxConnections))
  {
  }

  lemma NullLimitTouches(suite: Suite, child: Report, i: nat)
    requires CoverageAdmitted(suite, child.aggregate, child.runs, Current(child.metadata))
    requires i < |child.aggregate| && Plain(MaxConnections) !in child.aggregate[i]
    ensures Touched(suite, child.aggregate, WithNullLimit(child, i).aggregate, Plain(MaxConnections))
    ensures AllHarmless(suite, child.runs, child.runs, Plain(MaxConnections))
  {
    var rows := WithNullLimit(child, i).aggregate;
    NotNamed(suite, child.aggregate[i], child.runs, Current(child.metadata));
    forall k | 0 <= k < |rows| ensures Harmless(suite, child.aggregate[k], rows[k], Plain(MaxConnections)) {
      LimitHarmless(suite, child.aggregate[k]);
    }
    forall k | 0 <= k < |child.runs| ensures Harmless(suite, child.runs[k], child.runs[k], Plain(MaxConnections)) {
      LimitHarmless(suite, child.runs[k]);
    }
  }

  /** A column a covered row lacks is not in its coverage. */
  lemma NotNamed(suite: Suite, row: Row, runs: seq<Row>, current: bool)
    requires RowCovered(suite, row, runs, current) && Plain(MaxConnections) !in row
    ensures Plain(MaxConnections) !in CoverageIn(row)
  {
  }

  // ---------------------------------------------------------------- finalising

  /** What a suite's finaliser returns: the rows, and the metadata keys it adds. */
  datatype Finalized = Finalized(rows: seq<Row>, keys: set<string>)

  const RESERVED_KEYS: set<string> := {
    "validity", "report_schema_version", "research_provenance", "package_sources", "timing_scope",
    "resource_metric_schema_version", "run_settling"
  }

  datatype FinalRefusal =
    | RowUnidentified(index: nat)
    | FinalizerFailed
    | RowsNotUnique(offence: RowRefusal)
    | IdentitiesChanged
    | KeyConflict(keys: set<string>)

  /** The finaliser kept one row per identity, in order, and added no key that is already spoken for. */
  ghost predicate Preserves(suite: Suite, rows: seq<Row>, finalized: Finalized, keys: set<string>) {
    && Unique(suite, finalized.rows) && Identities(suite, finalized.rows) == Identities(suite, rows)
    && finalized.keys !! keys + RESERVED_KEYS
  }

  /** `finalize_merged_data`. */
  method FinalizeMergedData(suite: Suite, keys: set<string>, rows: seq<Row>, finalizer: seq<Row> -> Option<Finalized>)
    returns (r: Result<Finalized, FinalRefusal>)
    ensures r.Ok? <==>
      && (forall i :: 0 <= i < |rows| ==> HasIdentity(suite, rows[i]))
      && finalizer(rows).Some? && Preserves(suite, rows, finalizer(rows).value, keys)
    ensures r.Ok? ==> finalizer(rows) == Some(r.value)
    ensures r.Err? && r.error.KeyConflict? ==>
      finalizer(rows).Some? && r.error.keys == finalizer(rows).value.keys * (keys + RESERVED_KEYS) != {}
  {
    for k := 0 to |rows|
      invariant forall i :: 0 <= i < k ==> HasIdentity(suite, rows[i])
    {
      if !HasIdentity(suite, rows[k]) { return Err(RowUnidentified(k)); }
    }
    var result := finalizer(rows);
    if result.None? { return Err(FinalizerFailed); }
    var unique := ValidateUniqueRows(suite, result.value.rows);
    if unique.Err? { return Err(RowsNotUnique(unique.error)); }
    if Identities(suite, result.value.rows) != Identities(suite, rows) { return Err(IdentitiesChanged); }
    var conflicts := result.value.keys * (keys + RESERVED_KEYS);
    if conflicts != {} {
      ghost var key :| key in conflicts;
      assert key in result.value.keys && key in keys + RESERVED_KEYS;
      return Err(KeyConflict(conflicts));
    }
    forall key | key in result.value.keys ensures key !in keys + RESERVED_KEYS {
      assert key !in conflicts;
    }
    r := Ok(result.value);
  }

  /** `preserve_merged_report`: most suites hand the rows back. */
  function Preserving(rows: seq<Row>): Option<Finalized> {
    Some(Finalized(rows, {}))
  }

  /** Handing the rows back passes exactly when they are unique to begin with. */
  lemma PreservingPasses(suite: Suite, rows: seq<Row>, keys: set<string>)
    ensures Preserves(suite, rows, Preserving(rows).value, keys) <==> Unique(suite, rows)
  {
  }

  /** The proxy suite's finaliser: every row gets its ratio, or the whole merge is refused. */
  ghost function Ratios(rows: seq<Row>): Option<Finalized> {
    if Unique(ProxyConnect, rows) && ProxyRatios.Unambiguous(rows)
    then Some(Finalized(ProxyRatios.CompletedAll(rows), {})) else None
  }

  /** It passes exactly when it returns: it keeps identities and order, and adds no metadata. */
  lemma RatiosPass(rows: seq<Row>, keys: set<string>)
    ensures Ratios(rows).Some? ==> Preserves(ProxyConnect, rows, Ratios(rows).value, keys)
  {
    ProxyRatios.FinalizeTwice(rows);
  }

  lemma RatioObeys(row: Row, all: seq<Row>)
    requires HasNumber(row, Plain(OkReqSMedian))
    ensures Obeys(NullableNumber(DirectRatio), ProxyRatios.Completed(row, all)[NullableNumber(DirectRatio)])
  {
    MeasuredNonNegative(row);
    RatioNonNegative(ProxyRatios.Measured(row), ProxyRatios.Baseline(all, ProxyRatios.KeyOf(row)));
  }

  lemma MeasuredNonNegative(row: Row)
    requires HasNumber(row, Plain(OkReqSMedian))
    ensures ProxyRatios.Measured(row).Some? ==> ProxyRatios.Measured(row).value >= 0.0
  {
  }

  lemma RatioNonNegative(value: Option<real>, baseline: Option<real>)
    requires value.Some? ==> value.value >= 0.0
    ensures Obeys(NullableNumber(DirectRatio), ProxyRatios.Ratio(value, baseline))
  {
    if value.Some? && baseline.Some? && baseline.value > 0.0 {
      NonNegativeQuotient(value.value, baseline.value);
    }
  }

  lemma NonNegativeQuotient(a: real, b: real)
    requires a >= 0.0 && b > 0.0
    ensures a / b >= 0.0
  {
  }

  /** Completing the rows of an admitted proxy report keeps it admitted; coverage describes resources, not ratios. */
  lemma RatiosKeepAdmitted(rows: seq<Row>, runs: seq<Row>, current: bool)
    requires Admitted(ProxyConnect, rows, runs, current)
    requires forall i :: 0 <= i < |rows| ==> NullableNumber(DirectRatio) !in CoverageIn(rows[i])
    ensures Admitted(ProxyConnect, ProxyRatios.CompletedAll(rows), runs, current)
  {
    var g, completed := NullableNumber(DirectRatio), ProxyRatios.CompletedAll(rows);
    forall i | 0 <= i < |rows| ensures Harmless(ProxyConnect, rows[i], completed[i], g) {
      assert AggregateAdmitted(ProxyConnect, rows[i]);
      RatioObeys(rows[i], rows);
    }
    forall i | 0 <= i < |runs| ensures Harmless(ProxyConnect, runs[i], runs[i], g) {
      assert RunAdmitted(ProxyConnect, runs[i]);
    }
    RowsStayAdmitted(ProxyConnect, rows, runs, completed, runs, g);
    CoverageStaysAdmitted(ProxyConnect, rows, runs, completed, runs, g, current);
    IdentitiesStay(ProxyConnect, rows, completed, g);
  }

  // ---------------------------------------------------------------- writing the report

  datatype WriteRefusal = NotLoaded(load: LoadRefusal) | NotFinalized(final: FinalRefusal) | NotDecodable

  /**
   `write_isolation_report` up to the file: children are loaded and merged, the suite finalises the rows, the result is
   decoded as a check, and what is published is the result itself, not what decoding made of it.
   */
  method WriteIsolationReport(suite: Suite, children: seq<ChildResult>, load: string -> Option<Report>,
                              keys: set<string>, finalizer: seq<Row> -> Option<Finalized>, decodes: Report -> bool)
    returns (r: Result<Report, WriteRefusal>)
    requires forall report :: decodes(report) <==> Decode(report, suite).Some?
    ensures var m := Merged(suite, Loaded(children, load));
      && (r.Ok? <==>
            && AllLoad(children, load) && Unique(suite, m.aggregate)
            && finalizer(m.aggregate).Some? && Preserves(suite, m.aggregate, finalizer(m.aggregate).value, keys)
            && Decode(m.(aggregate := finalizer(m.aggregate).value.rows), suite).Some?)
      && (r.Ok? ==> r.value == Published(m.(aggregate := finalizer(m.aggregate).value.rows)))
  {
    var payloads := LoadSuccessful(suite, children, load);
    if payloads.Err? { return Err(NotLoaded(payloads.error)); }
    var aggregate, runs := MergePayloadLists(RowsOfReports(payloads.value));
    var finalized := FinalizeMergedData(suite, keys, aggregate, finalizer);
    if finalized.Err? { return Err(NotFinalized(finalized.error)); }
    var report := Report(MergedMetadata(suite, payloads.value), finalized.value.rows, runs);
    if !decodes(report) { return Err(NotDecodable); }
    r := Ok(Published(report));
  }

  /** For suites that hand their rows back, writing succeeds exactly when children are disjoint and rows migratable. */
  lemma PreservedReportWritten(suite: Suite, children: seq<Report>, keys: set<string>)
    requires forall i :: 0 <= i < |children| ==> DecodedChild(suite, children[i])
    ensures var m := Merged(suite, children);
      && (Unique(suite, m.aggregate) && Preserves(suite, m.aggregate, Preserving(m.aggregate).value, keys)
          && Decode(m, suite).Some?
          <==> Unique(suite, m.aggregate) && AllMigratable(m.aggregate) && AllMigratable(m.runs))
      && (Unique(suite, m.aggregate) ==> Decode(Published(m), suite) == Some(Published(m)))
  {
    var m := Merged(suite, children);
    PreservingPasses(suite, m.aggregate, keys);
    if Unique(suite, m.aggregate) { MergedDecodableIff(suite, children); }
  }
}
