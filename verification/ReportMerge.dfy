/** Decoding child reports, merging their rows, and the diagnostics that pair each child with its payload. */
module ReportMerge {
  import opened Common
  import opened ReportRows
  import opened Grouping
  import opened OrdinaryRows
  import opened ResourceCoverage

  // ---------------------------------------------------------------- decoding

  /** What a report's metadata says, as far as decoding reads it. */
  datatype Metadata = Metadata(suite: Option<Suite>, schemaVersion: Option<int>, resourceVersion: Option<int>)

  datatype Report = Report(metadata: Metadata, aggregate: seq<Row>, runs: seq<Row>)

  const REPORT_SCHEMA_VERSION := 1
  const RESOURCE_METRIC_SCHEMA_VERSION := 2

  /** A legacy row: `request_limit` defaults to `max_connections`, and a streaming row reads bytes. */
  function MigrateRow(suite: Suite, row: Row): Row {
    var limited :=
      if Plain(MaxConnections) in row && Plain(RequestLimit) !in row
      then row[Plain(RequestLimit) := row[Plain(MaxConnections)]] else row;
    if suite == ResponseStreaming && !Research(limited) && Plain(ReadMode) !in limited
    then limited[Plain(ReadMode) := Str("bytes")] else limited
  }

  /** The migration refuses a legacy limit that is not a count or disagrees with the current one. */
  predicate Migratable(row: Row) {
    Plain(MaxConnections) in row ==>
      && IsInteger(row[Plain(MaxConnections)], 0)
      && (Plain(RequestLimit) in row ==> row[Plain(RequestLimit)] == row[Plain(MaxConnections)])
  }

  function MigrateAll(suite: Suite, rows: seq<Row>): seq<Row> {
    seq(|rows|, i requires 0 <= i < |rows| => MigrateRow(suite, rows[i]))
  }

  /** `migrate_legacy_rows`. */
  method MigrateLegacyRows(suite: Suite, rows: seq<Row>) returns (r: Option<seq<Row>>)
    ensures r.Some? <==> forall i :: 0 <= i < |rows| ==> Migratable(rows[i])
    ensures r.Some? ==> r.value == MigrateAll(suite, rows)
  {
    var migrated: seq<Row> := [];
    for k := 0 to |rows|
      invariant |migrated| == k
      invariant forall i :: 0 <= i < k ==> Migratable(rows[i]) && migrated[i] == MigrateRow(suite, rows[i])
    {
      var row := rows[k];
      if Plain(MaxConnections) in row {
        var limit := row[Plain(MaxConnections)];
        if !IsInteger(limit, 0) { return None; }
        if Plain(RequestLimit) in row {
          if row[Plain(RequestLimit)] != limit { return None; }
        } else {
          row := row[Plain(RequestLimit) := limit];
        }
      }
      if suite == ResponseStreaming && !Research(row) && Plain(ReadMode) !in row {
        row := row[Plain(ReadMode) := Str("bytes")];
      }
      migrated := migrated + [row];
    }
    r := Some(migrated);
  }

  lemma MigrateTwice(suite: Suite, row: Row)
    requires Migratable(row)
    ensures Migratable(MigrateRow(suite, row))
    ensures MigrateRow(suite, MigrateRow(suite, row)) == MigrateRow(suite, row)
  {
  }

  lemma MigrateAllTwice(suite: Suite, rows: seq<Row>)
    requires forall i :: 0 <= i < |rows| ==> Migratable(rows[i])
    ensures forall i :: 0 <= i < |rows| ==> Migratable(MigrateAll(suite, rows)[i])
    ensures MigrateAll(suite, MigrateAll(suite, rows)) == MigrateAll(suite, rows)
  {
    forall i | 0 <= i < |rows|
      ensures Migratable(MigrateRow(suite, rows[i]))
      ensures MigrateRow(suite, MigrateRow(suite, rows[i])) == MigrateRow(suite, rows[i])
    {
      MigrateTwice(suite, rows[i]);
    }
  }

  /** The checks on the rows of a decoded ordinary report. */
  ghost predicate Admitted(suite: Suite, aggregate: seq<Row>, runs: seq<Row>, current: bool) {
    && RowsAdmitted(suite, aggregate, runs)
    && CoverageAdmitted(suite, aggregate, runs, current)
    && AllDistinct(Identities(suite, aggregate))
  }

  predicate Current(m: Metadata) {
    m.resourceVersion == Some(RESOURCE_METRIC_SCHEMA_VERSION)
  }

  predicate ValidVersions(m: Metadata) {
    && (m.schemaVersion.Some? ==> m.schemaVersion.value == REPORT_SCHEMA_VERSION)
    && (m.resourceVersion.Some? ==> m.resourceVersion.value == RESOURCE_METRIC_SCHEMA_VERSION)
  }

  function Migrated(suite: Suite, m: Metadata, rows: seq<Row>): seq<Row> {
    if m.schemaVersion.Some? then rows else MigrateAll(suite, rows)
  }

  ghost predicate Decodable(r: Report, expected: Suite) {
    && r.metadata.suite == Some(expected) && ValidVersions(r.metadata)
    && (r.metadata.schemaVersion.None? ==>
          && (forall i :: 0 <= i < |r.aggregate| ==> Migratable(r.aggregate[i]))
          && (forall i :: 0 <= i < |r.runs| ==> Migratable(r.runs[i])))
    && Admitted(expected, Migrated(expected, r.metadata, r.aggregate), Migrated(expected, r.metadata, r.runs),
                Current(r.metadata))
  }

  /** `decode_report_payload` for a report that names its suite. */
  ghost function Decode(r: Report, expected: Suite): Option<Report> {
    if !Decodable(r, expected) then None
    else Some(Report(r.metadata, Migrated(expected, r.metadata, r.aggregate), Migrated(expected, r.metadata, r.runs)))
  }

  /** Only legacy reports and those of exactly the supported versions decode. */
  lemma VersionsDecide(r: Report, suite: Suite)
    requires Decode(r, suite).Some?
    ensures r.metadata.schemaVersion in {None, Some(REPORT_SCHEMA_VERSION)}
    ensures r.metadata.resourceVersion in {None, Some(RESOURCE_METRIC_SCHEMA_VERSION)}
    ensures Decode(r, suite).value.metadata == r.metadata
  {
  }

  /** Decoding an already decoded report changes nothing. */
  lemma DecodeTwice(r: Report, suite: Suite)
    requires Decode(r, suite).Some?
    ensures Decode(Decode(r, suite).value, suite) == Decode(r, suite)
  {
    if r.metadata.schemaVersion.None? {
      MigrateAllTwice(suite, r.aggregate);
      MigrateAllTwice(suite, r.runs);
    }
  }

  // ---------------------------------------------------------------- merging

  /** The decoded rows of one child. */
  datatype Child = Child(aggregate: seq<Row>, runs: seq<Row>)

  function Aggregates(children: seq<Child>): seq<Row> {
    if children == [] then [] else Aggregates(children[..|children| - 1]) + children[|children| - 1].aggregate
  }

  function Runs(children: seq<Child>): seq<Row> {
    if children == [] then [] else Runs(children[..|children| - 1]) + children[|children| - 1].runs
  }

  method MergePayloadLists(children: seq<Child>) returns (aggregate: seq<Row>, runs: seq<Row>)
    ensures aggregate == Aggregates(children) && runs == Runs(children)
  {
    aggregate, runs := [], [];
    for k := 0 to |children|
      invariant aggregate == Aggregates(children[..k]) && runs == Runs(children[..k])
    {
      assert children[..k + 1][..k] == children[..k];
      aggregate := aggregate + children[k].aggregate;
      runs := runs + children[k].runs;
    }
    assert children[..|children|] == children;
  }

  predicate HasRow(suite: Suite, rows: seq<Row>, identity: seq<string>) {
    exists i :: 0 <= i < |rows| && AggregateIdentity(suite, rows[i]) == identity
  }

  /** A child's runs belong to its own aggregates, and each aggregate has at least one. */
  ghost predicate SelfContained(suite: Suite, c: Child) {
    && (forall k :: 0 <= k < |c.runs| ==> HasRow(suite, c.aggregate, AggregateIdentity(suite, c.runs[k])))
    && (forall i :: 0 <= i < |c.aggregate| ==> HasRow(suite, c.runs, AggregateIdentity(suite, c.aggregate[i])))
  }

  ghost predicate Disjoint(suite: Suite, a: seq<Row>, b: seq<Row>) {
    forall i, j :: 0 <= i < |a| && 0 <= j < |b| ==> AggregateIdentity(suite, a[i]) != AggregateIdentity(suite, b[j])
  }

  /** No identity occurs in two children. */
  ghost predicate DisjointChildren(suite: Suite, children: seq<Child>) {
    forall i, j :: 0 <= i < j < |children| ==> Disjoint(suite, children[i].aggregate, children[j].aggregate)
  }

  lemma RunsOfMerge(suite: Suite, a: Child, b: Child, identity: seq<string>)
    requires SelfContained(suite, a) && SelfContained(suite, b)
    requires HasRow(suite, a.aggregate, identity) && Disjoint(suite, a.aggregate, b.aggregate)
    ensures RunsOf(suite, a.runs + b.runs, identity) == RunsOf(suite, a.runs, identity)
    ensures RunsOf(suite, b.runs + a.runs, identity) == RunsOf(suite, a.runs, identity)
  {
    var key := IdentityIn(suite);
    forall x | x in b.runs ensures key(x) != identity {
      var k :| 0 <= k < |b.runs| && b.runs[k] == x;
      assert HasRow(suite, b.aggregate, AggregateIdentity(suite, b.runs[k]));
    }
    SelectNone(b.runs, key, identity);
    SelectAppend(a.runs, b.runs, key, identity);
    SelectAppend(b.runs, a.runs, key, identity);
  }

  /** A covered row stays covered when another child's runs join, before or after its own. */
  lemma StaysCovered(suite: Suite, a: Child, b: Child, row: Row, current: bool)
    requires SelfContained(suite, a) && SelfContained(suite, b) && Disjoint(suite, a.aggregate, b.aggregate)
    requires row in a.aggregate && RowCovered(suite, row, a.runs, current)
    ensures RowCovered(suite, row, a.runs + b.runs, current) && RowCovered(suite, row, b.runs + a.runs, current)
  {
    var i :| 0 <= i < |a.aggregate| && a.aggregate[i] == row;
    var identity := AggregateIdentity(suite, row);
    assert HasRow(suite, a.runs, AggregateIdentity(suite, a.aggregate[i]));
    assert a.runs != [];
    RunsOfMerge(suite, a, b, identity);
  }

  lemma HasRowAppend(suite: Suite, a: seq<Row>, b: seq<Row>, identity: seq<string>)
    ensures HasRow(suite, a, identity) || HasRow(suite, b, identity) ==> HasRow(suite, a + b, identity)
  {
    if i :| 0 <= i < |a| && AggregateIdentity(suite, a[i]) == identity {
      assert AggregateIdentity(suite, (a + b)[i]) == identity;
    } else if j :| 0 <= j < |b| && AggregateIdentity(suite, b[j]) == identity {
      assert AggregateIdentity(suite, (a + b)[|a| + j]) == identity;
    }
  }

  lemma MergedSelfContained(suite: Suite, a: Child, b: Child)
    requires SelfContained(suite, a) && SelfContained(suite, b)
    ensures SelfContained(suite, Child(a.aggregate + b.aggregate, a.runs + b.runs))
  {
    var m := Child(a.aggregate + b.aggregate, a.runs + b.runs);
    forall k | 0 <= k < |m.runs| ensures HasRow(suite, m.aggregate, AggregateIdentity(suite, m.runs[k])) {
      HasRowAppend(suite, a.aggregate, b.aggregate, AggregateIdentity(suite, m.runs[k]));
      assert k < |a.runs| ==> m.runs[k] == a.runs[k];
      assert k >= |a.runs| ==> m.runs[k] == b.runs[k - |a.runs|];
    }
    forall i | 0 <= i < |m.aggregate| ensures HasRow(suite, m.runs, AggregateIdentity(suite, m.aggregate[i])) {
      HasRowAppend(suite, a.runs, b.runs, AggregateIdentity(suite, m.aggregate[i]));
      assert i < |a.aggregate| ==> m.aggregate[i] == a.aggregate[i];
      assert i >= |a.aggregate| ==> m.aggregate[i] == b.aggregate[i - |a.aggregate|];
    }
  }

  lemma MergedRows(suite: Suite, a: Child, b: Child)
    requires RowsAdmitted(suite, a.aggregate, a.runs) && RowsAdmitted(suite, b.aggregate, b.runs)
    ensures RowsAdmitted(suite, a.aggregate + b.aggregate, a.runs + b.runs)
  {
  }

  lemma MergedDistinct(suite: Suite, a: seq<Row>, b: seq<Row>)
    requires AllDistinct(Identities(suite, a)) && AllDistinct(Identities(suite, b)) && Disjoint(suite, a, b)
    ensures AllDistinct(Identities(suite, a + b))
  {
    assert Identities(suite, a + b) == Identities(suite, a) + Identities(suite, b);
  }

  lemma MergedCoverage(suite: Suite, a: Child, b: Child, current: bool)
    requires SelfContained(suite, a) && SelfContained(suite, b) && Disjoint(suite, a.aggregate, b.aggregate)
    requires CoverageAdmitted(suite, a.aggregate, a.runs, current)
    requires CoverageAdmitted(suite, b.aggregate, b.runs, current)
    ensures CoverageAdmitted(suite, a.aggregate + b.aggregate, a.runs + b.runs, current)
  {
    var rows := a.aggregate + b.aggregate;
    forall i | 0 <= i < |rows| ensures RowCovered(suite, rows[i], a.runs + b.runs, current) {
      if i < |a.aggregate| {
        assert rows[i] == a.aggregate[i];
        StaysCovered(suite, a, b, rows[i], current);
      } else {
        assert rows[i] == b.aggregate[i - |a.aggregate|];
        StaysCovered(suite, b, a, rows[i], current);
      }
    }
  }

  lemma {:induction false} DisjointFromLast(suite: Suite, children: seq<Child>, last: Child)
    requires forall i :: 0 <= i < |children| ==> Disjoint(suite, children[i].aggregate, last.aggregate)
    ensures Disjoint(suite, Aggregates(children), last.aggregate)
  {
    if children != [] { DisjointFromLast(suite, children[..|children| - 1], last); }
  }

  /** An older child is only asked for less: what passes the current checks passes the legacy ones. */
  lemma CurrentImpliesLegacy(suite: Suite, aggregate: seq<Row>, runs: seq<Row>)
    requires CoverageAdmitted(suite, aggregate, runs, true)
    ensures CoverageAdmitted(suite, aggregate, runs, false)
  {
    forall i | 0 <= i < |aggregate| ensures RowCovered(suite, aggregate[i], runs, false) {
      assert RowCovered(suite, aggregate[i], runs, true);
    }
  }

  /**
   Merging preserves admission: if each child's rows are admitted and its runs cover exactly its own aggregates, and no
   identity occurs in two children, then the concatenated rows are admitted, under the current rules if every child
   was decoded under them.
   */
  lemma {:induction false} MergeAdmitted(suite: Suite, children: seq<Child>, current: bool)
    requires forall i :: 0 <= i < |children| ==>
      Admitted(suite, children[i].aggregate, children[i].runs, current) && SelfContained(suite, children[i])
    requires DisjointChildren(suite, children)
    ensures Admitted(suite, Aggregates(children), Runs(children), current)
    ensures SelfContained(suite, Child(Aggregates(children), Runs(children)))
  {
    if children != [] {
      var init, last := children[..|children| - 1], children[|children| - 1];
      MergeAdmitted(suite, init, current);
      DisjointFromLast(suite, init, last);
      MergeTwo(suite, Child(Aggregates(init), Runs(init)), last, current);
    }
  }

  lemma MergeTwo(suite: Suite, a: Child, b: Child, current: bool)
    requires Admitted(suite, a.aggregate, a.runs, current) && Admitted(suite, b.aggregate, b.runs, current)
    requires SelfContained(suite, a) && SelfContained(suite, b) && Disjoint(suite, a.aggregate, b.aggregate)
    ensures Admitted(suite, a.aggregate + b.aggregate, a.runs + b.runs, current)
    ensures SelfContained(suite, Child(a.aggregate + b.aggregate, a.runs + b.runs))
  {
    MergedRows(suite, a, b);
    MergedCoverage(suite, a, b, current);
    MergedDistinct(suite, a.aggregate, b.aggregate);
    MergedSelfContained(suite, a, b);
  }

  lemma WeakenAdmitted(suite: Suite, c: Child, current: bool)
    requires Admitted(suite, c.aggregate, c.runs, current)
    ensures Admitted(suite, c.aggregate, c.runs, false)
  {
    if current { CurrentImpliesLegacy(suite, c.aggregate, c.runs); }
  }

  /** Children of different ages: the merged report is current exactly when all of them are. */
  lemma MergeMixed(suite: Suite, children: seq<Child>, current: seq<bool>)
    requires |current| == |children|
    requires forall i :: 0 <= i < |children| ==>
      Admitted(suite, children[i].aggregate, children[i].runs, current[i]) && SelfContained(suite, children[i])
    requires DisjointChildren(suite, children)
    ensures Admitted(suite, Aggregates(children), Runs(children), forall i :: 0 <= i < |current| ==> current[i])
  {
    if forall i :: 0 <= i < |current| ==> current[i] {
      MergeAdmitted(suite, children, true);
    } else {
      forall i | 0 <= i < |children|
        ensures Admitted(suite, children[i].aggregate, children[i].runs, false)
      {
        WeakenAdmitted(suite, children[i], current[i]);
      }
      MergeAdmitted(suite, children, false);
    }
  }

  // ---------------------------------------------------------------- diagnostics

  datatype ChildResult = ChildResult(returnCode: int, reportPath: Option<string>)

  predicate Successful(c: ChildResult) {
    c.returnCode == 0 && c.reportPath.Some?
  }

  function Successes(children: seq<ChildResult>): nat {
    if children == [] then 0
    else Successes(children[..|children| - 1]) + if Successful(children[|children| - 1]) then 1 else 0
  }

  /** The decoded reports of the successful children, in order. */
  function Loaded(children: seq<ChildResult>, load: string -> Option<Report>): seq<Report> {
    if children == [] then []
    else
      var before, last := Loaded(children[..|children| - 1], load), children[|children| - 1];
      if Successful(last) && load(last.reportPath.value).Some? then before + [load(last.reportPath.value).value]
      else before
  }

  ghost predicate AllLoad(children: seq<ChildResult>, load: string -> Option<Report>) {
    forall i :: 0 <= i < |children| && Successful(children[i]) ==> load(children[i].reportPath.value).Some?
  }

  function RowsOfReports(reports: seq<Report>): seq<Child> {
    seq(|reports|, i requires 0 <= i < |reports| => Child(reports[i].aggregate, reports[i].runs))
  }

  datatype LoadRefusal = Unloadable(child: nat) | NotUnique(offence: RowRefusal)

  /** The first child that does not load, or the first offending row of those that all did. */
  ghost predicate LoadRefused(
    suite: Suite, children: seq<ChildResult>, load: string -> Option<Report>, refusal: LoadRefusal)
  {
    match refusal
    case Unloadable(k) =>
      && k < |children| && Successful(children[k]) && load(children[k].reportPath.value).None?
      && AllLoad(children[..k], load)
    case NotUnique(offence) =>
      AllLoad(children, load) && FirstOffence(suite, Aggregates(RowsOfReports(Loaded(children, load))), offence)
  }

  /**
   `load_successful_child_payloads`: one decoded report per successful child, from its own path, in order; then every
   aggregate row of all children together must have an identity of its own.
   */
  method LoadSuccessful(suite: Suite, children: seq<ChildResult>, load: string -> Option<Report>)
    returns (r: Result<seq<Report>, LoadRefusal>)
    ensures r.Ok? <==>
      AllLoad(children, load) && Unique(suite, Aggregates(RowsOfReports(Loaded(children, load))))
    ensures r.Ok? ==> r.value == Loaded(children, load)
    ensures r.Err? ==> LoadRefused(suite, children, load, r.error)
  {
    var payloads: seq<Report>, rows: seq<Row> := [], [];
    for k := 0 to |children|
      invariant AllLoad(children[..k], load) && payloads == Loaded(children[..k], load)
      invariant rows == Aggregates(RowsOfReports(payloads))
    {
      assert children[..k + 1][..k] == children[..k];
      if Successful(children[k]) {
        var report := load(children[k].reportPath.value);
        if report.None? { return Err(Unloadable(k)); }
        AggregatesSnoc(payloads, report.value);
        payloads := payloads + [report.value];
        rows := rows + report.value.aggregate;
      }
    }
    assert children[..|children|] == children;
    var unique := ValidateUniqueRows(suite, rows);
    r := if unique.Err? then Err(NotUnique(unique.error)) else Ok(payloads);
  }

  lemma AggregatesSnoc(reports: seq<Report>, last: Report)
    ensures Aggregates(RowsOfReports(reports + [last])) == Aggregates(RowsOfReports(reports)) + last.aggregate
  {
    var all := RowsOfReports(reports + [last]);
    assert all[..|all| - 1] == RowsOfReports(reports);
  }

  /** Each successful child's report is at the number of successes before it. */
  lemma {:induction false} LoadedAt(children: seq<ChildResult>, load: string -> Option<Report>)
    requires AllLoad(children, load)
    ensures |Loaded(children, load)| == Successes(children)
    ensures forall i :: 0 <= i < |children| && Successful(children[i]) ==>
      && Successes(children[..i]) < |Loaded(children, load)|
      && Loaded(children, load)[Successes(children[..i])] == load(children[i].reportPath.value).value
  {
    if children != [] {
      var init := children[..|children| - 1];
      LoadedAt(init, load);
      forall i | 0 <= i < |children| ensures i < |init| ==> init[..i] == children[..i] {
      }
    }
  }

  /** The closing check rules out an identity in two children. */
  lemma {:induction false} UniqueDisjoint(suite: Suite, children: seq<Child>)
    requires Unique(suite, Aggregates(children))
    ensures DisjointChildren(suite, children)
  {
    if children != [] {
      var init, last := children[..|children| - 1], children[|children| - 1];
      UniqueParts(suite, Aggregates(init), last.aggregate);
      UniqueDisjoint(suite, init);
      forall i | 0 <= i < |init| ensures Disjoint(suite, init[i].aggregate, last.aggregate) {
        PartOfAggregates(suite, init, i, last.aggregate);
      }
      DisjointSnoc(suite, init, last);
      assert children == init + [last];
    }
  }

  lemma DisjointSnoc(suite: Suite, children: seq<Child>, last: Child)
    requires DisjointChildren(suite, children)
    requires forall i :: 0 <= i < |children| ==> Disjoint(suite, children[i].aggregate, last.aggregate)
    ensures DisjointChildren(suite, children + [last])
  {
    var all := children + [last];
    forall i, j | 0 <= i < j < |all| ensures Disjoint(suite, all[i].aggregate, all[j].aggregate) {
      assert all[i] == children[i];
    }
  }

  lemma DistinctParts(a: seq<seq<string>>, b: seq<seq<string>>)
    requires AllDistinct(a + b)
    ensures AllDistinct(a) && AllDistinct(b)
    ensures forall i, j :: 0 <= i < |a| && 0 <= j < |b| ==> a[i] != b[j]
  {
    var all := a + b;
    assert forall i :: 0 <= i < |a| ==> all[i] == a[i];
    forall i, j | 0 <= i < j < |b| ensures b[i] != b[j] {
      assert all[|a| + i] == b[i] && all[|a| + j] == b[j];
    }
    forall i, j | 0 <= i < |a| && 0 <= j < |b| ensures a[i] != b[j] {
      assert all[i] == a[i] && all[|a| + j] == b[j];
    }
  }

  lemma UniqueParts(suite: Suite, a: seq<Row>, b: seq<Row>)
    requires Unique(suite, a + b)
    ensures Unique(suite, a) && Unique(suite, b) && Disjoint(suite, a, b)
  {
    assert Identities(suite, a + b) == Identities(suite, a) + Identities(suite, b);
    DistinctParts(Identities(suite, a), Identities(suite, b));
    forall i | 0 <= i < |a| ensures HasIdentity(suite, a[i]) { assert (a + b)[i] == a[i]; }
    forall j | 0 <= j < |b| ensures HasIdentity(suite, b[j]) { assert (a + b)[|a| + j] == b[j]; }
    DisjointRows(suite, a, b);
  }

  lemma DisjointRows(suite: Suite, a: seq<Row>, b: seq<Row>)
    requires forall i, j :: 0 <= i < |a| && 0 <= j < |b| ==> Identities(suite, a)[i] != Identities(suite, b)[j]
    ensures Disjoint(suite, a, b)
  {
    forall i, j | 0 <= i < |a| && 0 <= j < |b|
      ensures AggregateIdentity(suite, a[i]) != AggregateIdentity(suite, b[j])
    {
      assert Identities(suite, a)[i] != Identities(suite, b)[j];
    }
  }

  lemma {:induction false} PartOfAggregates(suite: Suite, children: seq<Child>, i: nat, rows: seq<Row>)
    requires i < |children| && Disjoint(suite, Aggregates(children), rows)
    ensures Disjoint(suite, children[i].aggregate, rows)
  {
    var init, last := children[..|children| - 1], children[|children| - 1];
    var all := Aggregates(children);
    if i < |init| {
      forall k, j | 0 <= k < |Aggregates(init)| && 0 <= j < |rows|
        ensures AggregateIdentity(suite, Aggregates(init)[k]) != AggregateIdentity(suite, rows[j])
      {
        assert all[k] == Aggregates(init)[k];
      }
      PartOfAggregates(suite, init, i, rows);
    } else {
      forall k, j | 0 <= k < |last.aggregate| && 0 <= j < |rows|
        ensures AggregateIdentity(suite, last.aggregate[k]) != AggregateIdentity(suite, rows[j])
      {
        assert all[|Aggregates(init)| + k] == last.aggregate[k];
      }
    }
  }

  datatype Diagnostic<P> = Diagnostic(result: ChildResult, payload: Option<P>)

  lemma {:induction false} SuccessesBefore(children: seq<ChildResult>, k: nat)
    requires k < |children| && Successful(children[k])
    ensures Successes(children[..k]) < Successes(children)
  {
    if k < |children| - 1 {
      SuccessesBefore(children[..|children| - 1], k);
      assert children[..|children| - 1][..k] == children[..k];
    }
  }

  /**
   `child_diagnostics`: with one payload per successful child the iterator never runs out, and each successful child
   is annotated from its own payload.
   */
  method ChildDiagnostics<P>(children: seq<ChildResult>, payloads: seq<P>) returns (diagnostics: seq<Diagnostic<P>>)
    requires |payloads| == Successes(children)
    ensures |diagnostics| == |children|
    ensures forall i :: 0 <= i < |children| ==>
      && diagnostics[i].result == children[i]
      && (diagnostics[i].payload.Some? <==> Successful(children[i]))
      && (Successful(children[i]) ==>
            Successes(children[..i]) < |payloads| && diagnostics[i].payload.value == payloads[Successes(children[..i])])
  {
    diagnostics := [];
    var next := 0;
    for k := 0 to |children|
      invariant |diagnostics| == k && next == Successes(children[..k])
      invariant forall i :: 0 <= i < k ==>
        && diagnostics[i].result == children[i]
        && (diagnostics[i].payload.Some? <==> Successful(children[i]))
        && (Successful(children[i]) ==>
              && Successes(children[..i]) < |payloads|
              && diagnostics[i].payload.value == payloads[Successes(children[..i])])
    {
      assert children[..k + 1][..k] == children[..k];
      var payload: Option<P> := None;
      if Successful(children[k]) {
        SuccessesBefore(children, k);
        payload := Some(payloads[next]);
        next := next + 1;
      }
      diagnostics := diagnostics + [Diagnostic(children[k], payload)];
    }
  }

  /** Loading and annotating together: every successful child ends up with the report of its own path. */
  method LoadAndAnnotate(suite: Suite, children: seq<ChildResult>, load: string -> Option<Report>)
    returns (r: Result<seq<Diagnostic<Report>>, LoadRefusal>)
    ensures r.Ok? <==>
      AllLoad(children, load) && Unique(suite, Aggregates(RowsOfReports(Loaded(children, load))))
    ensures r.Ok? ==> |r.value| == |children|
    ensures r.Ok? ==> forall i :: 0 <= i < |children| ==>
      && r.value[i].result == children[i]
      && r.value[i].payload == if Successful(children[i]) then load(children[i].reportPath.value) else None
  {
    var payloads := LoadSuccessful(suite, children, load);
    if payloads.Err? { return Err(payloads.error); }
    LoadedAt(children, load);
    var diagnostics := ChildDiagnostics(children, payloads.value);
    r := Ok(diagnostics);
  }
}
