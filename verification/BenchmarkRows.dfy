/** Reading aggregate rows back for a comparison, and what a comparison thereby sees of the runs behind them. */
module BenchmarkRows {
  import opened Common
  import opened Ordering
  import opened Grouping
  import opened Medians
  import opened ReportRows
  import opened OrdinaryRows
  import opened ResourceCoverage
  import opened RequestAggregation
  import RequestAdmission
  import Comparison
  import Text

  // ---------------------------------------------------------------- labels

  /** A piece of a row's label: a string, a string with a default, an integer, or an integer that may be missing. */
  datatype Part =
    | Named(f: Field)
    | Defaulted(f: Field, default: string)
    | Numbered(prefix: string, f: Field)
    | Limit(prefix: string, f: Field)

  const CONCURRENCY := Numbered("conc=", Plain(Concurrency))

  function LabelOf(suite: Suite): seq<Part> {
    [Named(Plain(Mode)), Named(Plain(Client))] +
    match suite
    case Requests => [Named(Plain(Scenario)), CONCURRENCY, Numbered("limit=", Plain(RequestLimit))]
    case CompressedResponse => [Named(Plain(Scenario)), CONCURRENCY, Numbered("limit=", Plain(RequestLimit))]
    case ClientCreation =>
      [Named(Plain(Scenario)), Numbered("clients=", Plain(ClientCount)), Numbered("iters=", Plain(Iterations))]
    case ResourceBackpressure =>
      [Named(Plain(Scenario)), CONCURRENCY, Numbered("active=", Plain(RequestLimit)),
       Limit("origin=", Plain(PerOriginRequestLimit)), Numbered("pending=", Plain(MaxPendingRequests))]
    case OneUpstream =>
      [Named(Plain(PlainColumn.Group)), Named(Plain(Case)), Named(Plain(Profile)), CONCURRENCY]
    case RequestBuilder =>
      [Named(Plain(Kind)), Named(Plain(PlainColumn.Group)), Named(Plain(Case)), Named(Plain(Profile))]
    case ResponseStreaming =>
      [Named(Plain(Case)), Defaulted(Plain(ReadMode), "bytes"), Named(Plain(Consume)), CONCURRENCY,
       Numbered("limit=", Plain(RequestLimit))]
    case ProxyConnect =>
      [Named(Plain(Case)), Named(Plain(TargetScheme)), Named(Plain(ProxyConfig)), Named(Plain(Lifecycle)), CONCURRENCY,
       Numbered("limit=", Plain(RequestLimit))]
  }

  predicate Missing(row: Row, f: Field) {
    f !in row || row[f].Null?
  }

  predicate Readable(row: Row, p: Part) {
    match p
    case Named(f) => IsString(row, f)
    case Defaulted(f, _) => f !in row || IsString(row, f)
    case Numbered(_, f) => HasInteger(row, f, 0)
    case Limit(_, f) => Missing(row, f) || HasInteger(row, f, 0)
  }

  function Printed(row: Row, p: Part): string
    requires Readable(row, p)
  {
    match p
    case Named(f) => row[f].s
    case Defaulted(f, default) => if f in row then row[f].s else default
    case Numbered(prefix, f) => prefix + Text.IntText(row[f].n)
    case Limit(prefix, f) => prefix + if Missing(row, f) then "-" else Text.IntText(row[f].n)
  }

  function Label(row: Row, parts: seq<Part>): string
    requires forall p :: p in parts ==> Readable(row, p)
  {
    if parts == [] then ""
    else if |parts| == 1 then Printed(row, parts[0])
    else Printed(row, parts[0]) + " / " + Label(row, parts[1..])
  }

  // ---------------------------------------------------------------- columns

  function ScenarioColumn(suite: Suite): Field {
    match suite
    case Requests => Plain(Scenario)
    case CompressedResponse => Plain(Scenario)
    case ClientCreation => Plain(Scenario)
    case ResourceBackpressure => Plain(Scenario)
    case _ => Plain(Case)
  }

  function RssColumn(suite: Suite): Field {
    if suite == ClientCreation then DeltaMax(Peak, Rss) else NullableNumber(RssMbMax)
  }

  function ThreadsColumn(suite: Suite): Field {
    if suite == ClientCreation then DeltaMax(Peak, Threads) else NullableCount(ThreadsMax)
  }

  function FdsColumn(suite: Suite): Field {
    if suite == ClientCreation then DeltaMax(Peak, Fds) else NullableCount(FdsMax)
  }

  predicate OptionalNumber(row: Row, f: Field, atLeast: Option<real>) {
    Missing(row, f) || IsNumber(row[f], atLeast)
  }

  /** An integer, or a number that is one. */
  predicate OptionalWhole(row: Row, f: Field) {
    Missing(row, f) || row[f].Int? || (row[f].Num? && row[f].x == row[f].x.Floor as real)
  }

  function NumberIn(row: Row, f: Field): Option<real> {
    if Missing(row, f) then None else NumberOf(row[f])
  }

  function WholeIn(row: Row, f: Field): Option<int> {
    if Missing(row, f) then None
    else if row[f].Int? then Some(row[f].n)
    else if row[f].Num? then Some(row[f].x.Floor)
    else None
  }

  /** The values a comparison reads have the types it expects. */
  predicate ReadableNumbers(suite: Suite, row: Row) {
    && HasNumber(row, AggregatePrimary(suite))
    && OptionalNumber(row, Number(P95MsMedian), Some(0.0)) && OptionalNumber(row, Number(P99MsMedian), Some(0.0))
    && HasInteger(row, Plain(ErrorsTotal), 0)
    && (!OperationSuite(suite) ==>
          HasInteger(row, Plain(WarmupErrorsTotal), 0) && OptionalNumber(row, Plain(ErrorRatePercent), Some(0.0)))
  }

  predicate ReadableResources(suite: Suite, row: Row) {
    && OptionalNumber(row, RssColumn(suite), None)
    && OptionalWhole(row, ThreadsColumn(suite)) && OptionalWhole(row, FdsColumn(suite))
    && ReadableCoverage(row)
  }

  predicate Loadable(suite: Suite, row: Row) {
    && HasIdentity(suite, row)
    && (forall p :: p in LabelOf(suite) ==> Readable(row, p))
    && ReadableNumbers(suite, row) && ReadableResources(suite, row)
  }

  /** `benchmark_row`; None stands for the rows it refuses. */
  function BenchmarkRowOf(suite: Suite, row: Row): Option<Comparison.BenchmarkRow> {
    if !Loadable(suite, row) then None
    else
      assert Named(Plain(Mode)) == LabelOf(suite)[0];
      Some(Comparison.BenchmarkRow(
             AggregateIdentity(suite, row), Label(row, LabelOf(suite)), row[Plain(Mode)].s,
             TextIn(row, ScenarioColumn(suite)),
             NumberIn(row, AggregatePrimary(suite)),
             NumberIn(row, Number(P95MsMedian)), NumberIn(row, Number(P99MsMedian)),
             row[Plain(ErrorsTotal)].n, if OperationSuite(suite) then 0 else row[Plain(WarmupErrorsTotal)].n,
             NumberIn(row, RssColumn(suite)), WholeIn(row, ThreadsColumn(suite)), WholeIn(row, FdsColumn(suite))))
  }

  function TextIn(row: Row, f: Field): string {
    if f in row && row[f].Str? then row[f].s else ""
  }

  // ---------------------------------------------------------------- what is admitted can be compared

  lemma AdmittedPart(suite: Suite, row: Row, p: Part)
    requires ValidIdentity(suite, row) && p in LabelOf(suite)
    ensures Readable(row, p)
  {
  }

  lemma AdmittedNumbers(suite: Suite, row: Row)
    requires ValidAggregate(suite, row) && ValidOptionalFields(row)
    ensures ReadableNumbers(suite, row)
  {
    assert Number(P95MsMedian) in row ==> Obeys(Number(P95MsMedian), row[Number(P95MsMedian)]);
    assert Number(P99MsMedian) in row ==> Obeys(Number(P99MsMedian), row[Number(P99MsMedian)]);
  }

  lemma AdmittedResources(suite: Suite, row: Row)
    requires ValidOptionalFields(row) && ReadableCoverage(row)
    ensures ReadableResources(suite, row)
  {
    assert RssColumn(suite) in row ==> Obeys(RssColumn(suite), row[RssColumn(suite)]);
    assert ThreadsColumn(suite) in row ==> Obeys(ThreadsColumn(suite), row[ThreadsColumn(suite)]);
    assert FdsColumn(suite) in row ==> Obeys(FdsColumn(suite), row[FdsColumn(suite)]);
  }

  /** A row that passed the row and coverage checks of its suite is never refused by a comparison. */
  lemma AdmittedLoads(suite: Suite, row: Row)
    requires AggregateAdmitted(suite, row) && HasIdentity(suite, row) && ReadableCoverage(row)
    ensures BenchmarkRowOf(suite, row).Some?
  {
    forall p | p in LabelOf(suite) ensures Readable(row, p) {
      AdmittedPart(suite, row, p);
    }
    AdmittedNumbers(suite, row);
    AdmittedResources(suite, row);
  }

  /** Its group and client are those of its identity, and its client is the row's own. */
  lemma LoadedIdentity(suite: Suite, row: Row)
    requires BenchmarkRowOf(suite, row).Some?
    ensures var b := BenchmarkRowOf(suite, row).value;
      && b.identity == AggregateIdentity(suite, row) && |b.identity| >= 2
      && row[Plain(Mode)] == Str(b.mode) && row[Plain(Client)] == Str(Comparison.ClientOf(b))
      && Comparison.GroupOf(b) == ComparisonGroup(AggregateIdentity(suite, row))
      && b.primary.Some? && b.primary.value >= 0.0
  {
  }
}
