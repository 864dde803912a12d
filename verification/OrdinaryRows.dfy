/** The structural checks every ordinary report row passes before it is published, merged or compared. */
module OrdinaryRows {
  import opened Common
  import opened MapSums
  import opened ReportRows
  import Text

  function AggregatePrimary(suite: Suite): Field {
    match suite
    case ClientCreation => Plain(OpsSMedian)
    case RequestBuilder => Plain(OpsSMedian)
    case ResourceBackpressure => Count(OkRequestsTotal)
    case ResponseStreaming => Plain(OkStreamsSMedian)
    case _ => Plain(OkReqSMedian)
  }

  function RunPrimary(suite: Suite): Field {
    match suite
    case ClientCreation => Plain(OperationsPerSecond)
    case RequestBuilder => Plain(OperationsPerSecond)
    case ResourceBackpressure => Count(OkRequests)
    case ResponseStreaming => Plain(OkStreamsPerSecond)
    case _ => Plain(OkRequestsPerSecond)
  }

  predicate OperationSuite(suite: Suite) {
    suite == ClientCreation || suite == RequestBuilder
  }

  /** The column that must complement the errors of an aggregate. */
  function SuccessTotal(suite: Suite): Option<Field> {
    match suite
    case ResourceBackpressure => Some(Count(OkRequestsTotal))
    case OneUpstream => Some(Count(OkRequestsTotal))
    case ProxyConnect => Some(Count(OkRequestsTotal))
    case ResponseStreaming => Some(Count(OkStreamsTotal))
    case _ => None
  }

  /** The values a named column is restricted to, if it is. */
  function Choices(f: Field): set<string> {
    match f
    case Plain(c) =>
      if c == Mode then {"async", "sync"}
      else if c == ReadMode then {"bytes", "text", "lines"}
      else if c == Consume then {"all", "first-chunk", "first-line"}
      else if c == Kind then {"build", "send-prepared"}
      else if c == TargetScheme then {"http", "https"}
      else if c == ProxyConfig then {"direct", "explicit", "trust-env"}
      else if c == Lifecycle then {"reused-client", "cold-client"}
      else {}
    case _ => {}
  }

  predicate Allowed(f: Field, value: string) {
    Choices(f) == {} || value in Choices(f)
  }

  predicate NamedField(row: Row, f: Field) {
    IsString(row, f) && Allowed(f, row[f].s)
  }

  /** The string fields a suite requires besides mode and client. */
  predicate NamedFields(suite: Suite, row: Row) {
    match suite
    case OneUpstream => NamedField(row, Plain(Case)) && NamedField(row, Plain(Group)) && NamedField(row, Plain(Profile))
    case RequestBuilder =>
      && NamedField(row, Plain(Case)) && NamedField(row, Plain(Group)) && NamedField(row, Plain(Kind))
      && NamedField(row, Plain(Profile))
    case ResponseStreaming =>
      NamedField(row, Plain(Case)) && NamedField(row, Plain(ReadMode)) && NamedField(row, Plain(Consume))
    case ProxyConnect =>
      && NamedField(row, Plain(Case)) && NamedField(row, Plain(Group)) && NamedField(row, Plain(TargetScheme))
      && NamedField(row, Plain(ProxyConfig)) && NamedField(row, Plain(Lifecycle))
    case _ => NamedField(row, Plain(Scenario))
  }

  predicate NullableInteger(row: Row, f: Field) {
    f in row && (row[f].Null? || IsInteger(row[f], 0))
  }

  predicate ValidIdentity(suite: Suite, row: Row) {
    && NamedField(row, Plain(Mode)) && NamedField(row, Plain(Client))
    && NamedFields(suite, row)
    && (if OperationSuite(suite)
        then
          HasInteger(row, Plain(Iterations), 1) && (suite == ClientCreation ==> HasInteger(row, Plain(ClientCount), 1))
        else HasInteger(row, Plain(Concurrency), 1) && HasInteger(row, Plain(RequestLimit), 0))
    && (suite == ResourceBackpressure ==>
          && HasInteger(row, Plain(MaxPendingRequests), 0)
          && NullableInteger(row, Plain(PerOriginRequestLimit))
          && NullableInteger(row, NullableCount(MaxBufferedResponseBytes)))
  }

  // ---------------------------------------------------------------- error counts

  const CREATE_FIRST_REQUEST := "create-first-request"
  const REUSED_REQUEST := "reused-request"
  const MANY_CLIENTS := "many-clients-open-close"

  /** How many error events one operation run can record; none when a many-clients row contradicts itself. */
  function OperationErrorLimit(suite: Suite, row: Row): Option<int> {
    var iterations := IntegerIn(row, Plain(Iterations));
    if !HasInteger(row, Plain(Iterations), 1) then None
    else if suite == ClientCreation && Plain(Scenario) in row && row[Plain(Scenario)] == Str(CREATE_FIRST_REQUEST) then
      Some(iterations * 3)
    else if suite == ClientCreation && Plain(Scenario) in row && row[Plain(Scenario)] == Str(REUSED_REQUEST) then
      Some(iterations + 2)
    else if suite == ClientCreation && Plain(Scenario) in row && row[Plain(Scenario)] == Str(MANY_CLIENTS) then
      (if HasInteger(row, Plain(ClientCount), 1) && iterations == IntegerIn(row, Plain(ClientCount))
       then Some(IntegerIn(row, Plain(ClientCount)) + 1) else None)
    else Some(iterations)
  }

  predicate AllCounts(entries: map<string, Value>) {
    forall k :: k in entries ==> !Text.Blank(k) && IsInteger(entries[k], 0)
  }

  function CountsIn(entries: map<string, Value>): map<string, nat>
    requires AllCounts(entries)
  {
    map k | k in entries :: entries[k].n
  }

  /** What the counts of an error map add up to; -1 for anything that is not a map of counts. */
  ghost function CountTotal(v: Value): int {
    if v.Counts? && AllCounts(v.entries) then Total(CountsIn(v.entries)) else -1
  }

  /** A map of counts that add up to the value of the total column. */
  ghost predicate Totals(errors: Value, total: Value) {
    IsInteger(total, 0) && CountTotal(errors) == total.n
  }

  /** An absent map is fine; a present one must add up. */
  ghost predicate ValidErrorMap(row: Row, f: Field, total: Field) {
    f in row ==> Totals(row[f], Effective(row, total))
  }

  method ValidateErrorMap(errors: Value, total: Value) returns (ok: bool)
    ensures ok <==> Totals(errors, total)
  {
    var count := CountEntries(errors);
    ok := IsInteger(total, 0) && count == total.n;
  }

  /** The loop over one error map: it gives up at the first key or count that is not acceptable. */
  method CountEntries(v: Value) returns (count: int)
    ensures count == CountTotal(v)
  {
    if !v.Counts? { return -1; }
    var entries := v.entries;
    var rest := entries.Keys;
    count := 0;
    ghost var seen: map<string, nat> := map[];
    while rest != {}
      invariant Counted(entries, rest, seen) && count == Total(seen)
      decreases rest
    {
      var k :| k in rest;
      if Text.Blank(k) || !IsInteger(entries[k], 0) { return -1; }
      TotalUpdate(seen, k, entries[k].n);
      count := count + entries[k].n;
      seen := seen[k := entries[k].n];
      rest := rest - {k};
    }
    AllCounted(entries, seen);
  }

  ghost predicate Counted(entries: map<string, Value>, rest: set<string>, seen: map<string, nat>) {
    && rest <= entries.Keys && seen.Keys == entries.Keys - rest
    && forall k :: k in seen ==> !Text.Blank(k) && IsInteger(entries[k], 0) && seen[k] == entries[k].n
  }

  lemma AllCounted(entries: map<string, Value>, seen: map<string, nat>)
    requires Counted(entries, {}, seen)
    ensures AllCounts(entries) && seen == CountsIn(entries)
  {
  }

  ghost predicate ErrorMaps(row: Row, total: Field, warmupTotal: Field) {
    ValidErrorMap(row, Plain(ErrorTypes), total) && ValidErrorMap(row, Plain(WarmupErrorTypes), warmupTotal)
  }

  // ---------------------------------------------------------------- aggregates and runs

  predicate PrimaryOk(suite: Suite, row: Row, primary: Field) {
    if suite == ResourceBackpressure then HasInteger(row, primary, 0) else HasNumber(row, primary)
  }

  predicate AggregateBounds(suite: Suite, row: Row) {
    var repeats, errors := IntegerIn(row, Plain(Repeats)), IntegerIn(row, Plain(ErrorsTotal));
    if OperationSuite(suite) then
      OperationErrorLimit(suite, row).Some? && errors <= OperationErrorLimit(suite, row).value * repeats
    else
      && HasInteger(row, Plain(RequestCount), 1) && HasInteger(row, Plain(WarmupErrorsTotal), 0)
      && errors <= IntegerIn(row, Plain(RequestCount)) * repeats
      && (SuccessTotal(suite).Some? ==>
            && HasInteger(row, SuccessTotal(suite).value, 0)
            && IntegerIn(row, SuccessTotal(suite).value) + errors == IntegerIn(row, Plain(RequestCount)) * repeats)
  }

  ghost predicate ValidAggregate(suite: Suite, row: Row) {
    && HasInteger(row, Plain(Repeats), 1) && HasInteger(row, Plain(ErrorsTotal), 0)
    && PrimaryOk(suite, row, AggregatePrimary(suite))
    && AggregateBounds(suite, row)
    && ErrorMaps(row, Plain(ErrorsTotal), Plain(WarmupErrorsTotal))
  }

  predicate RunBounds(suite: Suite, row: Row) {
    var errors := IntegerIn(row, Plain(Errors));
    if OperationSuite(suite) then
      OperationErrorLimit(suite, row).Some? && errors <= OperationErrorLimit(suite, row).value
    else
      var success := if suite == ResponseStreaming then Count(OkStreams) else Count(OkRequests);
      && HasInteger(row, Plain(RequestCount), 1) && HasInteger(row, Plain(WarmupErrors), 0)
      && HasInteger(row, success, 0)
      && IntegerIn(row, success) + errors == IntegerIn(row, Plain(RequestCount))
      && errors <= IntegerIn(row, Plain(RequestCount))
  }

  ghost predicate ValidRun(suite: Suite, row: Row) {
    && HasInteger(row, Plain(Repeat), 0) && HasNumber(row, Number(DurationS)) && HasInteger(row, Plain(Errors), 0)
    && PrimaryOk(suite, row, RunPrimary(suite))
    && RunBounds(suite, row)
    && ErrorMaps(row, Plain(Errors), Plain(WarmupErrors))
  }

  // ---------------------------------------------------------------- optional columns

  /** What a column must hold when it is present. */
  predicate Obeys(f: Field, v: Value) {
    match f
    case Plain(_) => true
    case Number(_) => IsNumber(v, Some(0.0))
    case NullableNumber(_) => v.Null? || IsNumber(v, Some(0.0))
    case Count(_) => IsInteger(v, 0)
    case NullableCount(_) => v.Null? || IsInteger(v, 0)
    case FinalStat(_) => v.Null? || IsInteger(v, 0)
    case Delta(_, measure) => SignedObeys(measure, v)
    case DeltaMax(_, measure) => SignedObeys(measure, v)
    case NestedCounts(_) => v.Null? || NestedObeys(v)
  }

  predicate SignedObeys(measure: Measure, v: Value) {
    v.Null? || (if measure == Rss then IsNumber(v, None) else v.Int?)
  }

  predicate NestedObeys(v: Value) {
    || (v.Counts? && forall k :: k in v.entries ==> IsInteger(v.entries[k], 0))
    || (v.Stats? && forall k :: k in v.stats ==> IsInteger(v.stats[k], 0))
  }

  const MAX_ERROR_RATE_PERCENT := 100.0

  predicate ValidOptionalFields(row: Row) {
    && (forall f :: f in row ==> Obeys(f, row[f]))
    && (Plain(ErrorRatePercent) in row ==>
          && HasNumber(row, Plain(ErrorRatePercent))
          && NumberOf(row[Plain(ErrorRatePercent)]).value <= MAX_ERROR_RATE_PERCENT)
  }

  ghost predicate AggregateAdmitted(suite: Suite, row: Row) {
    ValidIdentity(suite, row) && ValidAggregate(suite, row) && ValidOptionalFields(row)
  }

  ghost predicate RunAdmitted(suite: Suite, row: Row) {
    ValidIdentity(suite, row) && ValidRun(suite, row) && ValidOptionalFields(row)
  }

  /** `validate_ordinary_rows`. */
  ghost predicate RowsAdmitted(suite: Suite, aggregates: seq<Row>, runs: seq<Row>) {
    && (forall i :: 0 <= i < |aggregates| ==> AggregateAdmitted(suite, aggregates[i]))
    && (forall i :: 0 <= i < |runs| ==> RunAdmitted(suite, runs[i]))
  }

  /** The identity columns that hold strings; the others hold integers or nothing. */
  predicate TextColumn(c: PlainColumn) {
    || c == Scenario || c == Case || c == Group || c == Profile || c == Kind || c == ReadMode || c == Consume
    || c == TargetScheme || c == ProxyConfig || c == Lifecycle
  }

  ghost predicate HasKind(row: Row, f: Field) {
    Textual(row, f) && (Effective(row, f).Str? <==> f.Plain? && TextColumn(f.plain))
  }

  lemma NamedKind(row: Row, c: PlainColumn)
    requires NamedField(row, Plain(c)) && TextColumn(c)
    ensures HasKind(row, Plain(c))
  {
  }

  lemma IntegerKind(row: Row, f: Field)
    requires NullableInteger(row, f) || HasInteger(row, f, 0) || HasInteger(row, f, 1)
    requires !f.Plain? || !TextColumn(f.plain)
    ensures HasKind(row, f)
  {
  }

  lemma CreationKinds(row: Row, f: Field)
    requires ValidIdentity(ClientCreation, row) && f in IdentityFields(ClientCreation)
    ensures HasKind(row, f)
  {
    if f.Plain? && TextColumn(f.plain) { NamedKind(row, f.plain); } else { IntegerKind(row, f); }
  }

  lemma BuilderKinds(row: Row, f: Field)
    requires ValidIdentity(RequestBuilder, row) && f in IdentityFields(RequestBuilder)
    ensures HasKind(row, f)
  {
    if f.Plain? && TextColumn(f.plain) { NamedKind(row, f.plain); } else { IntegerKind(row, f); }
  }

  lemma RequestKinds(suite: Suite, row: Row, f: Field)
    requires suite == Requests || suite == CompressedResponse || suite == ResourceBackpressure
    requires ValidIdentity(suite, row) && f in IdentityFields(suite)
    ensures HasKind(row, f)
  {
    if f.Plain? && TextColumn(f.plain) { NamedKind(row, f.plain); } else { IntegerKind(row, f); }
  }

  lemma UpstreamKinds(row: Row, f: Field)
    requires ValidIdentity(OneUpstream, row) && f in IdentityFields(OneUpstream)
    ensures HasKind(row, f)
  {
    if f.Plain? && TextColumn(f.plain) { NamedKind(row, f.plain); } else { IntegerKind(row, f); }
  }

  lemma StreamingKinds(row: Row, f: Field)
    requires ValidIdentity(ResponseStreaming, row) && f in IdentityFields(ResponseStreaming)
    ensures HasKind(row, f)
  {
    if f == Plain(Case) {
      NamedKind(row, Case);
    } else if f == Plain(ReadMode) {
      NamedKind(row, ReadMode);
    } else if f == Plain(Consume) {
      NamedKind(row, Consume);
    } else {
      assert f == Plain(Concurrency) || f == Plain(RequestLimit);
      IntegerKind(row, f);
    }
  }

  lemma ProxyKinds(row: Row, f: Field)
    requires ValidIdentity(ProxyConnect, row) && f in IdentityFields(ProxyConnect)
    ensures HasKind(row, f)
  {
    if f.Plain? && TextColumn(f.plain) { NamedKind(row, f.plain); } else { IntegerKind(row, f); }
  }

  lemma FieldKind(suite: Suite, row: Row, f: Field)
    requires ValidIdentity(suite, row) && f in IdentityFields(suite)
    ensures HasKind(row, f)
  {
    match suite
    case ClientCreation => CreationKinds(row, f);
    case RequestBuilder => BuilderKinds(row, f);
    case OneUpstream => UpstreamKinds(row, f);
    case ResponseStreaming => StreamingKinds(row, f);
    case ProxyConnect => ProxyKinds(row, f);
    case _ => RequestKinds(suite, row, f);
  }

  /** An admitted identity can be computed ... */
  lemma AdmittedIdentity(suite: Suite, a: Row)
    requires ValidIdentity(suite, a)
    requires suite == ResponseStreaming ==>
      && !Research(a) && (Plain(ThroughputScope) in a ==> IsString(a, Plain(ThroughputScope)))
      && (Plain(TimingScope) in a ==> IsString(a, Plain(TimingScope)))
    ensures HasIdentity(suite, a)
  {
    forall f | f in IdentityFields(suite) ensures Textual(a, f) {
      FieldKind(suite, a, f);
    }
  }

  /** ... and determines the identifying fields of admitted rows: both give each of them the same kind of value. */
  lemma AdmittedKinds(suite: Suite, a: Row, b: Row, f: Field)
    requires ValidIdentity(suite, a) && ValidIdentity(suite, b) && f in IdentityFields(suite)
    ensures SameKind(a, b, f)
  {
    FieldKind(suite, a, f);
    FieldKind(suite, b, f);
  }

  /** The counts of a present error map never exceed what the row can have recorded. */
  lemma ErrorMapWithinRequests(suite: Suite, row: Row, name: string)
    requires RunAdmitted(suite, row) && !OperationSuite(suite) && Plain(ErrorTypes) in row
    requires row[Plain(ErrorTypes)].Counts? && name in row[Plain(ErrorTypes)].entries
    ensures row[Plain(ErrorTypes)].entries[name].Int?
    ensures 0 <= row[Plain(ErrorTypes)].entries[name].n <= IntegerIn(row, Plain(Errors))
              <= IntegerIn(row, Plain(RequestCount))
  {
    TotalAtLeast(CountsIn(row[Plain(ErrorTypes)].entries), name);
  }

  // ---------------------------------------------------------------- what admission says

  /** How many errors one run of an operation suite can have recorded, by what the run did. */
  ghost predicate OperationErrors(suite: Suite, row: Row, errors: int, runs: int) {
    var n, did := IntegerIn(row, Plain(Iterations)), Effective(row, Plain(Scenario));
    if suite == RequestBuilder then errors <= n * runs
    else if did == Str("create-first-request") then errors <= n * 3 * runs
    else if did == Str("reused-request") then errors <= (n + 2) * runs
    else if did == Str("many-clients-open-close") then
      Effective(row, Plain(ClientCount)) == Int(n) && errors <= (n + 1) * runs
    else errors <= n * runs
  }

  /** The requests of a suite either succeeded, where it counts successes, or are among its errors. */
  ghost predicate RequestErrors(row: Row, success: Option<Field>, errors: int, requests: int) {
    && 0 <= errors <= requests
    && (success.Some? ==> Effective(row, success.value) == Int(requests - errors))
  }

  /** The success column of the aggregates and of the runs of a suite. */
  function SuccessColumn(suite: Suite, aggregate: bool): Option<Field> {
    match suite
    case Requests => if aggregate then None else Some(Count(OkRequests))
    case CompressedResponse => if aggregate then None else Some(Count(OkRequests))
    case ResponseStreaming => Some(Count(if aggregate then OkStreamsTotal else OkStreams))
    case ClientCreation => None
    case RequestBuilder => None
    case _ => Some(Count(if aggregate then OkRequestsTotal else OkRequests))
  }

  /** The errors of an admitted aggregate fit what its repeats can have recorded, ... */
  lemma AggregateTells(suite: Suite, row: Row)
    requires ValidAggregate(suite, row)
    ensures HasInteger(row, Plain(ErrorsTotal), 0) && HasInteger(row, Plain(Repeats), 1)
    ensures var errors, repeats := row[Plain(ErrorsTotal)].n, row[Plain(Repeats)].n;
      if suite == ClientCreation || suite == RequestBuilder then
        HasInteger(row, Plain(Iterations), 1) && OperationErrors(suite, row, errors, repeats)
      else
        && HasInteger(row, Plain(RequestCount), 1)
        && RequestErrors(row, SuccessColumn(suite, true), errors, row[Plain(RequestCount)].n * repeats)
  {
    if OperationSuite(suite) { OperationTells(suite, row); } else { RequestsTell(suite, row); }
  }

  lemma OperationTells(suite: Suite, row: Row)
    requires OperationSuite(suite) && AggregateBounds(suite, row)
    ensures HasInteger(row, Plain(Iterations), 1)
    ensures OperationErrors(suite, row, IntegerIn(row, Plain(ErrorsTotal)), IntegerIn(row, Plain(Repeats)))
  {
  }

  lemma RequestsTell(suite: Suite, row: Row)
    requires !OperationSuite(suite) && AggregateBounds(suite, row) && HasInteger(row, Plain(ErrorsTotal), 0)
    ensures HasInteger(row, Plain(RequestCount), 1)
    ensures RequestErrors(row, SuccessColumn(suite, true), IntegerIn(row, Plain(ErrorsTotal)),
                          row[Plain(RequestCount)].n * IntegerIn(row, Plain(Repeats)))
  {
  }

  /** ... and those of an admitted run what it can. */
  lemma RunTells(suite: Suite, row: Row)
    requires ValidRun(suite, row)
    ensures HasInteger(row, Plain(Errors), 0)
    ensures var errors := row[Plain(Errors)].n;
      if suite == ClientCreation || suite == RequestBuilder then
        HasInteger(row, Plain(Iterations), 1) && OperationErrors(suite, row, errors, 1)
      else
        && HasInteger(row, Plain(RequestCount), 1)
        && RequestErrors(row, SuccessColumn(suite, false), errors, row[Plain(RequestCount)].n)
  {
  }
}
