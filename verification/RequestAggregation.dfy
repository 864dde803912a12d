/** Aggregating request runs, and why the aggregates pass the checks written for them elsewhere. */
module RequestAggregation {
  import opened Common
  import opened MapSums
  import opened Ordering
  import opened Grouping
  import opened Medians
  import opened ReportRows
  import opened OrdinaryRows
  import opened ResourceCoverage
  import Text

  datatype RunResult = RunResult(
    mode: string,
    client: string,
    scenario: string,
    concurrency: int,
    requestLimit: int,
    requests: int,
    repeat: int,
    durationS: real,
    requestsPerSecond: real,
    okRequestsPerSecond: real,
    okRequests: int,
    p50Ms: real,
    p95Ms: real,
    p99Ms: real,
    errors: int,
    warmupErrors: int,
    errorTypes: map<string, nat>,
    warmupErrorTypes: map<string, nat>,
    processCpuS: real,
    peakRssMb: Option<real>,
    peakThreads: Option<int>,
    peakFds: Option<int>)

  datatype AggregateRow = AggregateRow(
    key: Key,
    requests: int,
    repeats: int,
    reqSMedian: real,
    okReqSMedian: real,
    reqSCvPercent: real,
    p50MsMedian: real,
    p95MsMedian: real,
    p99MsMedian: real,
    rssMbMax: Option<real>,
    threadsMax: Option<int>,
    fdsMax: Option<int>,
    errorsTotal: int,
    warmupErrorsTotal: int,
    errorTypes: map<string, nat>,
    warmupErrorTypes: map<string, nat>,
    errorRatePercent: real,
    coverage: map<Field, Observation>)

  datatype Key = Key(mode: string, client: string, scenario: string, concurrency: int, requestLimit: int)

  function KeyOf(r: RunResult): Key {
    Key(r.mode, r.client, r.scenario, r.concurrency, r.requestLimit)
  }

  // ---------------------------------------------------------------- rows as JSON

  function NumberValue(x: Option<real>): Value {
    if x.None? then Null else Num(x.value)
  }

  function IntValue(x: Option<int>): Value {
    if x.None? then Null else Int(x.value)
  }

  function CountValues(m: map<string, nat>): Value {
    Counts(map k | k in m :: Int(m[k]))
  }

  function KeyValue(key: Key, c: PlainColumn): Option<Value> {
    match c
    case Mode => Some(Str(key.mode))
    case Client => Some(Str(key.client))
    case Scenario => Some(Str(key.scenario))
    case Concurrency => Some(Int(key.concurrency))
    case RequestLimit => Some(Int(key.requestLimit))
    case _ => None
  }

  function RunPlain(r: RunResult, c: PlainColumn): Option<Value> {
    match c
    case RequestCount => Some(Int(r.requests))
    case Repeat => Some(Int(r.repeat))
    case OkRequestsPerSecond => Some(Num(r.okRequestsPerSecond))
    case Errors => Some(Int(r.errors))
    case WarmupErrors => Some(Int(r.warmupErrors))
    case ErrorTypes => Some(CountValues(r.errorTypes))
    case WarmupErrorTypes => Some(CountValues(r.warmupErrorTypes))
    case _ => KeyValue(KeyOf(r), c)
  }

  function RunNumber(r: RunResult, c: NumberColumn): Option<Value> {
    match c
    case DurationS => Some(Num(r.durationS))
    case RequestsPerSecond => Some(Num(r.requestsPerSecond))
    case P50Ms => Some(Num(r.p50Ms))
    case P95Ms => Some(Num(r.p95Ms))
    case P99Ms => Some(Num(r.p99Ms))
    case ProcessCpuS => Some(Num(r.processCpuS))
    case _ => None
  }

  function RunValue(r: RunResult, f: Field): Option<Value> {
    match f
    case Plain(c) => RunPlain(r, c)
    case Number(c) => RunNumber(r, c)
    case Count(c) => if c == OkRequests then Some(Int(r.okRequests)) else None
    case NullableNumber(c) => if c == PeakRssMb then Some(NumberValue(r.peakRssMb)) else None
    case NullableCount(c) =>
      if c == PeakThreads then Some(IntValue(r.peakThreads))
      else if c == PeakFds then Some(IntValue(r.peakFds)) else None
    case _ => None
  }

  /** A run as it is written to the report. */
  function RunRow(r: RunResult): Row {
    RowFrom(f => RunValue(r, f))
  }

  function AggregatePlain(a: AggregateRow, c: PlainColumn): Option<Value> {
    match c
    case RequestCount => Some(Int(a.requests))
    case Repeats => Some(Int(a.repeats))
    case OkReqSMedian => Some(Num(a.okReqSMedian))
    case ErrorsTotal => Some(Int(a.errorsTotal))
    case WarmupErrorsTotal => Some(Int(a.warmupErrorsTotal))
    case ErrorTypes => Some(CountValues(a.errorTypes))
    case WarmupErrorTypes => Some(CountValues(a.warmupErrorTypes))
    case ErrorRatePercent => Some(Num(a.errorRatePercent))
    case Coverage => Some(Observed(a.coverage))
    case _ => KeyValue(a.key, c)
  }

  function AggregateNumber(a: AggregateRow, c: NumberColumn): Option<Value> {
    match c
    case ReqSMedian => Some(Num(a.reqSMedian))
    case ReqSCvPercent => Some(Num(a.reqSCvPercent))
    case P50MsMedian => Some(Num(a.p50MsMedian))
    case P95MsMedian => Some(Num(a.p95MsMedian))
    case P99MsMedian => Some(Num(a.p99MsMedian))
    case _ => None
  }

  function AggregateValue(a: AggregateRow, f: Field): Option<Value> {
    match f
    case Plain(c) => AggregatePlain(a, c)
    case Number(c) => AggregateNumber(a, c)
    case NullableNumber(c) => if c == RssMbMax then Some(NumberValue(a.rssMbMax)) else None
    case NullableCount(c) =>
      if c == ThreadsMax then Some(IntValue(a.threadsMax))
      else if c == FdsMax then Some(IntValue(a.fdsMax)) else None
    case _ => None
  }

  /** An aggregate as it is written to the report. */
  function RowOf(a: AggregateRow): Row {
    RowFrom(f => AggregateValue(a, f))
  }

  predicate Cell(row: Row, f: Field, v: Value) {
    f in row && row[f] == v
  }

  /** `row` has exactly the columns of the run, with its values. */
  ghost predicate RunFields(row: Row, r: RunResult) {
    && (forall f :: f in row <==> RunValue(r, f).Some?)
    && (forall f :: f in row ==> row[f] == RunValue(r, f).value)
  }

  ghost predicate AggregateFields(row: Row, a: AggregateRow) {
    && (forall f :: f in row <==> AggregateValue(a, f).Some?)
    && (forall f :: f in row ==> row[f] == AggregateValue(a, f).value)
  }

  lemma RunRowFields(r: RunResult)
    ensures RunFields(RunRow(r), r)
  {
  }

  lemma RowFields(a: AggregateRow)
    ensures AggregateFields(RowOf(a), a)
  {
  }

  function RunRows(runs: seq<RunResult>): seq<Row> {
    seq(|runs|, i requires 0 <= i < |runs| => RunRow(runs[i]))
  }

  function RowsOf(aggregates: seq<AggregateRow>): seq<Row> {
    seq(|aggregates|, i requires 0 <= i < |aggregates| => RowOf(aggregates[i]))
  }

  // ---------------------------------------------------------------- statistics

  function SumReal(xs: seq<real>): real {
    if xs == [] then 0.0 else SumReal(xs[..|xs| - 1]) + xs[|xs| - 1]
  }

  /** `coefficient_of_variation`, for a given standard deviation; fewer than two samples do not vary. */
  function CoefficientOfVariation(xs: seq<real>, stdev: seq<real> -> real): real {
    if |xs| < 2 then 0.0
    else
      var mean := SumReal(xs) / |xs| as real;
      if mean == 0.0 then 0.0 else stdev(xs) / mean * 100.0
  }

  /** A sum lies between the bounds of its values, times their number. */
  lemma {:induction false} SumBetween(xs: seq<real>, low: real, high: real)
    requires forall x :: x in xs ==> low <= x <= high
    ensures low * |xs| as real <= SumReal(xs) <= high * |xs| as real
  {
    if xs != [] {
      var n := |xs| - 1;
      assert forall x :: x in xs[..n] ==> x in xs;
      SumBetween(xs[..n], low, high);
      assert low * |xs| as real == low * n as real + low && high * |xs| as real == high * n as real + high;
      assert xs[n] in xs;
    }
  }

  ghost predicate NonNegativeAll(xs: seq<real>) {
    forall i :: 0 <= i < |xs| ==> xs[i] >= 0.0
  }

  lemma {:induction false} SumNonNegative(xs: seq<real>)
    requires NonNegativeAll(xs)
    ensures SumReal(xs) >= 0.0
  {
    if xs != [] { SumNonNegative(xs[..|xs| - 1]); }
  }

  lemma VariationNonNegative(xs: seq<real>, stdev: seq<real> -> real)
    requires NonNegativeAll(xs) && stdev(xs) >= 0.0
    ensures CoefficientOfVariation(xs, stdev) >= 0.0
  {
    SumNonNegative(xs);
    if |xs| >= 2 {
      QuotientNonNegative(SumReal(xs), |xs| as real);
      var mean := SumReal(xs) / |xs| as real;
      if mean != 0.0 { QuotientNonNegative(stdev(xs), mean); }
    }
  }

  lemma QuotientNonNegative(a: real, b: real)
    requires a >= 0.0 && b > 0.0
    ensures a / b >= 0.0
  {
  }

  // ---------------------------------------------------------------- aggregation

  function RequestsIn(r: RunResult): int { r.requests }

  function ErrorsIn(r: RunResult): int { r.errors }

  function WarmupErrorsIn(r: RunResult): int { r.warmupErrors }

  function RateOf(r: RunResult): real { r.requestsPerSecond }

  function OkRateOf(r: RunResult): real { r.okRequestsPerSecond }

  function P50Of(r: RunResult): real { r.p50Ms }

  function P95Of(r: RunResult): real { r.p95Ms }

  function P99Of(r: RunResult): real { r.p99Ms }

  function RssOf(r: RunResult): Option<real> { r.peakRssMb }

  function ThreadsOf(r: RunResult): Option<int> { r.peakThreads }

  function FdsOf(r: RunResult): Option<int> { r.peakFds }

  function ErrorTypesOf(r: RunResult): map<string, nat> { r.errorTypes }

  function WarmupErrorTypesOf(r: RunResult): map<string, nat> { r.warmupErrorTypes }

  function Reals(items: seq<RunResult>, f: RunResult -> real): seq<real> {
    seq(|items|, i requires 0 <= i < |items| => f(items[i]))
  }

  function Column<T>(items: seq<RunResult>, f: RunResult -> T): seq<T> {
    seq(|items|, i requires 0 <= i < |items| => f(items[i]))
  }

  function SumInt(items: seq<RunResult>, f: RunResult -> int): int {
    if items == [] then 0 else SumInt(items[..|items| - 1], f) + f(items[|items| - 1])
  }

  function OptionalMaxInt(values: seq<Option<int>>): Option<int> {
    var present := Present(values);
    if present == [] then None else Some(LargestInt(present))
  }

  function LargestInt(xs: seq<int>): int
    requires xs != []
  {
    if |xs| == 1 then xs[0]
    else Max(LargestInt(xs[..|xs| - 1]), xs[|xs| - 1])
  }

  /** One aggregate row from the runs that share a key. */
  function AggregateOf(key: Key, items: seq<RunResult>, stdev: seq<real> -> real): AggregateRow
    requires items != []
  {
    var requestsTotal := SumInt(items, RequestsIn);
    var errorsTotal := SumInt(items, ErrorsIn);
    var rates := Reals(items, RateOf);
    AggregateRow(
      key, items[0].requests, |items|,
      Median(rates), Median(Reals(items, OkRateOf)),
      CoefficientOfVariation(rates, stdev),
      Median(Reals(items, P50Of)), Median(Reals(items, P95Of)),
      Median(Reals(items, P99Of)),
      OptionalMax(Column(items, RssOf)),
      OptionalMaxInt(Column(items, ThreadsOf)),
      OptionalMaxInt(Column(items, FdsOf)),
      errorsTotal, SumInt(items, WarmupErrorsIn),
      AddAll(Column(items, ErrorTypesOf)),
      AddAll(Column(items, WarmupErrorTypesOf)),
      ErrorRate(errorsTotal, requestsTotal),
      CoverageMap(items))
  }

  function ErrorRate(errors: int, requests: int): real {
    if requests != 0 then errors as real / requests as real * 100.0 else 0.0
  }

  function CoverageMap(items: seq<RunResult>): map<Field, Observation> {
    map[NullableNumber(RssMbMax) := CoverageOfValues(Column(items, RssOf)),
        NullableCount(ThreadsMax) := CoverageOfValues(Column(items, ThreadsOf)),
        NullableCount(FdsMax) := CoverageOfValues(Column(items, FdsOf))]
  }

  /** `merge_error_types`. */
  method MergeErrorTypes(values: seq<map<string, nat>>) returns (merged: map<string, nat>)
    ensures merged == AddAll(values)
  {
    merged := map[];
    for k := 0 to |values|
      invariant merged == AddAll(values[..k])
    {
      assert values[..k + 1][..k] == values[..k];
      merged := AddCounters(merged, values[k]);
    }
    assert values[..|values|] == values;
  }

  /** The order of `sorted(grouped.items())`: tuples compare field by field. */
  predicate KeyLe(a: Key, b: Key) {
    if a.mode != b.mode then StringLe(a.mode, b.mode)
    else if a.client != b.client then StringLe(a.client, b.client)
    else if a.scenario != b.scenario then StringLe(a.scenario, b.scenario)
    else if a.concurrency != b.concurrency then a.concurrency <= b.concurrency
    else a.requestLimit <= b.requestLimit
  }

  lemma KeysOrdered()
    ensures TotalOrder(KeyLe)
  {
    StringsOrdered();
  }

  function Identity<T>(): T -> T { x => x }

  ghost predicate AllPresent(results: seq<RunResult>, keys: seq<Key>) {
    forall i :: 0 <= i < |keys| ==> Select(results, KeyOf, keys[i]) != []
  }

  /** One row per key, from the runs with that key. */
  ghost function AggregateAll(results: seq<RunResult>, keys: seq<Key>, stdev: seq<real> -> real): seq<AggregateRow>
    requires AllPresent(results, keys)
  {
    if keys == [] then []
    else
      var last := keys[|keys| - 1];
      AggregateAll(results, keys[..|keys| - 1], stdev) + [AggregateOf(last, Select(results, KeyOf, last), stdev)]
  }

  lemma {:induction false} AggregateAllAt(results: seq<RunResult>, keys: seq<Key>, stdev: seq<real> -> real, i: nat)
    requires AllPresent(results, keys) && i < |keys|
    ensures |AggregateAll(results, keys, stdev)| == |keys|
    ensures AggregateAll(results, keys, stdev)[i] == AggregateOf(keys[i], Select(results, KeyOf, keys[i]), stdev)
  {
    AggregateAllLength(results, keys, stdev);
    AggregateAllLength(results, keys[..|keys| - 1], stdev);
    if i < |keys| - 1 { AggregateAllAt(results, keys[..|keys| - 1], stdev, i); }
  }

  lemma {:induction false} AggregateAllLength(results: seq<RunResult>, keys: seq<Key>, stdev: seq<real> -> real)
    requires AllPresent(results, keys)
    ensures |AggregateAll(results, keys, stdev)| == |keys|
  {
    if keys != [] { AggregateAllLength(results, keys[..|keys| - 1], stdev); }
  }

  /** `sorted(grouped)`: the distinct keys of the runs in ascending order. */
  function SortedKeysOf(results: seq<RunResult>): seq<Key> {
    SortBy(KeysOf(results, KeyOf), Identity<Key>(), KeyLe)
  }

  lemma SortedKeys(results: seq<RunResult>)
    ensures multiset(SortedKeysOf(results)) == multiset(KeysOf(results, KeyOf))
    ensures Ascends(SortedKeysOf(results), Identity<Key>(), KeyLe)
    ensures AllPresent(results, SortedKeysOf(results))
  {
    var order, sorted := KeysOf(results, KeyOf), SortedKeysOf(results);
    KeysOrdered();
    SortSorts(order, Identity<Key>(), KeyLe);
    KeysFacts(results, KeyOf);
    SameElements(sorted, order);
  }

  // ---------------------------------------------------------------- what a row says

  lemma {:induction false} LargestIntFacts(xs: seq<int>)
    requires xs != []
    ensures LargestInt(xs) in xs
    ensures forall x :: x in xs ==> x <= LargestInt(xs)
  {
    if |xs| > 1 {
      LargestIntFacts(xs[..|xs| - 1]);
      assert xs == xs[..|xs| - 1] + [xs[|xs| - 1]];
    }
  }

  lemma IntMaxFacts(values: seq<Option<int>>)
    ensures OptionalMaxInt(values).None? <==> forall i :: 0 <= i < |values| ==> values[i].None?
    ensures OptionalMaxInt(values).Some? ==> OptionalMaxInt(values) in values
    ensures forall i :: 0 <= i < |values| && values[i].Some? ==>
      OptionalMaxInt(values).Some? && values[i].value <= OptionalMaxInt(values).value
  {
    PresentFacts(values);
    var present := Present(values);
    if present != [] {
      LargestIntFacts(present);
      forall i | 0 <= i < |values| && values[i].Some? ensures values[i].value <= LargestInt(present) {
        assert Some(values[i].value) in values;
        assert values[i].value in present;
      }
    }
  }

  /** The five medians, each of its own column. */
  ghost predicate HasMedians(a: AggregateRow, items: seq<RunResult>) {
    && IsMedian(Reals(items, (r: RunResult) => r.requestsPerSecond), a.reqSMedian)
    && IsMedian(Reals(items, (r: RunResult) => r.okRequestsPerSecond), a.okReqSMedian)
    && IsMedian(Reals(items, (r: RunResult) => r.p50Ms), a.p50MsMedian)
    && IsMedian(Reals(items, (r: RunResult) => r.p95Ms), a.p95MsMedian)
    && IsMedian(Reals(items, (r: RunResult) => r.p99Ms), a.p99MsMedian)
  }

  /** Null when nothing was observed, otherwise the largest observation. */
  ghost predicate IsMaximum(values: seq<Option<real>>, m: Option<real>) {
    && (m.None? <==> forall i :: 0 <= i < |values| ==> values[i].None?)
    && (m.Some? ==> m in values && forall i :: 0 <= i < |values| && values[i].Some? ==> values[i].value <= m.value)
  }

  ghost predicate IsMaximumInt(values: seq<Option<int>>, m: Option<int>) {
    && (m.None? <==> forall i :: 0 <= i < |values| ==> values[i].None?)
    && (m.Some? ==> m in values && forall i :: 0 <= i < |values| && values[i].Some? ==> values[i].value <= m.value)
  }

  ghost predicate HasMaxima(a: AggregateRow, items: seq<RunResult>) {
    && IsMaximum(Column(items, (r: RunResult) => r.peakRssMb), a.rssMbMax)
    && IsMaximumInt(Column(items, (r: RunResult) => r.peakThreads), a.threadsMax)
    && IsMaximumInt(Column(items, (r: RunResult) => r.peakFds), a.fdsMax)
  }

  /** The error types of the runs are added up name by name, those of warm-up apart. */
  ghost predicate HasErrorTypes(a: AggregateRow, items: seq<RunResult>) {
    forall name :: HasErrorType(a, items, name)
  }

  ghost predicate HasErrorType(a: AggregateRow, items: seq<RunResult>, name: string) {
    && Get(a.errorTypes, name) == SumInt(items, (r: RunResult) => Get(r.errorTypes, name))
    && Get(a.warmupErrorTypes, name) == SumInt(items, (r: RunResult) => Get(r.warmupErrorTypes, name))
  }

  /** Errors are added up, warm-up ones apart, and the rate is the share of failed requests. */
  ghost predicate HasTotals(a: AggregateRow, items: seq<RunResult>) {
    var requests := SumInt(items, (r: RunResult) => r.requests);
    && a.errorsTotal == SumInt(items, (r: RunResult) => r.errors)
    && a.warmupErrorsTotal == SumInt(items, (r: RunResult) => r.warmupErrors)
    && a.errorRatePercent * requests as real == (if requests == 0 then 0.0 else 100.0 * a.errorsTotal as real)
    && (requests == 0 ==> a.errorRatePercent == 0.0)
  }

  /** The spread of the request rates, relative to their mean and in percent. */
  ghost predicate HasSpread(a: AggregateRow, items: seq<RunResult>, stdev: seq<real> -> real) {
    var rates := Reals(items, (r: RunResult) => r.requestsPerSecond);
    if |items| < 2 || SumReal(rates) == 0.0 then a.reqSCvPercent == 0.0
    else a.reqSCvPercent * SumReal(rates) == 100.0 * stdev(rates) * |items| as real
  }

  function SomeIn<T>(values: seq<Option<T>>): nat {
    if values == [] then 0 else SomeIn(values[..|values| - 1]) + if values[|values| - 1].Some? then 1 else 0
  }

  ghost predicate CountsValues<T(!new)>(o: Observation, values: seq<Option<T>>) {
    && o.available == SomeIn(values) && o.expected == |values|
    && (o.reasons == [] <==> forall i :: 0 <= i < |values| ==> values[i].Some?)
  }

  ghost predicate HasCoverage(a: AggregateRow, items: seq<RunResult>) {
    && a.coverage.Keys == {NullableNumber(RssMbMax), NullableCount(ThreadsMax), NullableCount(FdsMax)}
    && ResourceCoverageOf(a.coverage, items)
  }

  ghost predicate ResourceCoverageOf(coverage: map<Field, Observation>, items: seq<RunResult>)
    requires {NullableNumber(RssMbMax), NullableCount(ThreadsMax), NullableCount(FdsMax)} <= coverage.Keys
  {
    && CountsValues(coverage[NullableNumber(RssMbMax)], Column(items, (r: RunResult) => r.peakRssMb))
    && CountsValues(coverage[NullableCount(ThreadsMax)], Column(items, (r: RunResult) => r.peakThreads))
    && CountsValues(coverage[NullableCount(FdsMax)], Column(items, (r: RunResult) => r.peakFds))
  }

  /** The row of one key says of every column what it should, in terms of the runs with that key. */
  ghost predicate Summarises(a: AggregateRow, key: Key, items: seq<RunResult>, stdev: seq<real> -> real) {
    && items != [] && a.key == key && a.repeats == |items| && a.requests == items[0].requests
    && HasMedians(a, items) && HasMaxima(a, items) && HasTotals(a, items) && HasErrorTypes(a, items)
    && HasSpread(a, items, stdev) && HasCoverage(a, items)
  }

  /** ... where the runs are those of the whole list that have the key. */
  ghost predicate SummarisesKey(a: AggregateRow, results: seq<RunResult>, key: Key, stdev: seq<real> -> real) {
    Summarises(a, key, Select(results, KeyOf, key), stdev)
  }

  /** One row per key, in order. */
  ghost predicate AllSummarise(
    rows: seq<AggregateRow>, results: seq<RunResult>, keys: seq<Key>, stdev: seq<real> -> real)
  {
    |rows| == |keys| && forall i :: 0 <= i < |rows| ==> SummarisesKey(rows[i], results, keys[i], stdev)
  }

  lemma SameReals(items: seq<RunResult>, f: RunResult -> real, g: RunResult -> real)
    requires forall r :: f(r) == g(r)
    ensures Reals(items, f) == Reals(items, g)
  {
  }

  lemma SameColumn<T>(items: seq<RunResult>, f: RunResult -> T, g: RunResult -> T)
    requires forall r :: f(r) == g(r)
    ensures Column(items, f) == Column(items, g)
  {
  }

  lemma {:induction false} SameSum(items: seq<RunResult>, f: RunResult -> int, g: RunResult -> int)
    requires forall r :: f(r) == g(r)
    ensures SumInt(items, f) == SumInt(items, g)
  {
    if items != [] { SameSum(items[..|items| - 1], f, g); }
  }

  lemma MediansHold(key: Key, items: seq<RunResult>, stdev: seq<real> -> real)
    requires items != []
    ensures HasMedians(AggregateOf(key, items, stdev), items)
  {
    MedianHolds(items, RateOf, (r: RunResult) => r.requestsPerSecond);
    MedianHolds(items, OkRateOf, (r: RunResult) => r.okRequestsPerSecond);
    MedianHolds(items, P50Of, (r: RunResult) => r.p50Ms);
    MedianHolds(items, P95Of, (r: RunResult) => r.p95Ms);
    MedianHolds(items, P99Of, (r: RunResult) => r.p99Ms);
  }

  lemma MedianHolds(items: seq<RunResult>, f: RunResult -> real, g: RunResult -> real)
    requires items != [] && forall r :: f(r) == g(r)
    ensures IsMedian(Reals(items, g), Median(Reals(items, f)))
  {
    SameReals(items, f, g);
    MedianIff(Reals(items, g), Median(Reals(items, g)));
  }

  lemma MaximaHold(key: Key, items: seq<RunResult>, stdev: seq<real> -> real)
    requires items != []
    ensures HasMaxima(AggregateOf(key, items, stdev), items)
  {
    SameColumn(items, RssOf, (r: RunResult) => r.peakRssMb);
    SameColumn(items, ThreadsOf, (r: RunResult) => r.peakThreads);
    SameColumn(items, FdsOf, (r: RunResult) => r.peakFds);
    OptionalMaxFacts(Column(items, RssOf));
    IntMaxFacts(Column(items, ThreadsOf));
    IntMaxFacts(Column(items, FdsOf));
  }

  /** A merged counter is the sum of the counters, name by name. */
  lemma {:induction false} MergedCounter(
    items: seq<RunResult>, f: RunResult -> map<string, nat>, name: string, g: RunResult -> int)
    requires forall r :: g(r) == Get(f(r), name)
    ensures Get(AddAll(Column(items, f)), name) == SumInt(items, g)
  {
    if items != [] {
      var n := |items| - 1;
      MergedCounter(items[..n], f, name, g);
      assert Column(items, f)[..n] == Column(items[..n], f);
    }
  }

  lemma Share(errors: int, requests: int)
    requires requests != 0
    ensures ErrorRate(errors, requests) * requests as real == 100.0 * errors as real
  {
    var e, q := errors as real, requests as real;
    assert e / q * 100.0 * q == e / q * q * 100.0;
  }

  /** The columns of a row that are computed from errors and rates. */
  lemma ComputedColumns(key: Key, items: seq<RunResult>, stdev: seq<real> -> real)
    requires items != []
    ensures var a := AggregateOf(key, items, stdev);
      && a.errorsTotal == SumInt(items, ErrorsIn) && a.warmupErrorsTotal == SumInt(items, WarmupErrorsIn)
      && a.errorRatePercent == ErrorRate(SumInt(items, ErrorsIn), SumInt(items, RequestsIn))
      && a.reqSCvPercent == CoefficientOfVariation(Reals(items, RateOf), stdev)
      && a.errorTypes == AddAll(Column(items, ErrorTypesOf))
      && a.warmupErrorTypes == AddAll(Column(items, WarmupErrorTypesOf))
      && a.coverage == CoverageMap(items)
  {
  }

  lemma TotalsHold(a: AggregateRow, items: seq<RunResult>)
    requires a.errorsTotal == SumInt(items, ErrorsIn) && a.warmupErrorsTotal == SumInt(items, WarmupErrorsIn)
    requires a.errorRatePercent == ErrorRate(SumInt(items, ErrorsIn), SumInt(items, RequestsIn))
    ensures HasTotals(a, items)
  {
    SameSum(items, RequestsIn, (r: RunResult) => r.requests);
    SameSum(items, ErrorsIn, (r: RunResult) => r.errors);
    SameSum(items, WarmupErrorsIn, (r: RunResult) => r.warmupErrors);
    if SumInt(items, RequestsIn) != 0 { Share(SumInt(items, ErrorsIn), SumInt(items, RequestsIn)); }
  }

  lemma ErrorTypesHold(a: AggregateRow, items: seq<RunResult>)
    requires a.errorTypes == AddAll(Column(items, ErrorTypesOf))
    requires a.warmupErrorTypes == AddAll(Column(items, WarmupErrorTypesOf))
    ensures HasErrorTypes(a, items)
  {
    forall name ensures HasErrorType(a, items, name) {
      MergedCounter(items, ErrorTypesOf, name, (r: RunResult) => Get(r.errorTypes, name));
      MergedCounter(items, WarmupErrorTypesOf, name, (r: RunResult) => Get(r.warmupErrorTypes, name));
    }
  }

  lemma SpreadHolds(a: AggregateRow, items: seq<RunResult>, stdev: seq<real> -> real)
    requires a.reqSCvPercent == CoefficientOfVariation(Reals(items, RateOf), stdev)
    ensures HasSpread(a, items, stdev)
  {
    SameReals(items, RateOf, (r: RunResult) => r.requestsPerSecond);
    SpreadOf(Reals(items, RateOf), stdev);
  }

  lemma SpreadOf(xs: seq<real>, stdev: seq<real> -> real)
    ensures var cv := CoefficientOfVariation(xs, stdev);
      if |xs| < 2 || SumReal(xs) == 0.0 then cv == 0.0
      else cv * SumReal(xs) == 100.0 * stdev(xs) * |xs| as real
  {
    if |xs| >= 2 {
      var sum, n, d := SumReal(xs), |xs| as real, stdev(xs);
      if sum == 0.0 { assert sum / n == 0.0; } else { Relative(d, sum, n); }
    }
  }

  lemma Relative(d: real, sum: real, n: real)
    requires n > 0.0 && sum != 0.0
    ensures sum / n != 0.0 && d / (sum / n) * 100.0 * sum == 100.0 * d * n
  {
    var mean := sum / n;
    assert mean * n == sum;
    assert mean != 0.0;
    var q := d / mean;
    assert q * mean == d;
    assert q * 100.0 * sum == 100.0 * (q * mean) * n;
  }

  lemma {:induction false} PresentCount<T>(values: seq<Option<T>>)
    ensures |Present(values)| == SomeIn(values) <= |values|
    ensures SomeIn(values) == |values| <==> forall i :: 0 <= i < |values| ==> values[i].Some?
  {
    if values != [] { PresentCount(values[..|values| - 1]); }
  }

  lemma CoverageHolds(a: AggregateRow, items: seq<RunResult>)
    requires a.coverage == CoverageMap(items)
    ensures HasCoverage(a, items)
  {
    SameColumn(items, RssOf, (r: RunResult) => r.peakRssMb);
    SameColumn(items, ThreadsOf, (r: RunResult) => r.peakThreads);
    SameColumn(items, FdsOf, (r: RunResult) => r.peakFds);
    PresentCount(Column(items, RssOf));
    PresentCount(Column(items, ThreadsOf));
    PresentCount(Column(items, FdsOf));
  }

  lemma RowSummarises(key: Key, items: seq<RunResult>, stdev: seq<real> -> real)
    requires items != []
    ensures Summarises(AggregateOf(key, items, stdev), key, items, stdev)
  {
    MediansHold(key, items, stdev);
    MaximaHold(key, items, stdev);
    ComputedColumns(key, items, stdev);
    var a := AggregateOf(key, items, stdev);
    TotalsHold(a, items);
    ErrorTypesHold(a, items);
    SpreadHolds(a, items, stdev);
    CoverageHolds(a, items);
  }

  lemma RowsSummarise(results: seq<RunResult>, keys: seq<Key>, stdev: seq<real> -> real)
    requires AllPresent(results, keys)
    ensures AllSummarise(AggregateAll(results, keys, stdev), results, keys, stdev)
  {
    AggregateAllLength(results, keys, stdev);
    forall i | 0 <= i < |keys| ensures SummarisesKey(AggregateAll(results, keys, stdev)[i], results, keys[i], stdev) {
      AggregateAllAt(results, keys, stdev, i);
      RowSummarises(keys[i], Select(results, KeyOf, keys[i]), stdev);
    }
  }

  /** The rows of `aggregate_results`: one per distinct key of the runs, in ascending order of key. */
  method AggregateResults(results: seq<RunResult>, stdev: seq<real> -> real) returns (rows: seq<AggregateRow>)
    ensures AllPresent(results, SortedKeysOf(results))
    ensures rows == AggregateAll(results, SortedKeysOf(results), stdev)
    ensures AllSummarise(rows, results, SortedKeysOf(results), stdev)
  {
    var groups, order := GroupBy(results, KeyOf);
    var sorted := Sort(order, Identity<Key>(), KeyLe);
    SortedKeys(results);
    rows := [];
    for i := 0 to |sorted|
      invariant rows == AggregateAll(results, sorted[..i], stdev)
    {
      var row := AggregateGroup(results, sorted, i, Lookup(groups, sorted[i]), stdev);
      rows := rows + [row];
    }
    assert sorted[..|sorted|] == sorted;
    RowsSummarise(results, sorted, stdev);
  }

  method AggregateGroup(
    ghost results: seq<RunResult>, keys: seq<Key>, i: nat, items: seq<RunResult>, stdev: seq<real> -> real)
    returns (row: AggregateRow)
    requires AllPresent(results, keys) && i < |keys| && items == Select(results, KeyOf, keys[i])
    ensures AggregateAll(results, keys[..i + 1], stdev) == AggregateAll(results, keys[..i], stdev) + [row]
  {
    assert items != [];
    assert keys[..i + 1][..i] == keys[..i];
    row := AggregateOf(keys[i], items, stdev);
  }

  // ---------------------------------------------------------------- what an admitted run guarantees

  ghost predicate NamedCounts(m: map<string, nat>) {
    forall k :: k in m ==> !Text.Blank(k)
  }

  lemma CountTotalOf(m: map<string, nat>)
    ensures NamedCounts(m) ==> CountTotal(CountValues(m)) == Total(m)
    ensures !NamedCounts(m) ==> CountTotal(CountValues(m)) == -1
  {
    var entries := CountValues(m).entries;
    if NamedCounts(m) {
      assert AllCounts(entries);
      assert CountsIn(entries) == m;
    } else {
      var k :| k in m && Text.Blank(k);
      assert k in entries;
    }
  }

  ghost predicate Sound(r: RunResult) {
    && !Text.Blank(r.mode) && Allowed(Plain(Mode), r.mode) && !Text.Blank(r.client) && !Text.Blank(r.scenario)
    && r.concurrency >= 1 && r.requestLimit >= 0 && r.requests >= 1
    && r.errors >= 0 && r.okRequests >= 0 && r.okRequests + r.errors == r.requests && r.warmupErrors >= 0
    && r.requestsPerSecond >= 0.0 && r.okRequestsPerSecond >= 0.0
    && r.p50Ms >= 0.0 && r.p95Ms >= 0.0 && r.p99Ms >= 0.0
    && (r.peakRssMb.Some? ==> r.peakRssMb.value >= 0.0)
    && (r.peakThreads.Some? ==> r.peakThreads.value >= 0) && (r.peakFds.Some? ==> r.peakFds.value >= 0)
    && NamedCounts(r.errorTypes) && Total(r.errorTypes) == r.errors
    && NamedCounts(r.warmupErrorTypes) && Total(r.warmupErrorTypes) == r.warmupErrors
  }

  lemma RunTimes(row: Row, r: RunResult)
    requires RunFields(row, r) && ValidOptionalFields(row)
    ensures r.requestsPerSecond >= 0.0 && r.p50Ms >= 0.0 && r.p95Ms >= 0.0 && r.p99Ms >= 0.0
  {
    assert Obeys(Number(RequestsPerSecond), row[Number(RequestsPerSecond)]);
    assert Obeys(Number(P50Ms), row[Number(P50Ms)]) && Obeys(Number(P95Ms), row[Number(P95Ms)]);
    assert Obeys(Number(P99Ms), row[Number(P99Ms)]);
  }

  lemma RunResources(row: Row, r: RunResult)
    requires RunFields(row, r) && ValidOptionalFields(row)
    ensures r.peakRssMb.Some? ==> r.peakRssMb.value >= 0.0
    ensures r.peakThreads.Some? ==> r.peakThreads.value >= 0
    ensures r.peakFds.Some? ==> r.peakFds.value >= 0
  {
    assert Obeys(NullableNumber(PeakRssMb), row[NullableNumber(PeakRssMb)]);
    assert Obeys(NullableCount(PeakThreads), row[NullableCount(PeakThreads)]);
    assert Obeys(NullableCount(PeakFds), row[NullableCount(PeakFds)]);
  }

  lemma RunIdentity(row: Row, r: RunResult)
    requires RunFields(row, r) && ValidIdentity(Requests, row)
    ensures !Text.Blank(r.mode) && Allowed(Plain(Mode), r.mode) && !Text.Blank(r.client) && !Text.Blank(r.scenario)
    ensures r.concurrency >= 1 && r.requestLimit >= 0
  {
  }

  lemma RunCounts(row: Row, r: RunResult)
    requires RunFields(row, r) && HasInteger(row, Plain(Errors), 0)
    requires PrimaryOk(Requests, row, RunPrimary(Requests)) && RunBounds(Requests, row)
    ensures r.requests >= 1 && r.errors >= 0 && r.okRequests >= 0 && r.okRequests + r.errors == r.requests
    ensures r.warmupErrors >= 0 && r.okRequestsPerSecond >= 0.0
  {
  }

  ghost predicate ErrorCells(row: Row, r: RunResult) {
    && Cell(row, Plain(Errors), Int(r.errors)) && Cell(row, Plain(WarmupErrors), Int(r.warmupErrors))
    && Cell(row, Plain(ErrorTypes), CountValues(r.errorTypes))
    && Cell(row, Plain(WarmupErrorTypes), CountValues(r.warmupErrorTypes))
  }

  lemma RunCellHolds(row: Row, r: RunResult, f: Field, v: Value)
    requires RunFields(row, r) && RunValue(r, f) == Some(v)
    ensures Cell(row, f, v)
  {
  }

  lemma ErrorCellsHold(row: Row, r: RunResult)
    requires RunFields(row, r)
    ensures ErrorCells(row, r)
  {
    RunCellHolds(row, r, Plain(Errors), Int(r.errors));
    RunCellHolds(row, r, Plain(WarmupErrors), Int(r.warmupErrors));
    RunCellHolds(row, r, Plain(ErrorTypes), CountValues(r.errorTypes));
    RunCellHolds(row, r, Plain(WarmupErrorTypes), CountValues(r.warmupErrorTypes));
  }

  lemma RunErrorMaps(row: Row, r: RunResult)
    requires ErrorCells(row, r) && ErrorMaps(row, Plain(Errors), Plain(WarmupErrors))
    ensures CountTotal(CountValues(r.errorTypes)) == r.errors >= 0
    ensures CountTotal(CountValues(r.warmupErrorTypes)) == r.warmupErrors >= 0
  {
  }

  /** An admitted run row comes from a sound result. */
  lemma SoundFromRow(row: Row, r: RunResult)
    requires RunFields(row, r) && RunAdmitted(Requests, row)
    ensures Sound(r)
  {
    RunTimes(row, r);
    RunResources(row, r);
    RunIdentity(row, r);
    RunCounts(row, r);
    ErrorCellsHold(row, r);
    RunErrorMaps(row, r);
    CountTotalOf(r.errorTypes);
    CountTotalOf(r.warmupErrorTypes);
  }

  lemma RunSound(r: RunResult)
    requires RunAdmitted(Requests, RunRow(r))
    ensures Sound(r)
  {
    RunRowFields(r);
    SoundFromRow(RunRow(r), r);
  }
}
