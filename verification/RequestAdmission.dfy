/** The aggregates of sound request runs pass the row checks and the coverage checks against those very runs. */
module RequestAdmission {
  import opened Common
  import opened MapSums
  import opened Ordering
  import opened Grouping
  import opened Medians
  import opened ReportRows
  import opened OrdinaryRows
  import opened ResourceCoverage
  import opened RequestAggregation
  import Text

  /** A nonempty group of sound runs with one key. */
  ghost predicate Group(key: Key, items: seq<RunResult>) {
    && items != []
    && forall i :: 0 <= i < |items| ==> Sound(items[i]) && KeyOf(items[i]) == key
  }

  // ---------------------------------------------------------------- sums and medians

  lemma {:induction false} SumErrors(items: seq<RunResult>)
    requires forall i :: 0 <= i < |items| ==> Sound(items[i])
    ensures 0 <= SumInt(items, ErrorsIn) <= SumInt(items, RequestsIn)
    ensures 0 <= SumInt(items, WarmupErrorsIn)
    ensures items != [] ==> SumInt(items, RequestsIn) > 0
  {
    if items != [] { SumErrors(items[..|items| - 1]); }
  }

  /** With the same number of requests in every run, the errors stay within requests times repeats. */
  lemma {:induction false} UniformRequests(items: seq<RunResult>, requests: int)
    requires forall i :: 0 <= i < |items| ==> items[i].requests == requests
    ensures SumInt(items, RequestsIn) == requests * |items|
  {
    if items != [] {
      var n := |items| - 1;
      UniformRequests(items[..n], requests);
      assert requests * (n + 1) == requests * n + requests;
    }
  }

  /** Merged counters add up to the summed totals. */
  lemma {:induction false} MergedColumn(
    items: seq<RunResult>, f: RunResult -> map<string, nat>, total: RunResult -> int)
    requires forall i :: 0 <= i < |items| ==> NamedCounts(f(items[i])) && Total(f(items[i])) == total(items[i])
    ensures Total(AddAll(Column(items, f))) == SumInt(items, total)
    ensures NamedCounts(AddAll(Column(items, f)))
  {
    if items != [] {
      var n := |items| - 1;
      MergedColumn(items[..n], f, total);
      assert Column(items, f)[..n] == Column(items[..n], f);
      TotalAdd(AddAll(Column(items[..n], f)), f(items[n]));
    }
  }

  /** Merged error maps add up to the summed errors. */
  lemma MergedErrors(items: seq<RunResult>)
    requires forall i :: 0 <= i < |items| ==> Sound(items[i])
    ensures Total(AddAll(Column(items, ErrorTypesOf))) == SumInt(items, ErrorsIn)
    ensures Total(AddAll(Column(items, WarmupErrorTypesOf))) == SumInt(items, WarmupErrorsIn)
    ensures NamedCounts(AddAll(Column(items, ErrorTypesOf))) && NamedCounts(AddAll(Column(items, WarmupErrorTypesOf)))
  {
    forall i | 0 <= i < |items|
      ensures NamedCounts(ErrorTypesOf(items[i])) && Total(ErrorTypesOf(items[i])) == ErrorsIn(items[i])
      ensures NamedCounts(WarmupErrorTypesOf(items[i]))
      ensures Total(WarmupErrorTypesOf(items[i])) == WarmupErrorsIn(items[i])
    {
      assert Sound(items[i]);
    }
    MergedColumn(items, ErrorTypesOf, ErrorsIn);
    MergedColumn(items, WarmupErrorTypesOf, WarmupErrorsIn);
  }

  lemma MedianNonNegative(xs: seq<real>)
    requires xs != [] && NonNegativeAll(xs)
    ensures Median(xs) >= 0.0
  {
    LargestFacts(xs);
    MedianBetween(xs, 0.0, Largest(xs));
  }

  lemma RateWithin(errors: int, requests: int)
    requires 0 <= errors <= requests && 0 < requests
    ensures 0.0 <= ErrorRate(errors, requests) <= 100.0
  {
    Fraction(errors as real, requests as real);
  }

  lemma Fraction(a: real, b: real)
    requires 0.0 <= a <= b && b > 0.0
    ensures 0.0 <= a / b <= 1.0
  {
  }

  // ---------------------------------------------------------------- the aggregate's own columns

  ghost predicate SoundKey(key: Key) {
    && !Text.Blank(key.mode) && Allowed(Plain(Mode), key.mode) && !Text.Blank(key.client) && !Text.Blank(key.scenario)
    && key.concurrency >= 1 && key.requestLimit >= 0
  }

  ghost predicate SoundNumbers(a: AggregateRow) {
    && a.reqSMedian >= 0.0 && a.okReqSMedian >= 0.0 && a.reqSCvPercent >= 0.0
    && a.p50MsMedian >= 0.0 && a.p95MsMedian >= 0.0 && a.p99MsMedian >= 0.0
    && 0.0 <= a.errorRatePercent <= 100.0
  }

  ghost predicate SoundResources(a: AggregateRow) {
    && (a.rssMbMax.Some? ==> a.rssMbMax.value >= 0.0)
    && (a.threadsMax.Some? ==> a.threadsMax.value >= 0) && (a.fdsMax.Some? ==> a.fdsMax.value >= 0)
  }

  ghost predicate SoundCounts(a: AggregateRow) {
    && a.requests >= 1 && a.repeats >= 1 && a.errorsTotal >= 0 && a.warmupErrorsTotal >= 0
    && NamedCounts(a.errorTypes) && Total(a.errorTypes) == a.errorsTotal
    && NamedCounts(a.warmupErrorTypes) && Total(a.warmupErrorTypes) == a.warmupErrorsTotal
  }

  lemma NumbersSound(key: Key, items: seq<RunResult>, stdev: seq<real> -> real)
    requires Group(key, items) && forall xs :: stdev(xs) >= 0.0
    ensures SoundNumbers(AggregateOf(key, items, stdev))
  {
    MedianNonNegative(Reals(items, RateOf));
    MedianNonNegative(Reals(items, OkRateOf));
    MedianNonNegative(Reals(items, P50Of));
    MedianNonNegative(Reals(items, P95Of));
    MedianNonNegative(Reals(items, P99Of));
    VariationNonNegative(Reals(items, RateOf), stdev);
    SumErrors(items);
    RateWithin(SumInt(items, ErrorsIn), SumInt(items, RequestsIn));
  }

  lemma RssSound(items: seq<RunResult>)
    requires forall i :: 0 <= i < |items| ==> Sound(items[i])
    ensures var m := OptionalMax(Column(items, RssOf)); m.Some? ==> m.value >= 0.0
  {
    OptionalMaxFacts(Column(items, RssOf));
  }

  lemma ThreadsSound(items: seq<RunResult>)
    requires forall i :: 0 <= i < |items| ==> Sound(items[i])
    ensures var m := OptionalMaxInt(Column(items, ThreadsOf)); m.Some? ==> m.value >= 0
  {
    IntMaxFacts(Column(items, ThreadsOf));
  }

  lemma FdsSound(items: seq<RunResult>)
    requires forall i :: 0 <= i < |items| ==> Sound(items[i])
    ensures var m := OptionalMaxInt(Column(items, FdsOf)); m.Some? ==> m.value >= 0
  {
    IntMaxFacts(Column(items, FdsOf));
  }

  lemma ResourcesSound(key: Key, items: seq<RunResult>, stdev: seq<real> -> real)
    requires Group(key, items)
    ensures SoundResources(AggregateOf(key, items, stdev))
  {
    RssSound(items);
    ThreadsSound(items);
    FdsSound(items);
  }

  lemma CountsSound(key: Key, items: seq<RunResult>, stdev: seq<real> -> real)
    requires Group(key, items)
    ensures SoundCounts(AggregateOf(key, items, stdev)) && SoundKey(key)
  {
    SumErrors(items);
    MergedErrors(items);
    assert Sound(items[0]) && KeyOf(items[0]) == key;
  }

  // ---------------------------------------------------------------- the row checks

  ghost predicate KeyCells(row: Row, key: Key) {
    && Cell(row, Plain(Mode), Str(key.mode)) && Cell(row, Plain(Client), Str(key.client))
    && Cell(row, Plain(Scenario), Str(key.scenario)) && Cell(row, Plain(Concurrency), Int(key.concurrency))
    && Cell(row, Plain(RequestLimit), Int(key.requestLimit))
  }

  lemma KeyCellsHold(row: Row, a: AggregateRow)
    requires AggregateFields(row, a)
    ensures KeyCells(row, a.key)
  {
    CellHolds(row, a, Plain(Mode), Str(a.key.mode));
    CellHolds(row, a, Plain(Client), Str(a.key.client));
    CellHolds(row, a, Plain(Scenario), Str(a.key.scenario));
    CellHolds(row, a, Plain(Concurrency), Int(a.key.concurrency));
    CellHolds(row, a, Plain(RequestLimit), Int(a.key.requestLimit));
  }

  lemma IdentityHolds(row: Row, key: Key)
    requires KeyCells(row, key) && SoundKey(key)
    ensures ValidIdentity(Requests, row)
  {
  }

  ghost predicate CountCells(row: Row, a: AggregateRow) {
    && Cell(row, Plain(RequestCount), Int(a.requests)) && Cell(row, Plain(Repeats), Int(a.repeats))
    && Cell(row, Plain(ErrorsTotal), Int(a.errorsTotal))
    && Cell(row, Plain(WarmupErrorsTotal), Int(a.warmupErrorsTotal))
    && Cell(row, Plain(OkReqSMedian), Num(a.okReqSMedian))
  }

  ghost predicate MapCells(row: Row, a: AggregateRow) {
    && Cell(row, Plain(ErrorsTotal), Int(a.errorsTotal))
    && Cell(row, Plain(WarmupErrorsTotal), Int(a.warmupErrorsTotal))
    && Cell(row, Plain(ErrorTypes), CountValues(a.errorTypes))
    && Cell(row, Plain(WarmupErrorTypes), CountValues(a.warmupErrorTypes))
  }

  lemma CellHolds(row: Row, a: AggregateRow, f: Field, v: Value)
    requires AggregateFields(row, a) && AggregateValue(a, f) == Some(v)
    ensures Cell(row, f, v)
  {
  }

  lemma CountCellsHold(row: Row, a: AggregateRow)
    requires AggregateFields(row, a)
    ensures CountCells(row, a)
  {
    CellHolds(row, a, Plain(RequestCount), Int(a.requests));
    CellHolds(row, a, Plain(Repeats), Int(a.repeats));
    CellHolds(row, a, Plain(ErrorsTotal), Int(a.errorsTotal));
    CellHolds(row, a, Plain(WarmupErrorsTotal), Int(a.warmupErrorsTotal));
    CellHolds(row, a, Plain(OkReqSMedian), Num(a.okReqSMedian));
  }

  lemma MapCellsHold(row: Row, a: AggregateRow)
    requires AggregateFields(row, a)
    ensures MapCells(row, a)
  {
    CellHolds(row, a, Plain(ErrorsTotal), Int(a.errorsTotal));
    CellHolds(row, a, Plain(WarmupErrorsTotal), Int(a.warmupErrorsTotal));
    CellHolds(row, a, Plain(ErrorTypes), CountValues(a.errorTypes));
    CellHolds(row, a, Plain(WarmupErrorTypes), CountValues(a.warmupErrorTypes));
  }

  lemma BoundsHold(row: Row, a: AggregateRow)
    requires CountCells(row, a) && SoundCounts(a) && a.okReqSMedian >= 0.0
    ensures HasInteger(row, Plain(Repeats), 1) && HasInteger(row, Plain(ErrorsTotal), 0)
    ensures PrimaryOk(Requests, row, AggregatePrimary(Requests))
    ensures AggregateBounds(Requests, row) <==> a.errorsTotal <= a.requests * a.repeats
  {
  }

  lemma MapsHold(row: Row, a: AggregateRow)
    requires MapCells(row, a) && SoundCounts(a)
    ensures ErrorMaps(row, Plain(ErrorsTotal), Plain(WarmupErrorsTotal))
  {
    CountTotalOf(a.errorTypes);
    CountTotalOf(a.warmupErrorTypes);
  }

  lemma OptionalHolds(row: Row, a: AggregateRow)
    requires AggregateFields(row, a) && SoundNumbers(a) && SoundResources(a)
    ensures ValidOptionalFields(row)
  {
    forall f | f in row ensures Obeys(f, row[f]) {
      ColumnObeys(row, a, f);
    }
  }

  lemma ColumnObeys(row: Row, a: AggregateRow, f: Field)
    requires AggregateFields(row, a) && SoundNumbers(a) && SoundResources(a) && f in row
    ensures Obeys(f, row[f])
  {
    assert row[f] == AggregateValue(a, f).value;
  }

  lemma RowAdmittedIff(row: Row, a: AggregateRow)
    requires AggregateFields(row, a) && SoundKey(a.key)
    requires SoundCounts(a) && SoundNumbers(a) && SoundResources(a)
    ensures AggregateAdmitted(Requests, row) <==> a.errorsTotal <= a.requests * a.repeats
  {
    CountCellsHold(row, a);
    MapCellsHold(row, a);
    KeyCellsHold(row, a);
    IdentityHolds(row, a.key);
    BoundsHold(row, a);
    MapsHold(row, a);
    OptionalHolds(row, a);
  }

  lemma ErrorsFit(items: seq<RunResult>)
    requires items != [] && forall i :: 0 <= i < |items| ==> Sound(items[i])
    requires forall i :: 0 <= i < |items| ==> items[i].requests == items[0].requests
    ensures SumInt(items, ErrorsIn) <= items[0].requests * |items|
  {
    UniformRequests(items, items[0].requests);
    SumErrors(items);
  }

  /**
   The aggregate of a group of admitted runs passes every row check exactly when its errors fit the first run's
   request count times the repeats; by `ErrorsFit` they do when all runs made the same number of requests.
   */
  lemma AggregateAdmittedIff(key: Key, items: seq<RunResult>, stdev: seq<real> -> real)
    requires Group(key, items) && forall xs :: stdev(xs) >= 0.0
    ensures AggregateAdmitted(Requests, RowOf(AggregateOf(key, items, stdev)))
      <==> SumInt(items, ErrorsIn) <= items[0].requests * |items|
  {
    var a := AggregateOf(key, items, stdev);
    NumbersSound(key, items, stdev);
    ResourcesSound(key, items, stdev);
    CountsSound(key, items, stdev);
    RowFields(a);
    RowAdmittedIff(RowOf(a), a);
  }

  // ---------------------------------------------------------------- identities

  function KeyIdentity(key: Key): seq<string> {
    [key.mode, key.client, key.scenario, Text.IntText(key.concurrency), Text.IntText(key.requestLimit)]
  }

  lemma KeyIdentityInjective(a: Key, b: Key)
    requires KeyIdentity(a) == KeyIdentity(b)
    ensures a == b
  {
    assert KeyIdentity(a)[0] == KeyIdentity(b)[0] && KeyIdentity(a)[1] == KeyIdentity(b)[1];
    assert KeyIdentity(a)[2] == KeyIdentity(b)[2] && KeyIdentity(a)[3] == KeyIdentity(b)[3];
    assert KeyIdentity(a)[4] == KeyIdentity(b)[4];
    Text.IntTextInjective(a.concurrency, b.concurrency);
    Text.IntTextInjective(a.requestLimit, b.requestLimit);
  }

  /** A row whose key columns are those of `key`. */
  ghost predicate Keyed(row: Row, key: Key) {
    forall c: PlainColumn :: KeyValue(key, c).Some? ==> Plain(c) in row && row[Plain(c)] == KeyValue(key, c).value
  }

  lemma KeyedIdentity(row: Row, key: Key)
    requires Keyed(row, key) && SoundKey(key)
    ensures HasIdentity(Requests, row) && AggregateIdentity(Requests, row) == KeyIdentity(key)
  {
    assert KeyValue(key, Mode).Some? && KeyValue(key, Client).Some? && KeyValue(key, Scenario).Some?;
    assert KeyValue(key, Concurrency).Some? && KeyValue(key, RequestLimit).Some?;
    var fields := IdentityFields(Requests);
    assert fields == [Plain(Scenario), Plain(Concurrency), Plain(RequestLimit)];
    assert Texts(row, fields) == [key.scenario, Text.IntText(key.concurrency), Text.IntText(key.requestLimit)];
  }

  lemma RunKeyed(r: RunResult)
    requires SoundKey(KeyOf(r))
    ensures HasIdentity(Requests, RunRow(r)) && AggregateIdentity(Requests, RunRow(r)) == KeyIdentity(KeyOf(r))
  {
    RunRowFields(r);
    KeyedIdentity(RunRow(r), KeyOf(r));
  }

  lemma RowKeyed(a: AggregateRow)
    requires SoundKey(a.key)
    ensures HasIdentity(Requests, RowOf(a)) && AggregateIdentity(Requests, RowOf(a)) == KeyIdentity(a.key)
  {
    RowFields(a);
    KeyedIdentity(RowOf(a), a.key);
  }

  lemma RunRowsSnoc(runs: seq<RunResult>, r: RunResult)
    ensures RunRows(runs + [r]) == RunRows(runs) + [RunRow(r)]
  {
  }

  /** Grouping by written identity is grouping by key. */
  lemma {:induction false} RunsByKey(results: seq<RunResult>, key: Key)
    requires forall i :: 0 <= i < |results| ==> SoundKey(KeyOf(results[i]))
    ensures RunsOf(Requests, RunRows(results), KeyIdentity(key)) == RunRows(Select(results, KeyOf, key))
  {
    if results != [] {
      var init, last := results[..|results| - 1], results[|results| - 1];
      assert results == init + [last];
      RunsByKey(init, key);
      RunByKey(init, last, key);
    }
  }

  lemma SameIdentitySameKey(r: RunResult, key: Key)
    requires SoundKey(KeyOf(r))
    ensures AggregateIdentity(Requests, RunRow(r)) == KeyIdentity(key) <==> KeyOf(r) == key
  {
    RunKeyed(r);
    if KeyIdentity(KeyOf(r)) == KeyIdentity(key) { KeyIdentityInjective(KeyOf(r), key); }
  }

  lemma RunByKey(init: seq<RunResult>, last: RunResult, key: Key)
    requires SoundKey(KeyOf(last))
    requires RunsOf(Requests, RunRows(init), KeyIdentity(key)) == RunRows(Select(init, KeyOf, key))
    ensures RunsOf(Requests, RunRows(init + [last]), KeyIdentity(key)) == RunRows(Select(init + [last], KeyOf, key))
  {
    SameIdentitySameKey(last, key);
    RunRowsSnoc(init, last);
    RunRowsSnoc(Select(init, KeyOf, key), last);
    SelectSnoc(init, last, KeyOf, key);
    SelectSnoc(RunRows(init), RunRow(last), IdentityIn(Requests), KeyIdentity(key));
  }

  // ---------------------------------------------------------------- coverage

  /** Counting the rows that record a metric counts the runs that observed it. */
  lemma {:induction false} PresentInRows<T>(items: seq<RunResult>, metric: Field, f: RunResult -> Option<T>)
    requires forall r: RunResult :: ObservedIn(RunRow(r), metric) == f(r).Some?
    ensures AvailableIn(RunRows(items), metric) == |Present(Column(items, f))|
  {
    if items != [] {
      var init, last := items[..|items| - 1], items[|items| - 1];
      PresentInRows(init, metric, f);
      assert RunRows(items)[..|init|] == RunRows(init);
      assert Column(items, f)[..|init|] == Column(init, f);
      assert ObservedIn(RunRow(last), metric) == f(last).Some?;
    }
  }

  lemma ResourcesInRows(items: seq<RunResult>)
    ensures AvailableIn(RunRows(items), NullableNumber(RssMbMax)) == |Present(Column(items, RssOf))|
    ensures AvailableIn(RunRows(items), NullableCount(ThreadsMax)) == |Present(Column(items, ThreadsOf))|
    ensures AvailableIn(RunRows(items), NullableCount(FdsMax)) == |Present(Column(items, FdsOf))|
  {
    forall r: RunResult ensures ObservedIn(RunRow(r), NullableNumber(RssMbMax)) == RssOf(r).Some? { RssObserved(r); }
    forall r: RunResult ensures ObservedIn(RunRow(r), NullableCount(ThreadsMax)) == ThreadsOf(r).Some? {
      ThreadsObserved(r);
    }
    forall r: RunResult ensures ObservedIn(RunRow(r), NullableCount(FdsMax)) == FdsOf(r).Some? { FdsObserved(r); }
    PresentInRows(items, NullableNumber(RssMbMax), RssOf);
    PresentInRows(items, NullableCount(ThreadsMax), ThreadsOf);
    PresentInRows(items, NullableCount(FdsMax), FdsOf);
  }

  lemma CellObserved(row: Row, metric: Field, raw: Field, v: Value)
    requires RawField(metric) == Some(raw) && Cell(row, raw, v)
    ensures ObservedIn(row, metric) == !v.Null?
  {
  }

  lemma RssObserved(r: RunResult)
    ensures ObservedIn(RunRow(r), NullableNumber(RssMbMax)) == RssOf(r).Some?
  {
    RunRowFields(r);
    RunCellHolds(RunRow(r), r, NullableNumber(PeakRssMb), NumberValue(r.peakRssMb));
    CellObserved(RunRow(r), NullableNumber(RssMbMax), NullableNumber(PeakRssMb), NumberValue(r.peakRssMb));
  }

  lemma ThreadsObserved(r: RunResult)
    ensures ObservedIn(RunRow(r), NullableCount(ThreadsMax)) == ThreadsOf(r).Some?
  {
    RunRowFields(r);
    RunCellHolds(RunRow(r), r, NullableCount(PeakThreads), IntValue(r.peakThreads));
    CellObserved(RunRow(r), NullableCount(ThreadsMax), NullableCount(PeakThreads), IntValue(r.peakThreads));
  }

  lemma FdsObserved(r: RunResult)
    ensures ObservedIn(RunRow(r), NullableCount(FdsMax)) == FdsOf(r).Some?
  {
    RunRowFields(r);
    RunCellHolds(RunRow(r), r, NullableCount(PeakFds), IntValue(r.peakFds));
    CellObserved(RunRow(r), NullableCount(FdsMax), NullableCount(PeakFds), IntValue(r.peakFds));
  }

  /** The three resource columns and their coverage, as the checks read them. */
  ghost predicate ResourceCells(
    row: Row, rss: Option<real>, threads: Option<int>, fds: Option<int>, coverage: map<Field, Observation>,
    repeats: int)
  {
    && Cell(row, NullableNumber(RssMbMax), NumberValue(rss))
    && Cell(row, NullableCount(ThreadsMax), IntValue(threads))
    && Cell(row, NullableCount(FdsMax), IntValue(fds))
    && Cell(row, Plain(Coverage), Observed(coverage))
    && Cell(row, Plain(Repeats), Int(repeats))
  }

  lemma ResourceCellsHold(row: Row, a: AggregateRow)
    requires AggregateFields(row, a)
    ensures ResourceCells(row, a.rssMbMax, a.threadsMax, a.fdsMax, a.coverage, a.repeats)
  {
    CellHolds(row, a, NullableNumber(RssMbMax), NumberValue(a.rssMbMax));
    CellHolds(row, a, NullableCount(ThreadsMax), IntValue(a.threadsMax));
    CellHolds(row, a, NullableCount(FdsMax), IntValue(a.fdsMax));
    CellHolds(row, a, Plain(Coverage), Observed(a.coverage));
    CellHolds(row, a, Plain(Repeats), Int(a.repeats));
  }

  ghost predicate ResourcesOf(row: Row, items: seq<RunResult>) {
    ResourceCells(row, OptionalMax(Column(items, RssOf)), OptionalMaxInt(Column(items, ThreadsOf)),
                  OptionalMaxInt(Column(items, FdsOf)), CoverageMap(items), |items|)
  }

  lemma ResourcesHold(key: Key, items: seq<RunResult>, stdev: seq<real> -> real)
    requires items != []
    ensures ResourcesOf(RowOf(AggregateOf(key, items, stdev)), items)
  {
    var a := AggregateOf(key, items, stdev);
    RowFields(a);
    ResourceCellsHold(RowOf(a), a);
  }

  lemma CoverageFacts<T>(values: seq<Option<T>>)
    ensures var c := CoverageOfValues(values);
      && 0 <= c.available <= c.expected == |values| && c.available == |Present(values)|
      && (c.available == 0 <==> forall i :: 0 <= i < |values| ==> values[i].None?)
  {
    PresentFacts(values);
  }

  lemma CoverageEntries(items: seq<RunResult>, m: Field)
    requires m in CoverageMap(items)
    ensures 0 <= CoverageMap(items)[m].available <= CoverageMap(items)[m].expected == |items|
    ensures m == NullableNumber(RssMbMax) || m == NullableCount(ThreadsMax) || m == NullableCount(FdsMax)
  {
    CoverageFacts(Column(items, RssOf));
    CoverageFacts(Column(items, ThreadsOf));
    CoverageFacts(Column(items, FdsOf));
  }

  lemma RssConsistent(items: seq<RunResult>)
    ensures NumberValue(OptionalMax(Column(items, RssOf))).Null?
      <==> CoverageMap(items)[NullableNumber(RssMbMax)].available == 0
  {
    CoverageFacts(Column(items, RssOf));
    OptionalMaxFacts(Column(items, RssOf));
  }

  lemma CountsConsistent(items: seq<RunResult>)
    ensures IntValue(OptionalMaxInt(Column(items, ThreadsOf))).Null?
      <==> CoverageMap(items)[NullableCount(ThreadsMax)].available == 0
    ensures IntValue(OptionalMaxInt(Column(items, FdsOf))).Null?
      <==> CoverageMap(items)[NullableCount(FdsMax)].available == 0
  {
    CoverageFacts(Column(items, ThreadsOf));
    CoverageFacts(Column(items, FdsOf));
    IntMaxFacts(Column(items, ThreadsOf));
    IntMaxFacts(Column(items, FdsOf));
  }

  /** A metric is null in the row exactly when its coverage says no run observed it. */
  lemma CoverageIsValid(row: Row, items: seq<RunResult>)
    requires ResourcesOf(row, items) && items != []
    ensures ValidCoverage(row, true) && ExpectedMatches(row) && CoverageIn(row) == CoverageMap(items)
  {
    RssConsistent(items);
    CountsConsistent(items);
    forall m | m in CoverageMap(items)
      ensures 0 <= CoverageMap(items)[m].available <= CoverageMap(items)[m].expected == |items|
      ensures m in row && (row[m].Null? <==> CoverageMap(items)[m].available == 0)
    {
      CoverageEntries(items, m);
    }
  }

  lemma CoverageIsExact(row: Row, items: seq<RunResult>)
    requires ResourcesOf(row, items) && CoverageIn(row) == CoverageMap(items)
    ensures AvailableMatches(row, RunRows(items))
  {
    forall m | m in CoverageMap(items) ensures CoverageMap(items)[m].available == AvailableIn(RunRows(items), m) {
      ExactEntry(items, m);
    }
  }

  lemma ExactEntry(items: seq<RunResult>, m: Field)
    requires m in CoverageMap(items)
    ensures CoverageMap(items)[m].available == AvailableIn(RunRows(items), m)
  {
    CoverageEntries(items, m);
    ResourcesInRows(items);
  }

  // ---------------------------------------------------------------- the whole report

  /** Runs that were individually admitted, with one request count per group. */
  ghost predicate Uniform(results: seq<RunResult>) {
    forall i, j :: 0 <= i < |results| && 0 <= j < |results| && KeyOf(results[i]) == KeyOf(results[j]) ==>
      results[i].requests == results[j].requests
  }

  lemma GroupOf(results: seq<RunResult>, key: Key)
    requires forall i :: 0 <= i < |results| ==> Sound(results[i])
    requires Select(results, KeyOf, key) != []
    ensures Group(key, Select(results, KeyOf, key))
    ensures Uniform(results) ==> forall i :: 0 <= i < |Select(results, KeyOf, key)| ==>
      Select(results, KeyOf, key)[i].requests == Select(results, KeyOf, key)[0].requests
  {
    SelectFacts(results, KeyOf, key);
    var items := Select(results, KeyOf, key);
    forall i | 0 <= i < |items| ensures Sound(items[i]) && KeyOf(items[i]) == key {
      assert items[i] in results;
    }
    if Uniform(results) {
      forall i | 0 <= i < |items| ensures items[i].requests == items[0].requests {
        assert items[i] in results && items[0] in results;
      }
    }
  }

  lemma SoundKeys(results: seq<RunResult>)
    requires forall i :: 0 <= i < |results| ==> Sound(results[i])
    ensures forall i :: 0 <= i < |results| ==> SoundKey(KeyOf(results[i]))
  {
  }

  /** One aggregate of a report, checked against the report's runs. */
  lemma RowStands(results: seq<RunResult>, key: Key, stdev: seq<real> -> real)
    requires forall i :: 0 <= i < |results| ==> Sound(results[i])
    requires Uniform(results) && Select(results, KeyOf, key) != [] && forall xs :: stdev(xs) >= 0.0
    ensures var row := RowOf(AggregateOf(key, Select(results, KeyOf, key), stdev));
      && AggregateAdmitted(Requests, row)
      && RowCovered(Requests, row, RunRows(results), true)
      && AggregateIdentity(Requests, row) == KeyIdentity(key)
  {
    var items := Select(results, KeyOf, key);
    var a := AggregateOf(key, items, stdev);
    GroupOf(results, key);
    ErrorsFit(items);
    AggregateAdmittedIff(key, items, stdev);
    CountsSound(key, items, stdev);
    RowKeyed(a);
    SoundKeys(results);
    RunsByKey(results, key);
    ResourcesHold(key, items, stdev);
    CoverageIsValid(RowOf(a), items);
    CoverageIsExact(RowOf(a), items);
  }

  lemma DistinctKeysOfRuns(results: seq<RunResult>, keys: seq<Key>)
    requires multiset(keys) == multiset(KeysOf(results, KeyOf))
    ensures forall i, j :: 0 <= i < j < |keys| ==> keys[i] != keys[j]
  {
    KeysFacts(results, KeyOf);
    PermutedDistinct(KeysOf(results, KeyOf), keys, Identity<Key>());
  }

  ghost predicate StandsAt(runs: seq<Row>, keys: seq<Key>, rows: seq<Row>, i: nat)
    requires i < |rows| && i < |keys|
  {
    && AggregateAdmitted(Requests, rows[i]) && RowCovered(Requests, rows[i], runs, true)
    && AggregateIdentity(Requests, rows[i]) == KeyIdentity(keys[i])
  }

  lemma RowStandsAt(results: seq<RunResult>, keys: seq<Key>, stdev: seq<real> -> real, i: nat)
    requires forall k :: 0 <= k < |results| ==> Sound(results[k])
    requires Uniform(results) && AllPresent(results, keys) && i < |keys| && forall xs :: stdev(xs) >= 0.0
    ensures |AggregateAll(results, keys, stdev)| == |keys|
    ensures StandsAt(RunRows(results), keys, RowsOf(AggregateAll(results, keys, stdev)), i)
  {
    AggregateAllAt(results, keys, stdev, i);
    RowStands(results, keys[i], stdev);
  }

  lemma DistinctIdentities(results: seq<RunResult>, keys: seq<Key>, rows: seq<Row>)
    requires multiset(keys) == multiset(KeysOf(results, KeyOf)) && |rows| == |keys|
    requires forall i :: 0 <= i < |rows| ==> AggregateIdentity(Requests, rows[i]) == KeyIdentity(keys[i])
    ensures AllDistinct(Identities(Requests, rows))
  {
    DistinctKeysOfRuns(results, keys);
    forall i, j | 0 <= i < j < |rows| ensures Identities(Requests, rows)[i] != Identities(Requests, rows)[j] {
      if KeyIdentity(keys[i]) == KeyIdentity(keys[j]) { KeyIdentityInjective(keys[i], keys[j]); }
    }
  }

  lemma RowsStand(keys: seq<Key>, rows: seq<Row>, runs: seq<Row>)
    requires |rows| == |keys| && forall i :: 0 <= i < |runs| ==> RunAdmitted(Requests, runs[i])
    requires forall i :: 0 <= i < |rows| ==> StandsAt(runs, keys, rows, i)
    ensures RowsAdmitted(Requests, rows, runs)
  {
    forall i | 0 <= i < |rows| ensures AggregateAdmitted(Requests, rows[i]) {
      assert StandsAt(runs, keys, rows, i);
    }
  }

  lemma CoverageStands(keys: seq<Key>, rows: seq<Row>, runs: seq<Row>)
    requires |rows| == |keys|
    requires forall i :: 0 <= i < |rows| ==> StandsAt(runs, keys, rows, i)
    ensures CoverageAdmitted(Requests, rows, runs, true)
    ensures forall i :: 0 <= i < |rows| ==> AggregateIdentity(Requests, rows[i]) == KeyIdentity(keys[i])
  {
    forall i | 0 <= i < |rows|
      ensures RowCovered(Requests, rows[i], runs, true) && AggregateIdentity(Requests, rows[i]) == KeyIdentity(keys[i])
    {
      assert StandsAt(runs, keys, rows, i);
    }
  }

  /**
   Producer and checks agree: for any list of individually admitted runs with one request count per group, the
   aggregate rows pass the row checks, their coverage agrees with those same runs, and their identities are distinct.
   */
  lemma AggregationAdmitted(results: seq<RunResult>, stdev: seq<real> -> real)
    requires forall i :: 0 <= i < |results| ==> RunAdmitted(Requests, RunRows(results)[i])
    requires Uniform(results) && forall xs :: stdev(xs) >= 0.0
    ensures AllPresent(results, SortedKeysOf(results))
    ensures var rows := RowsOf(AggregateAll(results, SortedKeysOf(results), stdev));
      && |rows| == |SortedKeysOf(results)|
      && RowsAdmitted(Requests, rows, RunRows(results))
      && CoverageAdmitted(Requests, rows, RunRows(results), true)
      && AllDistinct(Identities(Requests, rows))
  {
    SortedKeys(results);
    AllSound(results);
    RowsOfKeysAdmitted(results, SortedKeysOf(results), stdev);
  }

  lemma AllSound(results: seq<RunResult>)
    requires forall i :: 0 <= i < |results| ==> RunAdmitted(Requests, RunRows(results)[i])
    ensures forall i :: 0 <= i < |results| ==> Sound(results[i])
  {
    forall i | 0 <= i < |results| ensures Sound(results[i]) {
      assert RunAdmitted(Requests, RunRows(results)[i]);
      RunSound(results[i]);
    }
  }

  lemma RowsOfKeysAdmitted(results: seq<RunResult>, keys: seq<Key>, stdev: seq<real> -> real)
    requires forall i :: 0 <= i < |results| ==> RunAdmitted(Requests, RunRows(results)[i])
    requires forall i :: 0 <= i < |results| ==> Sound(results[i])
    requires Uniform(results) && forall xs :: stdev(xs) >= 0.0
    requires multiset(keys) == multiset(KeysOf(results, KeyOf)) && AllPresent(results, keys)
    ensures var rows := RowsOf(AggregateAll(results, keys, stdev));
      && |rows| == |keys|
      && RowsAdmitted(Requests, rows, RunRows(results))
      && CoverageAdmitted(Requests, rows, RunRows(results), true)
      && AllDistinct(Identities(Requests, rows))
  {
    var rows := RowsOf(AggregateAll(results, keys, stdev));
    AggregateAllLength(results, keys, stdev);
    forall i | 0 <= i < |rows| ensures StandsAt(RunRows(results), keys, rows, i) {
      RowStandsAt(results, keys, stdev, i);
    }
    RowsStand(keys, rows, RunRows(results));
    CoverageStands(keys, rows, RunRows(results));
    DistinctIdentities(results, keys, rows);
  }
}
