/** Report rows as JSON objects: the fields that are read, the values they may hold, and a row's identity. */
module ReportRows {
  import opened Common
  import opened Text

  datatype Suite =
    | Requests
    | CompressedResponse
    | ClientCreation
    | ResourceBackpressure
    | OneUpstream
    | RequestBuilder
    | ResponseStreaming
    | ProxyConnect

  /**
   The JSON keys that some check or transformation looks at, sorted by what the optional-column checks demand of them
   when they are present.
   */
  datatype Field =
    | Plain(plain: PlainColumn)
    | Number(number: NumberColumn)
    | NullableNumber(nullableNumber: NullableNumberColumn)
    | Count(count: CountColumn)
    | NullableCount(nullableCount: NullableCountColumn)
    | FinalStat(stat: Stat)
    | Delta(phase: Phase, measure: Measure)
    | DeltaMax(phase: Phase, measure: Measure)
    | NestedCounts(nested: NestedColumn)

  datatype PlainColumn =
    | Mode | Client | Scenario | Case | Group | Profile | Kind | ReadMode | Consume | TargetScheme | ProxyConfig
    | Lifecycle | Concurrency | RequestLimit | MaxConnections | ClientCount | Iterations | PerOriginRequestLimit
    | MaxPendingRequests | ThroughputScope | TimingScope | Repeats | Repeat | RequestCount | Errors | ErrorsTotal
    | WarmupErrors | WarmupErrorsTotal | ErrorTypes | WarmupErrorTypes | ErrorRatePercent | Coverage | OkReqSMedian
    | OpsSMedian | OkStreamsSMedian | OkRequestsPerSecond | OperationsPerSecond | OkStreamsPerSecond

  datatype NumberColumn =
    | ReqSMedian | ReqSCvPercent | OpsSCvPercent | StreamsSMedian | StreamsSCvPercent | DurationMsMedian
    | DurationSMedian | DurationSCvPercent | MbSMedian | LinesSMedian | P50MsMedian | P95MsMedian | P99MsMedian
    | DurationS | RequestsPerSecond | StreamsPerSecond | MbPerSecond | LinesPerSecond | P50Ms | P90Ms | P95Ms
    | P99Ms | MinMs | MaxMs | ProcessCpuS | PoolTimeoutS

  datatype NullableNumberColumn =
    | FirstChunkP50MsMedian | FirstChunkP95MsMedian | FirstChunkP50Ms | FirstChunkP95Ms | CloseP50MsMedian
    | CloseP95MsMedian | CloseP50Ms | CloseP95Ms | BaselineRatio | DirectRatio | RssMbMax | PeakRssMb

  datatype CountColumn =
    | OkRequestsTotal | OkStreamsTotal | OkRequests | OkStreams | BytesReadTotal | ChunksReadTotal
    | TextCharsReadTotal | LinesReadTotal | VerifiedEofBytesTotal | VerifiedEofChunksTotal | RecoveryFailures
    | MeasuredProxyHttpRequestsMax | MeasuredProxyConnectRequestsMax | TotalProxyHttpRequestsMax
    | TotalProxyConnectRequestsMax | ProxyAuthorizationHeadersMax | Warmup

  datatype NullableCountColumn =
    | ThreadsMax | FdsMax | PeakThreads | PeakFds | MaxBufferedResponseBytes | MaxResponseBodySize
    | PeakActiveRequestsMax | PeakPendingRequestsMax | PeakBufferedResponseBytesMax | PeakActiveRequests
    | PeakPendingRequests | PeakBufferedResponseBytes

  datatype NestedColumn = ClientStats | MeasuredProxy | TotalProxy

  datatype Phase = Peak | End

  datatype Measure = Rss | Threads | Fds

  /** The client counters behind the `final_..._max` columns. */
  datatype Stat =
    | FailedRequests | PoolTimeouts | BufferedResponseBytes | BufferedResponseBudgetRejections | ActiveRequests
    | ResponseBodyClosed | ResponseBodyReuseEligible | ResponseBodyAborted
    | ConnectionsOpened | ConnectionsReused | ConnectionsClosed | ConnectionsAborted | IdleConnections

  /** One metric of `resource_coverage`. */
  datatype Observation = Observation(available: int, expected: int, reasons: seq<string>)

  datatype Value =
    | Null
    | Bool(flag: bool)
    | Int(n: int)
    | Num(x: real)
    | Str(s: string)
    | Counts(entries: map<string, Value>)
    | Stats(stats: map<Stat, Value>)
    | Observed(metrics: map<Field, Observation>)

  type Row = map<Field, Value>

  // ---------------------------------------------------------------- building rows

  function AllFields(): set<Field> {
    (set c: PlainColumn :: Plain(c)) + (set c: NumberColumn :: Number(c))
    + (set c: NullableNumberColumn :: NullableNumber(c)) + (set c: CountColumn :: Count(c))
    + (set c: NullableCountColumn :: NullableCount(c)) + (set c: Stat :: FinalStat(c))
    + (set p: Phase, m: Measure :: Delta(p, m)) + (set p: Phase, m: Measure :: DeltaMax(p, m))
    + (set c: NestedColumn :: NestedCounts(c))
  }

  lemma EveryField(f: Field)
    ensures f in AllFields()
  {
    match f
    case Plain(c) =>
    case Number(c) =>
    case NullableNumber(c) =>
    case Count(c) =>
    case NullableCount(c) =>
    case FinalStat(c) =>
    case Delta(p, m) =>
    case DeltaMax(p, m) =>
    case NestedCounts(c) =>
  }

  /** The object with exactly the fields a record gives a value. */
  function RowFrom(value: Field -> Option<Value>): (row: Row)
    ensures forall f :: f in row <==> value(f).Some?
    ensures forall f :: f in row ==> row[f] == value(f).value
  {
    assert forall f :: f in AllFields() by {
      forall f ensures f in AllFields() { EveryField(f); }
    }
    map f | f in AllFields() && value(f).Some? :: value(f).value
  }

  // ---------------------------------------------------------------- required values

  predicate IsString(row: Row, f: Field) {
    f in row && row[f].Str? && !Blank(row[f].s)
  }

  predicate IsInteger(v: Value, minimum: int) {
    v.Int? && v.n >= minimum
  }

  predicate HasInteger(row: Row, f: Field, minimum: int) {
    f in row && IsInteger(row[f], minimum)
  }

  function NumberOf(v: Value): Option<real> {
    match v
    case Int(n) => Some(n as real)
    case Num(x) => Some(x)
    case _ => None
  }

  predicate IsNumber(v: Value, atLeast: Option<real>) {
    NumberOf(v).Some? && (atLeast.Some? ==> NumberOf(v).value >= atLeast.value)
  }

  predicate HasNumber(row: Row, f: Field) {
    f in row && IsNumber(row[f], Some(0.0))
  }

  function IntegerIn(row: Row, f: Field): int {
    if f in row && row[f].Int? then row[f].n else 0
  }

  // ---------------------------------------------------------------- identity

  /** The workload fields of a suite's identity, in order. */
  function IdentityFields(suite: Suite): seq<Field> {
    match suite
    case Requests => [Plain(Scenario), Plain(Concurrency), Plain(RequestLimit)]
    case CompressedResponse => [Plain(Scenario), Plain(Concurrency), Plain(RequestLimit)]
    case ClientCreation => [Plain(Scenario), Plain(ClientCount), Plain(Iterations)]
    case ResourceBackpressure =>
      [Plain(Scenario), Plain(Concurrency), Plain(RequestLimit), Plain(PerOriginRequestLimit),
       Plain(MaxPendingRequests), NullableCount(MaxBufferedResponseBytes)]
    case OneUpstream => [Plain(Group), Plain(Case), Plain(Profile), Plain(Concurrency), Plain(RequestLimit)]
    case RequestBuilder => [Plain(Kind), Plain(Group), Plain(Case), Plain(Profile), Plain(Iterations)]
    case ResponseStreaming => [Plain(Case), Plain(ReadMode), Plain(Consume), Plain(Concurrency), Plain(RequestLimit)]
    case ProxyConnect =>
      [Plain(Case), Plain(Group), Plain(TargetScheme), Plain(ProxyConfig), Plain(Lifecycle), Plain(Concurrency),
       Plain(RequestLimit)]
  }

  /** An identity field holds a string, an integer or nothing. */
  predicate Textual(row: Row, f: Field) {
    f in row ==> row[f].Str? || row[f].Int? || row[f].Null?
  }

  /** The value an identity sees: an absent field reads as null. */
  function Effective(row: Row, f: Field): Value {
    if f in row then row[f] else Null
  }

  function FieldText(row: Row, f: Field): string {
    match Effective(row, f)
    case Str(s) => s
    case Int(n) => IntText(n)
    case _ => "-"
  }

  predicate Research(row: Row) {
    Plain(Profile) in row && (row[Plain(Profile)] == Str("lifecycle") || row[Plain(Profile)] == Str("async-bytes"))
  }

  /** Exactly two profiles are research profiles; a row without a profile is ordinary. */
  lemma ResearchIff(row: Row)
    ensures Research(row) <==> Effective(row, Plain(Profile)) in {Str("lifecycle"), Str("async-bytes")}
  {
  }

  const LEGACY_THROUGHPUT := "legacy-observed-v1"
  const LEGACY_TIMING := "legacy-sampler-v1"

  function ScopeText(row: Row, f: Field, legacy: string): string {
    if f in row && row[f].Str? then row[f].s else legacy
  }

  /** The scopes a streaming row declares, if it declares any. */
  function Scopes(row: Row): seq<string> {
    if Plain(ThroughputScope) in row || Plain(TimingScope) in row then
      [ScopeText(row, Plain(ThroughputScope), LEGACY_THROUGHPUT), ScopeText(row, Plain(TimingScope), LEGACY_TIMING)]
    else []
  }

  predicate HasIdentity(suite: Suite, row: Row) {
    && IsString(row, Plain(Mode)) && IsString(row, Plain(Client))
    && (forall f :: f in IdentityFields(suite) ==> Textual(row, f))
    && (suite == ResponseStreaming ==>
          && !Research(row)
          && (Plain(ThroughputScope) in row ==> IsString(row, Plain(ThroughputScope)))
          && (Plain(TimingScope) in row ==> IsString(row, Plain(TimingScope))))
  }

  function Texts(row: Row, fields: seq<Field>): seq<string> {
    seq(|fields|, i requires 0 <= i < |fields| => FieldText(row, fields[i]))
  }

  /**
   `aggregate_identity`: mode, client, workload fields, and the scopes of a streaming row. The empty list stands for
   the rows that have no identity, which the code refuses.
   */
  function AggregateIdentity(suite: Suite, row: Row): seq<string> {
    if !HasIdentity(suite, row) then []
    else
      [row[Plain(Mode)].s, row[Plain(Client)].s] + Texts(row, IdentityFields(suite))
        + if suite == ResponseStreaming then Scopes(row) else []
  }

  function ComparisonGroup(identity: seq<string>): seq<string>
    requires |identity| >= 2
  {
    identity[..1] + identity[2..]
  }

  /** A group and a client determine the identity they came from. */
  lemma GroupAndClient(a: seq<string>, b: seq<string>)
    requires |a| >= 2 && |b| >= 2
    ensures ComparisonGroup(a) == ComparisonGroup(b) && a[1] == b[1] <==> a == b
  {
    assert a == [a[0], a[1]] + a[2..] && b == [b[0], b[1]] + b[2..];
    if ComparisonGroup(a) == ComparisonGroup(b) {
      assert ComparisonGroup(a)[0] == a[0] && ComparisonGroup(b)[0] == b[0];
      assert ComparisonGroup(a)[1..] == a[2..] && ComparisonGroup(b)[1..] == b[2..];
    }
  }

  /** Two rows give a field values of the same kind: never a string in one and none or a number in the other. */
  predicate SameKind(a: Row, b: Row, f: Field) {
    Textual(a, f) && Textual(b, f) && (Effective(a, f).Str? <==> Effective(b, f).Str?)
  }

  lemma TextDetermines(a: Row, b: Row, f: Field)
    requires SameKind(a, b, f)
    ensures FieldText(a, f) == FieldText(b, f) <==> Effective(a, f) == Effective(b, f)
  {
    var x, y := Effective(a, f), Effective(b, f);
    if x.Int? { IntTextIsNotDash(x.n); }
    if y.Int? { IntTextIsNotDash(y.n); }
    if x.Int? && y.Int? && FieldText(a, f) == FieldText(b, f) {
      IntTextInjective(x.n, y.n);
    }
  }

  /**
   The identity is injective in its fields: two rows of one suite have the same identity exactly when they agree on
   mode, client, every workload field and, for streaming rows, the declared scopes.
   */
  lemma IdentityDetermines(suite: Suite, a: Row, b: Row)
    requires HasIdentity(suite, a) && HasIdentity(suite, b)
    requires forall f :: f in IdentityFields(suite) ==> SameKind(a, b, f)
    ensures AggregateIdentity(suite, a) == AggregateIdentity(suite, b) <==>
      && a[Plain(Mode)] == b[Plain(Mode)] && a[Plain(Client)] == b[Plain(Client)]
      && (forall f :: f in IdentityFields(suite) ==> Effective(a, f) == Effective(b, f))
      && (suite == ResponseStreaming ==> Scopes(a) == Scopes(b))
  {
    var fields := IdentityFields(suite);
    var x, y := AggregateIdentity(suite, a), AggregateIdentity(suite, b);
    forall f | f in fields ensures FieldText(a, f) == FieldText(b, f) <==> Effective(a, f) == Effective(b, f) {
      TextDetermines(a, b, f);
    }
    assert x[0] == a[Plain(Mode)].s && x[1] == a[Plain(Client)].s;
    assert y[0] == b[Plain(Mode)].s && y[1] == b[Plain(Client)].s;
    assert x[2..2 + |fields|] == Texts(a, fields) && y[2..2 + |fields|] == Texts(b, fields);
    assert x[2 + |fields|..] == (if suite == ResponseStreaming then Scopes(a) else []);
    assert y[2 + |fields|..] == (if suite == ResponseStreaming then Scopes(b) else []);
    if x == y {
      SameTexts(a, b, fields);
    } else if a[Plain(Mode)] == b[Plain(Mode)] && a[Plain(Client)] == b[Plain(Client)]
              && (forall f :: f in fields ==> Effective(a, f) == Effective(b, f)) {
      assert Texts(a, fields) == Texts(b, fields);
    }
  }

  lemma SameTexts(a: Row, b: Row, fields: seq<Field>)
    requires Texts(a, fields) == Texts(b, fields)
    ensures forall f :: f in fields ==> FieldText(a, f) == FieldText(b, f)
  {
    forall f | f in fields ensures FieldText(a, f) == FieldText(b, f) {
      var i :| 0 <= i < |fields| && fields[i] == f;
      assert Texts(a, fields)[i] == FieldText(a, f) && Texts(b, fields)[i] == FieldText(b, f);
    }
  }

  // ---------------------------------------------------------------- uniqueness

  ghost predicate AllDistinct(identities: seq<seq<string>>) {
    forall i, j :: 0 <= i < j < |identities| ==> identities[i] != identities[j]
  }

  /** `validate_unique_identities`: the first repetition, with the position it repeats. */
  method ValidateUniqueIdentities(identities: seq<seq<string>>) returns (r: Result<(), (nat, nat)>)
    ensures r.Ok? <==> AllDistinct(identities)
    ensures r.Err? ==>
      var (first, second) := r.error;
      first < second < |identities| && identities[first] == identities[second] && AllDistinct(identities[..second])
  {
    var seen: map<seq<string>, nat> := map[];
    for k := 0 to |identities|
      invariant forall i :: 0 <= i < k ==> identities[i] in seen
      invariant forall id :: id in seen ==> seen[id] < k && identities[seen[id]] == id
      invariant AllDistinct(identities[..k])
    {
      if identities[k] in seen {
        return Err((seen[identities[k]], k));
      }
      seen := seen[identities[k] := k];
    }
    assert identities[..|identities|] == identities;
    r := Ok(());
  }

  datatype RowRefusal = Unidentified(index: nat) | Repeated(first: nat, second: nat)

  ghost predicate Identified(suite: Suite, rows: seq<Row>) {
    forall i :: 0 <= i < |rows| ==> HasIdentity(suite, rows[i])
  }

  /** Every row has an identity, and no two have the same. */
  ghost predicate Unique(suite: Suite, rows: seq<Row>) {
    Identified(suite, rows) && AllDistinct(Identities(suite, rows))
  }

  /** Row `k` is the first that has no identity, or one an earlier row has. */
  ghost predicate FirstOffence(suite: Suite, rows: seq<Row>, refusal: RowRefusal) {
    match refusal
    case Unidentified(k) => k < |rows| && !HasIdentity(suite, rows[k]) && Unique(suite, rows[..k])
    case Repeated(i, k) =>
      && i < k < |rows| && HasIdentity(suite, rows[k]) && Unique(suite, rows[..k])
      && AggregateIdentity(suite, rows[i]) == AggregateIdentity(suite, rows[k])
  }

  lemma OffenceIsFinal(suite: Suite, rows: seq<Row>, refusal: RowRefusal)
    requires FirstOffence(suite, rows, refusal)
    ensures !Unique(suite, rows)
  {
    if refusal.Repeated? {
      assert Identities(suite, rows)[refusal.first] == Identities(suite, rows)[refusal.second];
    }
  }

  /** `seen` holds the identities with their positions. */
  ghost predicate Seen(identities: seq<seq<string>>, seen: map<seq<string>, nat>) {
    && (forall i :: 0 <= i < |identities| ==> identities[i] in seen)
    && (forall id :: id in seen ==> seen[id] < |identities| && identities[seen[id]] == id)
  }

  lemma SeenSnoc(identities: seq<seq<string>>, id: seq<string>, seen: map<seq<string>, nat>)
    requires Seen(identities, seen) && AllDistinct(identities) && id !in seen
    ensures Seen(identities + [id], seen[id := |identities|]) && AllDistinct(identities + [id])
  {
  }

  lemma NextRow(suite: Suite, rows: seq<Row>, k: nat)
    requires k < |rows|
    ensures Identities(suite, rows[..k + 1]) == Identities(suite, rows[..k]) + [AggregateIdentity(suite, rows[k])]
    ensures Identified(suite, rows[..k + 1]) <==> Identified(suite, rows[..k]) && HasIdentity(suite, rows[k])
  {
    assert rows[..k + 1] == rows[..k] + [rows[k]];
    if Identified(suite, rows[..k + 1]) {
      assert rows[..k + 1][k] == rows[k];
      forall i | 0 <= i < k ensures HasIdentity(suite, rows[..k][i]) { assert rows[..k + 1][i] == rows[..k][i]; }
    }
  }

  lemma SeenRow(suite: Suite, rows: seq<Row>, k: nat, i: nat)
    requires i < k <= |rows|
    ensures Identities(suite, rows[..k])[i] == AggregateIdentity(suite, rows[i])
  {
  }

  /** `validate_unique_aggregate_rows`: identities are computed one by one, so the first offence in row order wins. */
  method ValidateUniqueRows(suite: Suite, rows: seq<Row>) returns (r: Result<(), RowRefusal>)
    ensures r.Ok? <==> Unique(suite, rows)
    ensures r.Err? ==> FirstOffence(suite, rows, r.error)
  {
    var seen: map<seq<string>, nat> := map[];
    for k := 0 to |rows|
      invariant Identified(suite, rows[..k]) && AllDistinct(Identities(suite, rows[..k]))
      invariant Seen(Identities(suite, rows[..k]), seen)
    {
      var refusal: Option<RowRefusal>;
      seen, refusal := CheckRowIdentity(suite, rows, k, seen);
      if refusal.Some? {
        OffenceIsFinal(suite, rows, refusal.value);
        return Err(refusal.value);
      }
    }
    assert rows[..|rows|] == rows;
    r := Ok(());
  }

  method CheckRowIdentity(suite: Suite, rows: seq<Row>, k: nat, before: map<seq<string>, nat>)
    returns (seen: map<seq<string>, nat>, refusal: Option<RowRefusal>)
    requires k < |rows| && Identified(suite, rows[..k]) && AllDistinct(Identities(suite, rows[..k]))
    requires Seen(Identities(suite, rows[..k]), before)
    ensures refusal.Some? ==> FirstOffence(suite, rows, refusal.value)
    ensures refusal.None? ==>
      && Identified(suite, rows[..k + 1]) && AllDistinct(Identities(suite, rows[..k + 1]))
      && Seen(Identities(suite, rows[..k + 1]), seen)
  {
    if !HasIdentity(suite, rows[k]) { return before, Some(Unidentified(k)); }
    var identity := AggregateIdentity(suite, rows[k]);
    if identity in before {
      SeenRow(suite, rows, k, before[identity]);
      return before, Some(Repeated(before[identity], k));
    }
    NextRow(suite, rows, k);
    SeenSnoc(Identities(suite, rows[..k]), identity, before);
    return before[identity := k], None;
  }

  function IdentityIn(suite: Suite): Row -> seq<string> {
    row => AggregateIdentity(suite, row)
  }

  function Identities(suite: Suite, rows: seq<Row>): seq<seq<string>> {
    seq(|rows|, i requires 0 <= i < |rows| => AggregateIdentity(suite, rows[i]))
  }
}
