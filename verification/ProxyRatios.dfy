/** Completing proxy rows with their ratio to the direct baseline. */
module ProxyRatios {
  import opened Common
  import opened ReportRows
  import opened OrdinaryRows

  datatype BaselineKey = BaselineKey(mode: string, client: string, targetScheme: string, concurrency: int)

  /** `str(row.get(field, ""))` of a string column. */
  function TextOr(row: Row, f: Field): string {
    if f in row && row[f].Str? then row[f].s else ""
  }

  /** The integer part of a real, toward zero. */
  function Truncated(x: real): int {
    if x >= 0.0 then x.Floor else -(-x).Floor
  }

  /** Toward zero: never farther from it than `x`, by less than one, and on the same side. */
  lemma TruncatedFacts(x: real)
    ensures x >= 0.0 ==> 0.0 <= Truncated(x) as real <= x < Truncated(x) as real + 1.0
    ensures x <= 0.0 ==> Truncated(x) as real - 1.0 < x <= Truncated(x) as real <= 0.0
  {
  }

  function IntOf(row: Row, f: Field): int {
    if f !in row then 0
    else
      match row[f]
      case Int(n) => n
      case Bool(b) => if b then 1 else 0
      case Num(x) => Truncated(x)
      case _ => 0
  }

  function KeyOf(row: Row): BaselineKey {
    BaselineKey(TextOr(row, Plain(Mode)), TextOr(row, Plain(Client)), TextOr(row, Plain(TargetScheme)),
                IntOf(row, Plain(Concurrency)))
  }

  predicate IsDirect(row: Row) {
    && Plain(ProxyConfig) in row && row[Plain(ProxyConfig)] == Str("direct")
    && Plain(Lifecycle) in row && row[Plain(Lifecycle)] == Str("reused-client")
  }

  /** `float(value) if isinstance(value, int | float)`; a boolean counts as an integer there. */
  function Measured(row: Row): Option<real> {
    if Plain(OkReqSMedian) !in row then None
    else
      match row[Plain(OkReqSMedian)]
      case Int(n) => Some(n as real)
      case Num(x) => Some(x)
      case Bool(b) => Some(if b then 1.0 else 0.0)
      case _ => None
  }

  function Ratio(value: Option<real>, baseline: Option<real>): Value {
    if value.None? || baseline.None? || baseline.value <= 0.0 then Null else Num(value.value / baseline.value)
  }

  datatype Refusal = NotUnique(offence: RowRefusal) | Ambiguous(first: nat, second: nat)

  ghost predicate AmbiguousAt(rows: seq<Row>, i: nat, j: nat) {
    i < j < |rows| && IsDirect(rows[i]) && IsDirect(rows[j]) && KeyOf(rows[i]) == KeyOf(rows[j])
  }

  ghost predicate Unambiguous(rows: seq<Row>) {
    forall i, j :: 0 <= i < j < |rows| ==> !(IsDirect(rows[i]) && IsDirect(rows[j]) && KeyOf(rows[i]) == KeyOf(rows[j]))
  }

  /** What the direct reused-client row of a key measured, if there is one. */
  function Baseline(rows: seq<Row>, key: BaselineKey): Option<real> {
    if rows == [] then None
    else if IsDirect(rows[|rows| - 1]) && KeyOf(rows[|rows| - 1]) == key then Measured(rows[|rows| - 1])
    else Baseline(rows[..|rows| - 1], key)
  }

  /** Every ratio is against the one direct row of its key. */
  lemma {:induction false} BaselineIsTheDirectRow(rows: seq<Row>, i: nat)
    requires Unambiguous(rows) && i < |rows| && IsDirect(rows[i])
    ensures Baseline(rows, KeyOf(rows[i])) == Measured(rows[i])
  {
    var n := |rows| - 1;
    if i < n {
      BaselineIsTheDirectRow(rows[..n], i);
    }
  }

  lemma {:induction false} NoBaseline(rows: seq<Row>, key: BaselineKey)
    requires forall i :: 0 <= i < |rows| && IsDirect(rows[i]) ==> KeyOf(rows[i]) != key
    ensures Baseline(rows, key) == None
  {
    if rows != [] { NoBaseline(rows[..|rows| - 1], key); }
  }

  /** A positive baseline times the ratio is what was measured; anything less has no ratio. */
  ghost predicate RatioTo(ratio: Value, measured: Option<real>, baseline: Option<real>) {
    && (ratio.Num? <==> measured.Some? && baseline.Some? && baseline.value > 0.0)
    && (ratio.Num? ==> ratio.x * baseline.value == measured.value)
    && (!ratio.Num? ==> ratio == Null)
  }

  lemma RatioTimesBaseline(measured: Option<real>, baseline: Option<real>)
    ensures RatioTo(Ratio(measured, baseline), measured, baseline)
  {
    if measured.Some? && baseline.Some? && baseline.value > 0.0 {
      assert measured.value / baseline.value * baseline.value == measured.value;
    }
  }

  /** A boolean is taken for the integer it is to the program. */
  lemma BooleansCount(row: Row, flag: bool)
    ensures var asBool, asInt := Bool(flag), Int(if flag then 1 else 0);
      && Measured(row[Plain(OkReqSMedian) := asBool]) == Measured(row[Plain(OkReqSMedian) := asInt])
      && IntOf(row[Plain(Concurrency) := asBool], Plain(Concurrency)) == IntOf(row[Plain(Concurrency) := asInt],
                                                                              Plain(Concurrency))
  {
  }

  /** `d` is the direct, reused-client row that agrees with `row` on mode, client, scheme and concurrency. */
  ghost predicate BaselineFor(d: Row, row: Row) {
    && Effective(d, Plain(ProxyConfig)) == Str("direct") && Effective(d, Plain(Lifecycle)) == Str("reused-client")
    && Effective(d, Plain(Mode)) == Effective(row, Plain(Mode))
    && Effective(d, Plain(Client)) == Effective(row, Plain(Client))
    && Effective(d, Plain(TargetScheme)) == Effective(row, Plain(TargetScheme))
    && Effective(d, Plain(Concurrency)) == Effective(row, Plain(Concurrency))
  }

  ghost predicate AllAdmitted(rows: seq<Row>) {
    forall i :: 0 <= i < |rows| ==> AggregateAdmitted(ProxyConnect, rows[i])
  }

  ghost predicate KeyColumns(row: Row) {
    && IsString(row, Plain(Mode)) && IsString(row, Plain(Client)) && IsString(row, Plain(TargetScheme))
    && IsString(row, Plain(ProxyConfig)) && IsString(row, Plain(Lifecycle)) && HasInteger(row, Plain(Concurrency), 1)
  }

  lemma AdmittedColumns(row: Row)
    requires ValidIdentity(ProxyConnect, row)
    ensures KeyColumns(row)
  {
  }

  lemma AdmittedMeasured(row: Row)
    requires ValidAggregate(ProxyConnect, row)
    ensures Plain(OkReqSMedian) in row && Measured(row) == NumberOf(row[Plain(OkReqSMedian)]) && Measured(row).Some?
  {
  }

  lemma BaselineIff(d: Row, row: Row)
    requires KeyColumns(d) && KeyColumns(row)
    ensures IsDirect(d) && KeyOf(d) == KeyOf(row) <==> BaselineFor(d, row)
  {
  }

  lemma AdmittedBaseline(d: Row, row: Row)
    requires AggregateAdmitted(ProxyConnect, d) && AggregateAdmitted(ProxyConnect, row)
    ensures IsDirect(d) && KeyOf(d) == KeyOf(row) <==> BaselineFor(d, row)
    ensures Plain(OkReqSMedian) in row && Measured(row) == NumberOf(row[Plain(OkReqSMedian)]) && Measured(row).Some?
  {
    AdmittedColumns(d);
    AdmittedColumns(row);
    BaselineIff(d, row);
    AdmittedMeasured(row);
  }

  /** The ratio an admitted row is completed with is to the direct row it agrees with, ... */
  lemma RatioToDirect(rows: seq<Row>, i: nat, direct: nat)
    requires AllAdmitted(rows) && Unambiguous(rows) && i < |rows| && direct < |rows|
    requires BaselineFor(rows[direct], rows[i])
    ensures Plain(OkReqSMedian) in rows[i] && Plain(OkReqSMedian) in rows[direct]
    ensures RatioTo(CompletedAll(rows)[i][NullableNumber(DirectRatio)],
                    NumberOf(rows[i][Plain(OkReqSMedian)]), NumberOf(rows[direct][Plain(OkReqSMedian)]))
  {
    AdmittedBaseline(rows[direct], rows[i]);
    AdmittedBaseline(rows[direct], rows[direct]);
    BaselineIsTheDirectRow(rows, direct);
    RatioTimesBaseline(Measured(rows[i]), Measured(rows[direct]));
  }

  /** ... and null where there is none. */
  lemma NoRatio(rows: seq<Row>, i: nat)
    requires AllAdmitted(rows) && i < |rows|
    requires forall d :: 0 <= d < |rows| ==> !BaselineFor(rows[d], rows[i])
    ensures CompletedAll(rows)[i][NullableNumber(DirectRatio)] == Null
  {
    forall d | 0 <= d < |rows| && IsDirect(rows[d]) ensures KeyOf(rows[d]) != KeyOf(rows[i]) {
      AdmittedBaseline(rows[d], rows[i]);
    }
    NoBaseline(rows, KeyOf(rows[i]));
  }

  function Completed(row: Row, all: seq<Row>): Row {
    row[NullableNumber(DirectRatio) := Ratio(Measured(row), Baseline(all, KeyOf(row)))]
  }

  function CompletedAll(rows: seq<Row>): seq<Row> {
    seq(|rows|, i requires 0 <= i < |rows| => Completed(rows[i], rows))
  }

  /** Uniqueness is checked before the baselines. */
  ghost predicate Refuses(rows: seq<Row>, refusal: Refusal) {
    match refusal
    case NotUnique(offence) => FirstOffence(ProxyConnect, rows, offence)
    case Ambiguous(first, second) => Unique(ProxyConnect, rows) && AmbiguousAt(rows, first, second)
  }

  /** `finalize_proxy_connect_rows`. */
  method FinalizeProxyConnectRows(rows: seq<Row>) returns (r: Result<seq<Row>, Refusal>)
    ensures r.Ok? <==> Unique(ProxyConnect, rows) && Unambiguous(rows)
    ensures r.Ok? ==> r.value == CompletedAll(rows)
    ensures r.Err? ==> Refuses(rows, r.error)
  {
    var unique := ValidateUniqueRows(ProxyConnect, rows);
    if unique.Err? { return Err(NotUnique(unique.error)); }
    var baselines, refusal := CollectBaselines(rows);
    if refusal.Some? { return Err(refusal.value); }
    var result: seq<Row> := [];
    for k := 0 to |rows|
      invariant result == seq(k, i requires 0 <= i < k => Completed(rows[i], rows))
    {
      var row, key := rows[k], KeyOf(rows[k]);
      var baseline := if key in baselines then baselines[key] else None;
      assert baseline == Baseline(rows, key);
      result := result + [row[NullableNumber(DirectRatio) := Ratio(Measured(row), baseline)]];
    }
    r := Ok(result);
  }

  /** Every direct row seen so far is the source of its key. */
  ghost predicate SourcesOf(sources: map<BaselineKey, nat>, rows: seq<Row>) {
    && (forall key :: key in sources ==>
          sources[key] < |rows| && IsDirect(rows[sources[key]]) && KeyOf(rows[sources[key]]) == key)
    && (forall i :: 0 <= i < |rows| && IsDirect(rows[i]) ==> KeyOf(rows[i]) in sources)
  }

  ghost predicate ValuesOf(baselines: map<BaselineKey, Option<real>>, rows: seq<Row>) {
    forall key :: Baseline(rows, key) == if key in baselines then baselines[key] else None
  }

  lemma NextValues(baselines: map<BaselineKey, Option<real>>, rows: seq<Row>, row: Row)
    requires ValuesOf(baselines, rows)
    ensures !IsDirect(row) ==> ValuesOf(baselines, rows + [row])
    ensures IsDirect(row) ==> ValuesOf(baselines[KeyOf(row) := Measured(row)], rows + [row])
  {
    assert (rows + [row])[..|rows|] == rows;
  }

  lemma NextSources(sources: map<BaselineKey, nat>, rows: seq<Row>, row: Row)
    requires SourcesOf(sources, rows)
    ensures !IsDirect(row) ==> SourcesOf(sources, rows + [row])
    ensures IsDirect(row) ==> SourcesOf(sources[KeyOf(row) := |rows|], rows + [row])
  {
  }

  lemma NextUnambiguous(sources: map<BaselineKey, nat>, rows: seq<Row>, row: Row)
    requires SourcesOf(sources, rows) && Unambiguous(rows) && (IsDirect(row) ==> KeyOf(row) !in sources)
    ensures Unambiguous(rows + [row])
  {
  }

  method CollectBaselines(rows: seq<Row>)
    returns (baselines: map<BaselineKey, Option<real>>, refusal: Option<Refusal>)
    ensures refusal.None? <==> Unambiguous(rows)
    ensures refusal.None? ==> ValuesOf(baselines, rows)
    ensures refusal.Some? ==> refusal.value.Ambiguous? && AmbiguousAt(rows, refusal.value.first, refusal.value.second)
  {
    baselines := map[];
    var sources: map<BaselineKey, nat> := map[];
    for k := 0 to |rows|
      invariant ValuesOf(baselines, rows[..k]) && SourcesOf(sources, rows[..k]) && Unambiguous(rows[..k])
    {
      assert rows[..k + 1] == rows[..k] + [rows[k]];
      NextValues(baselines, rows[..k], rows[k]);
      NextSources(sources, rows[..k], rows[k]);
      if IsDirect(rows[k]) {
        var key := KeyOf(rows[k]);
        if key in sources {
          assert AmbiguousAt(rows, sources[key], k);
          return baselines, Some(Ambiguous(sources[key], k));
        }
        NextUnambiguous(sources, rows[..k], rows[k]);
        sources := sources[key := k];
        baselines := baselines[key := Measured(rows[k])];
      } else {
        NextUnambiguous(sources, rows[..k], rows[k]);
      }
    }
    assert rows[..|rows|] == rows;
    refusal := None;
  }

  // ---------------------------------------------------------------- what finalising keeps

  /** Rows that differ in nothing but their ratio. */
  ghost predicate SameButRatio(a: Row, b: Row) {
    a - {NullableNumber(DirectRatio)} == b - {NullableNumber(DirectRatio)}
  }

  ghost predicate AllSameButRatio(a: seq<Row>, b: seq<Row>) {
    |a| == |b| && forall i :: 0 <= i < |a| ==> SameButRatio(a[i], b[i])
  }

  lemma RatioIsNotRead(a: Row, b: Row)
    requires SameButRatio(a, b)
    ensures forall f :: f != NullableNumber(DirectRatio) ==> ((f in a <==> f in b) && (f in a ==> a[f] == b[f]))
    ensures KeyOf(a) == KeyOf(b) && IsDirect(a) == IsDirect(b) && Measured(a) == Measured(b)
  {
    forall f | f != NullableNumber(DirectRatio) ensures (f in a <==> f in b) && (f in a ==> a[f] == b[f]) {
      var d := NullableNumber(DirectRatio);
      assert f in a <==> f in a - {d};
      assert f in b <==> f in b - {d};
      if f in a { assert (a - {d})[f] == a[f] && (b - {d})[f] == b[f]; }
    }
  }

  lemma IdentityKept(a: Row, b: Row)
    requires SameButRatio(a, b)
    ensures AggregateIdentity(ProxyConnect, a) == AggregateIdentity(ProxyConnect, b)
    ensures HasIdentity(ProxyConnect, a) <==> HasIdentity(ProxyConnect, b)
  {
    RatioIsNotRead(a, b);
    var fields := IdentityFields(ProxyConnect);
    forall f | f in fields ensures FieldText(a, f) == FieldText(b, f) && (Textual(a, f) <==> Textual(b, f)) {
      assert f != NullableNumber(DirectRatio);
    }
    assert Texts(a, fields) == Texts(b, fields);
    assert IsString(a, Plain(Mode)) <==> IsString(b, Plain(Mode));
    assert IsString(a, Plain(Client)) <==> IsString(b, Plain(Client));
    assert HasIdentity(ProxyConnect, a) <==> HasIdentity(ProxyConnect, b);
  }

  lemma {:induction false} BaselineKept(a: seq<Row>, b: seq<Row>, key: BaselineKey)
    requires AllSameButRatio(a, b)
    ensures Baseline(a, key) == Baseline(b, key)
  {
    if a != [] {
      var n := |a| - 1;
      assert SameButRatio(a[n], b[n]);
      RatioIsNotRead(a[n], b[n]);
      BaselineKept(a[..n], b[..n], key);
    }
  }

  lemma SetSameRatio(a: Row, b: Row, v: Value)
    requires SameButRatio(a, b)
    ensures a[NullableNumber(DirectRatio) := v] == b[NullableNumber(DirectRatio) := v]
  {
    RatioIsNotRead(a, b);
  }

  /** Finalisation reads and keeps everything but the old ratio. */
  lemma SameInSameOut(a: seq<Row>, b: seq<Row>)
    requires AllSameButRatio(a, b)
    ensures CompletedAll(a) == CompletedAll(b)
    ensures Unambiguous(a) <==> Unambiguous(b)
    ensures Identities(ProxyConnect, a) == Identities(ProxyConnect, b)
    ensures Unique(ProxyConnect, a) <==> Unique(ProxyConnect, b)
  {
    forall i | 0 <= i < |a|
      ensures CompletedAll(a)[i] == CompletedAll(b)[i]
      ensures IsDirect(a[i]) == IsDirect(b[i]) && KeyOf(a[i]) == KeyOf(b[i])
      ensures Identities(ProxyConnect, a)[i] == Identities(ProxyConnect, b)[i]
      ensures HasIdentity(ProxyConnect, a[i]) <==> HasIdentity(ProxyConnect, b[i])
    {
      assert SameButRatio(a[i], b[i]);
      RatioIsNotRead(a[i], b[i]);
      IdentityKept(a[i], b[i]);
      BaselineKept(a, b, KeyOf(a[i]));
      SetSameRatio(a[i], b[i], Ratio(Measured(a[i]), Baseline(a, KeyOf(a[i]))));
    }
  }

  lemma CompletedSame(row: Row, all: seq<Row>)
    ensures SameButRatio(Completed(row, all), row)
  {
  }

  /** Finalising keeps identities and order, and doing it again changes nothing. */
  lemma FinalizeTwice(rows: seq<Row>)
    ensures CompletedAll(CompletedAll(rows)) == CompletedAll(rows)
    ensures Identities(ProxyConnect, CompletedAll(rows)) == Identities(ProxyConnect, rows)
    ensures Unique(ProxyConnect, CompletedAll(rows)) <==> Unique(ProxyConnect, rows)
    ensures Unambiguous(CompletedAll(rows)) <==> Unambiguous(rows)
  {
    forall i | 0 <= i < |rows| ensures SameButRatio(CompletedAll(rows)[i], rows[i]) {
      CompletedSame(rows[i], rows);
    }
    SameInSameOut(CompletedAll(rows), rows);
  }

  function Concat(parts: seq<seq<Row>>): seq<Row> {
    if parts == [] then [] else Concat(parts[..|parts| - 1]) + parts[|parts| - 1]
  }

  function CompletedParts(parts: seq<seq<Row>>): seq<seq<Row>> {
    seq(|parts|, i requires 0 <= i < |parts| => CompletedAll(parts[i]))
  }

  lemma {:induction false} PartsSame(parts: seq<seq<Row>>)
    ensures AllSameButRatio(Concat(CompletedParts(parts)), Concat(parts))
  {
    if parts != [] {
      var n := |parts| - 1;
      PartsSame(parts[..n]);
      assert CompletedParts(parts)[..n] == CompletedParts(parts[..n]);
      forall i | 0 <= i < |parts[n]| ensures SameButRatio(CompletedAll(parts[n])[i], parts[n][i]) {
        CompletedSame(parts[n][i], parts[n]);
      }
      SameAppend(Concat(CompletedParts(parts[..n])), Concat(parts[..n]), CompletedAll(parts[n]), parts[n]);
    }
  }

  lemma SameAppend(a: seq<Row>, b: seq<Row>, c: seq<Row>, d: seq<Row>)
    requires AllSameButRatio(a, b) && AllSameButRatio(c, d)
    ensures AllSameButRatio(a + c, b + d)
  {
  }

  /**
   Merge-stable: finalising the concatenation of children that were already finalised one by one gives what finalising
   their raw rows together gives, and is refused in the same cases.
   */
  lemma FinalizeMerged(parts: seq<seq<Row>>)
    ensures CompletedAll(Concat(CompletedParts(parts))) == CompletedAll(Concat(parts))
    ensures Unique(ProxyConnect, Concat(CompletedParts(parts))) <==> Unique(ProxyConnect, Concat(parts))
    ensures Unambiguous(Concat(CompletedParts(parts))) <==> Unambiguous(Concat(parts))
  {
    PartsSame(parts);
    SameInSameOut(Concat(CompletedParts(parts)), Concat(parts));
  }
}
