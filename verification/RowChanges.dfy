/** A column no check reads can be added or replaced without changing what the checks say. */
module RowChanges {
  import opened ReportRows
  import opened Grouping
  import opened OrdinaryRows
  import opened ResourceCoverage

  /** Rows that differ in nothing but one column. */
  ghost predicate SameBut(a: Row, b: Row, g: Field) {
    forall f :: f != g ==> (f in a <==> f in b) && (f in a ==> a[f] == b[f])
  }

  /**
   Columns no check reads: the proxy ratio, the legacy limit, and the request limit of the suites whose workload has
   none.
   */
  predicate Unread(suite: Suite, g: Field) {
    || g == NullableNumber(DirectRatio) || g == Plain(MaxConnections)
    || (OperationSuite(suite) && g == Plain(RequestLimit))
  }

  lemma FieldKept(a: Row, b: Row, g: Field, f: Field)
    requires SameBut(a, b, g) && f != g
    ensures (f in a <==> f in b) && (f in a ==> a[f] == b[f])
  {
  }

  // ---------------------------------------------------------------- identity

  lemma IdentityIgnores(suite: Suite, a: Row, b: Row, g: Field)
    requires SameBut(a, b, g) && Unread(suite, g)
    ensures HasIdentity(suite, a) <==> HasIdentity(suite, b)
    ensures AggregateIdentity(suite, a) == AggregateIdentity(suite, b)
  {
    var fields := IdentityFields(suite);
    forall f | f in fields ensures FieldText(a, f) == FieldText(b, f) && (Textual(a, f) <==> Textual(b, f)) {
      FieldKept(a, b, g, f);
    }
    assert Texts(a, fields) == Texts(b, fields);
    NamesKept(a, b, g, suite);
    ScopesKept(a, b, g, suite);
  }

  lemma NamesKept(a: Row, b: Row, g: Field, suite: Suite)
    requires SameBut(a, b, g) && Unread(suite, g)
    ensures IsString(a, Plain(Mode)) <==> IsString(b, Plain(Mode))
    ensures IsString(a, Plain(Client)) <==> IsString(b, Plain(Client))
    ensures IsString(a, Plain(Mode)) ==> a[Plain(Mode)] == b[Plain(Mode)]
    ensures IsString(a, Plain(Client)) ==> a[Plain(Client)] == b[Plain(Client)]
  {
    FieldKept(a, b, g, Plain(Mode));
    FieldKept(a, b, g, Plain(Client));
  }

  lemma ScopesKept(a: Row, b: Row, g: Field, suite: Suite)
    requires SameBut(a, b, g) && Unread(suite, g)
    ensures Scopes(a) == Scopes(b) && (Research(a) <==> Research(b))
    ensures Plain(ThroughputScope) in a <==> Plain(ThroughputScope) in b
    ensures Plain(TimingScope) in a <==> Plain(TimingScope) in b
    ensures IsString(a, Plain(ThroughputScope)) <==> IsString(b, Plain(ThroughputScope))
    ensures IsString(a, Plain(TimingScope)) <==> IsString(b, Plain(TimingScope))
  {
    FieldKept(a, b, g, Plain(ThroughputScope));
    FieldKept(a, b, g, Plain(TimingScope));
    FieldKept(a, b, g, Plain(Profile));
  }

  // ---------------------------------------------------------------- row checks

  lemma ValidIdentityIgnores(suite: Suite, a: Row, b: Row, g: Field)
    requires SameBut(a, b, g) && Unread(suite, g) && ValidIdentity(suite, a)
    ensures ValidIdentity(suite, b)
  {
    assert forall c: PlainColumn :: Plain(c) != g ==> (NamedField(a, Plain(c)) <==> NamedField(b, Plain(c)));
  }

  lemma LimitIgnores(suite: Suite, a: Row, b: Row, g: Field)
    requires SameBut(a, b, g) && Unread(suite, g)
    ensures OperationErrorLimit(suite, a) == OperationErrorLimit(suite, b)
  {
    FieldKept(a, b, g, Plain(Iterations));
    FieldKept(a, b, g, Plain(Scenario));
    FieldKept(a, b, g, Plain(ClientCount));
  }

  lemma MapIgnores(a: Row, b: Row, g: Field, f: Field, total: Field)
    requires SameBut(a, b, g) && f != g && total != g && ValidErrorMap(a, f, total)
    ensures ValidErrorMap(b, f, total)
  {
    FieldKept(a, b, g, f);
    FieldKept(a, b, g, total);
  }

  lemma AggregateIgnores(suite: Suite, a: Row, b: Row, g: Field)
    requires SameBut(a, b, g) && Unread(suite, g) && ValidAggregate(suite, a)
    ensures ValidAggregate(suite, b)
  {
    LimitIgnores(suite, a, b, g);
    FieldKept(a, b, g, Plain(Repeats));
    FieldKept(a, b, g, Plain(ErrorsTotal));
    FieldKept(a, b, g, AggregatePrimary(suite));
    AggregateBoundsIgnore(suite, a, b, g);
    MapIgnores(a, b, g, Plain(ErrorTypes), Plain(ErrorsTotal));
    MapIgnores(a, b, g, Plain(WarmupErrorTypes), Plain(WarmupErrorsTotal));
  }

  lemma AggregateBoundsIgnore(suite: Suite, a: Row, b: Row, g: Field)
    requires SameBut(a, b, g) && Unread(suite, g)
    ensures AggregateBounds(suite, a) <==> AggregateBounds(suite, b)
  {
    LimitIgnores(suite, a, b, g);
    FieldKept(a, b, g, Plain(Repeats));
    FieldKept(a, b, g, Plain(ErrorsTotal));
    FieldKept(a, b, g, Plain(RequestCount));
    FieldKept(a, b, g, Plain(WarmupErrorsTotal));
    if SuccessTotal(suite).Some? { FieldKept(a, b, g, SuccessTotal(suite).value); }
  }

  lemma RunIgnores(suite: Suite, a: Row, b: Row, g: Field)
    requires SameBut(a, b, g) && Unread(suite, g) && ValidRun(suite, a)
    ensures ValidRun(suite, b)
  {
    FieldKept(a, b, g, Plain(Repeat));
    FieldKept(a, b, g, Number(DurationS));
    FieldKept(a, b, g, Plain(Errors));
    FieldKept(a, b, g, RunPrimary(suite));
    RunBoundsIgnore(suite, a, b, g);
    MapIgnores(a, b, g, Plain(ErrorTypes), Plain(Errors));
    MapIgnores(a, b, g, Plain(WarmupErrorTypes), Plain(WarmupErrors));
  }

  lemma RunBoundsIgnore(suite: Suite, a: Row, b: Row, g: Field)
    requires SameBut(a, b, g) && Unread(suite, g)
    ensures RunBounds(suite, a) <==> RunBounds(suite, b)
  {
    LimitIgnores(suite, a, b, g);
    FieldKept(a, b, g, Plain(Errors));
    FieldKept(a, b, g, Plain(RequestCount));
    FieldKept(a, b, g, Plain(WarmupErrors));
    FieldKept(a, b, g, Count(OkStreams));
    FieldKept(a, b, g, Count(OkRequests));
  }

  lemma OptionalIgnores(a: Row, b: Row, g: Field)
    requires SameBut(a, b, g) && ValidOptionalFields(a) && (g in b ==> Obeys(g, b[g])) && g != Plain(ErrorRatePercent)
    ensures ValidOptionalFields(b)
  {
    forall f | f in b ensures Obeys(f, b[f]) {
      if f != g {
        FieldKept(a, b, g, f);
        assert Obeys(f, a[f]);
      }
    }
    FieldKept(a, b, g, Plain(ErrorRatePercent));
  }

  /** `b` is `a` with an unread column changed to something that column may hold. */
  ghost predicate Harmless(suite: Suite, a: Row, b: Row, g: Field) {
    SameBut(a, b, g) && Unread(suite, g) && (g in b ==> Obeys(g, b[g]))
  }

  lemma AggregateStaysAdmitted(suite: Suite, a: Row, b: Row, g: Field)
    requires Harmless(suite, a, b, g) && AggregateAdmitted(suite, a)
    ensures AggregateAdmitted(suite, b)
  {
    ValidIdentityIgnores(suite, a, b, g);
    AggregateIgnores(suite, a, b, g);
    OptionalIgnores(a, b, g);
  }

  lemma RunStaysAdmitted(suite: Suite, a: Row, b: Row, g: Field)
    requires Harmless(suite, a, b, g) && RunAdmitted(suite, a)
    ensures RunAdmitted(suite, b)
  {
    ValidIdentityIgnores(suite, a, b, g);
    RunIgnores(suite, a, b, g);
    OptionalIgnores(a, b, g);
  }

  // ---------------------------------------------------------------- coverage

  lemma ObservedIgnores(suite: Suite, a: Row, b: Row, g: Field, m: Field)
    requires SameBut(a, b, g) && Unread(suite, g)
    ensures ObservedIn(a, m) <==> ObservedIn(b, m)
  {
    if RawField(m).Some? {
      assert RawField(m).value != g;
      FieldKept(a, b, g, RawField(m).value);
    }
    FieldKept(a, b, g, NestedCounts(ClientStats));
  }

  /** Lists of rows that differ in nothing but unread columns. */
  ghost predicate AllHarmless(suite: Suite, a: seq<Row>, b: seq<Row>, g: Field) {
    |a| == |b| && forall i :: 0 <= i < |a| ==> Harmless(suite, a[i], b[i], g)
  }

  lemma {:induction false} AvailableIgnores(suite: Suite, a: seq<Row>, b: seq<Row>, g: Field, m: Field)
    requires AllHarmless(suite, a, b, g)
    ensures AvailableIn(a, m) == AvailableIn(b, m)
  {
    if a != [] {
      var n := |a| - 1;
      assert Harmless(suite, a[n], b[n], g);
      ObservedIgnores(suite, a[n], b[n], g, m);
      AvailableIgnores(suite, a[..n], b[..n], g, m);
    }
  }

  lemma {:induction false} RunsOfIgnores(suite: Suite, a: seq<Row>, b: seq<Row>, g: Field, identity: seq<string>)
    requires AllHarmless(suite, a, b, g)
    ensures AllHarmless(suite, RunsOf(suite, a, identity), RunsOf(suite, b, identity), g)
  {
    if a != [] {
      var n := |a| - 1;
      assert Harmless(suite, a[n], b[n], g);
      IdentityIgnores(suite, a[n], b[n], g);
      assert IdentityIn(suite)(a[n]) == IdentityIn(suite)(b[n]);
      RunsOfIgnores(suite, a[..n], b[..n], g, identity);
    }
  }

  lemma AvailableMatchesIgnores(suite: Suite, row: Row, own: seq<Row>, changed: seq<Row>, g: Field)
    requires AllHarmless(suite, own, changed, g) && AvailableMatches(row, own)
    ensures AvailableMatches(row, changed)
  {
    forall m | m in CoverageIn(row) && Observable(m) ensures CoverageIn(row)[m].available == AvailableIn(changed, m) {
      AvailableIgnores(suite, own, changed, g, m);
    }
  }

  /** Changing the runs' unread columns does not uncover a row. */
  lemma RunsStayCovering(suite: Suite, row: Row, runs: seq<Row>, changed: seq<Row>, g: Field, current: bool)
    requires RowCovered(suite, row, runs, current) && AllHarmless(suite, runs, changed, g)
    ensures RowCovered(suite, row, changed, current)
  {
    var identity := AggregateIdentity(suite, row);
    if CoverageIn(row) != map[] && runs != [] {
      RunsOfIgnores(suite, runs, changed, g, identity);
      AvailableMatchesIgnores(suite, row, RunsOf(suite, runs, identity), RunsOf(suite, changed, identity), g);
    }
  }

  /** Nor does changing the row's own, as long as its coverage does not name it. */
  lemma RowStaysCovered(suite: Suite, a: Row, b: Row, runs: seq<Row>, g: Field, current: bool)
    requires RowCovered(suite, a, runs, current) && Harmless(suite, a, b, g) && g !in CoverageIn(a)
    ensures RowCovered(suite, b, runs, current)
  {
    FieldKept(a, b, g, Plain(Coverage));
    FieldKept(a, b, g, Plain(Repeats));
    IdentityIgnores(suite, a, b, g);
    assert CoverageIn(a) == CoverageIn(b);
    forall m | m in CoverageIn(b) ensures m in b && (b[m].Null? <==> CoverageIn(b)[m].available == 0) {
      FieldKept(a, b, g, m);
    }
  }

  // ---------------------------------------------------------------- whole reports

  /** Each row is either left alone or changed in an unread column its coverage does not name. */
  ghost predicate Touched(suite: Suite, a: seq<Row>, b: seq<Row>, g: Field) {
    && AllHarmless(suite, a, b, g)
    && forall i :: 0 <= i < |a| ==> a[i] == b[i] || g !in CoverageIn(a[i])
  }

  lemma CoverageStaysAdmitted(suite: Suite, aggregate: seq<Row>, runs: seq<Row>, rows: seq<Row>, changed: seq<Row>,
                              g: Field, current: bool)
    requires CoverageAdmitted(suite, aggregate, runs, current)
    requires Touched(suite, aggregate, rows, g) && AllHarmless(suite, runs, changed, g)
    ensures CoverageAdmitted(suite, rows, changed, current)
  {
    forall i | 0 <= i < |rows| ensures RowCovered(suite, rows[i], changed, current) {
      assert Harmless(suite, aggregate[i], rows[i], g) && RowCovered(suite, aggregate[i], runs, current);
      if aggregate[i] != rows[i] {
        RowStaysCovered(suite, aggregate[i], rows[i], runs, g, current);
      }
      RunsStayCovering(suite, rows[i], runs, changed, g, current);
    }
  }

  lemma RowsStayAdmitted(suite: Suite, aggregate: seq<Row>, runs: seq<Row>, rows: seq<Row>, changed: seq<Row>, g: Field)
    requires RowsAdmitted(suite, aggregate, runs)
    requires AllHarmless(suite, aggregate, rows, g) && AllHarmless(suite, runs, changed, g)
    ensures RowsAdmitted(suite, rows, changed)
  {
    forall i | 0 <= i < |rows| ensures AggregateAdmitted(suite, rows[i]) {
      AggregateStaysAdmitted(suite, aggregate[i], rows[i], g);
    }
    forall i | 0 <= i < |changed| ensures RunAdmitted(suite, changed[i]) {
      RunStaysAdmitted(suite, runs[i], changed[i], g);
    }
  }

  lemma IdentitiesStay(suite: Suite, a: seq<Row>, b: seq<Row>, g: Field)
    requires AllHarmless(suite, a, b, g)
    ensures Identities(suite, a) == Identities(suite, b)
  {
    forall i | 0 <= i < |a| ensures Identities(suite, a)[i] == Identities(suite, b)[i] {
      IdentityIgnores(suite, a[i], b[i], g);
    }
  }
}
