/** Comparing two reports: a canonical row order, ratios, winners and ranks that do not depend on row order. */
module Comparison {
  import opened Common
  import opened Ordering
  import opened Grouping
  import ReportRows

  datatype BenchmarkRow = BenchmarkRow(
    identity: seq<string>,
    rowLabel: string,
    mode: string,
    scenario: string,
    primary: Option<real>,
    p95Ms: Option<real>,
    p99Ms: Option<real>,
    errorsTotal: nat,
    warmupErrorsTotal: nat,
    rssMb: Option<real>,
    threads: Option<int>,
    fds: Option<int>)

  /** Rows carry the group and client their identity determines. */
  function GroupOf(row: BenchmarkRow): seq<string> {
    if |row.identity| < 2 then row.identity else ReportRows.ComparisonGroup(row.identity)
  }

  function ClientOf(row: BenchmarkRow): string {
    if |row.identity| < 2 then "" else row.identity[1]
  }

  /**
   `suite` is None when it could not be inferred, `rankable` is false for the suites and profiles without winners, and
   `scope` is the resource measurement scope.
   */
  datatype Report = Report(
    rows: seq<BenchmarkRow>,
    suite: Option<string>,
    rankable: bool,
    canCompare: bool,
    scope: string)

  function IdentityOf(row: BenchmarkRow): seq<string> { row.identity }

  ghost predicate DistinctRows(rows: seq<BenchmarkRow>) {
    DistinctKeys(rows, IdentityOf)
  }

  // ---------------------------------------------------------------- canonical order

  function Canonical(rows: seq<BenchmarkRow>): seq<BenchmarkRow> {
    SortBy(rows, IdentityOf, TupleLe)
  }

  /** `canonical_rows`: refuses repeated identities, then sorts by identity. */
  method CanonicalRows(rows: seq<BenchmarkRow>) returns (r: Result<seq<BenchmarkRow>, (nat, nat)>)
    ensures r.Ok? <==> DistinctRows(rows)
    ensures r.Ok? ==> r.value == Canonical(rows)
  {
    var identities := seq(|rows|, i requires 0 <= i < |rows| => rows[i].identity);
    var unique := ReportRows.ValidateUniqueIdentities(identities);
    forall i | 0 <= i < |rows| ensures identities[i] == IdentityOf(rows[i]) {}
    assert ReportRows.AllDistinct(identities) ==> DistinctRows(rows) by {
      forall i, j | 0 <= i < j < |rows| && ReportRows.AllDistinct(identities)
        ensures IdentityOf(rows[i]) != IdentityOf(rows[j])
      {
        assert identities[i] != identities[j];
      }
    }
    if unique.Err? { return Err(unique.error); }
    var sorted := Sort(rows, IdentityOf, TupleLe);
    r := Ok(sorted);
  }

  /** The canonical order forgets the order the rows came in, and keeps exactly the rows. */
  lemma CanonicalForgetsOrder(a: seq<BenchmarkRow>, b: seq<BenchmarkRow>)
    requires multiset(a) == multiset(b)
    ensures DistinctRows(a) <==> DistinctRows(b)
    ensures DistinctRows(a) ==> Canonical(a) == Canonical(b)
    ensures multiset(Canonical(a)) == multiset(a)
  {
    TuplesOrdered();
    SortSorts(a, IdentityOf, TupleLe);
    if DistinctRows(a) {
      PermutedDistinct(a, b, IdentityOf);
      SortForgetsOrder(a, b, IdentityOf, TupleLe);
    }
    if DistinctRows(b) {
      PermutedDistinct(b, a, IdentityOf);
    }
  }

  // ---------------------------------------------------------------- ratios

  datatype Ratio = Finite(x: real) | Infinite

  function SafeRatio(newValue: real, oldValue: real): Ratio {
    if oldValue <= 0.0 then (if newValue > 0.0 then Infinite else Finite(1.0)) else Finite(newValue / oldValue)
  }

  function OptionalRatio(newValue: Option<real>, oldValue: Option<real>): Option<Ratio> {
    if newValue.None? || oldValue.None? then None else Some(SafeRatio(newValue.value, oldValue.value))
  }

  /** A nonnegative value that is at most another is a fraction of it between zero and one. */
  lemma RatioWithin(value: real, best: real)
    requires 0.0 <= value <= best
    ensures SafeRatio(value, best).Finite? && 0.0 <= SafeRatio(value, best).x <= 1.0
    ensures value == best ==> SafeRatio(value, best).x == 1.0
  {
    if best > 0.0 { Quotient(value, best); }
  }

  lemma Quotient(a: real, b: real)
    requires 0.0 <= a <= b && b > 0.0
    ensures 0.0 <= a / b <= 1.0 && (a == b ==> a / b == 1.0)
  {
  }

  // ---------------------------------------------------------------- winners

  function PrimaryOf(row: BenchmarkRow): real {
    if row.primary.None? then 0.0 else row.primary.value
  }

  predicate RealGe(a: real, b: real) { a >= b }

  function MeasuredRows(rows: seq<BenchmarkRow>): seq<BenchmarkRow> {
    if rows == [] then []
    else MeasuredRows(rows[..|rows| - 1]) + if rows[|rows| - 1].primary.Some? then [rows[|rows| - 1]] else []
  }

  lemma {:induction false} MeasuredFacts(rows: seq<BenchmarkRow>)
    ensures forall r :: r in MeasuredRows(rows) <==> r in rows && r.primary.Some?
  {
    if rows != [] {
      MeasuredFacts(rows[..|rows| - 1]);
      assert rows == rows[..|rows| - 1] + [rows[|rows| - 1]];
    }
  }

  /** `sorted(..., key=primary, reverse=True)`: best first, ties in their given order. */
  function Ranked(rows: seq<BenchmarkRow>): seq<BenchmarkRow> {
    SortBy(MeasuredRows(rows), PrimaryOf, RealGe)
  }

  /** The first position of a client, or the length of the list. */
  function FirstOf(rows: seq<BenchmarkRow>, client: string): nat {
    if rows == [] then 0
    else if ClientOf(rows[0]) == client then 0
    else 1 + FirstOf(rows[1..], client)
  }

  lemma {:induction false} FirstOfFacts(rows: seq<BenchmarkRow>, client: string)
    ensures FirstOf(rows, client) <= |rows|
    ensures FirstOf(rows, client) < |rows| <==> exists i :: 0 <= i < |rows| && ClientOf(rows[i]) == client
    ensures FirstOf(rows, client) < |rows| ==> ClientOf(rows[FirstOf(rows, client)]) == client
    ensures forall i :: 0 <= i < FirstOf(rows, client) && i < |rows| ==> ClientOf(rows[i]) != client
  {
    if rows != [] {
      FirstOfFacts(rows[1..], client);
      assert rows == [rows[0]] + rows[1..];
    }
  }

  /** What one group contributes to a client's record. */
  datatype Score = Score(won: bool, ratio: Ratio, rank: nat)

  function GroupScore(rows: seq<BenchmarkRow>, focus: string): Option<Score> {
    var at := FirstOf(rows, focus);
    FirstOfFacts(rows, focus);
    var ranked := Ranked(rows);
    if at == |rows| || ranked == [] || rows[at].primary.None? then None
    else Some(Score(ClientOf(ranked[0]) == focus, SafeRatio(PrimaryOf(rows[at]), PrimaryOf(ranked[0])),
                    FirstOf(ranked, focus) + 1))
  }

  /** Within one group every client has at most one row. */
  ghost predicate OneRowEach(rows: seq<BenchmarkRow>) {
    forall i, j :: 0 <= i < j < |rows| ==> ClientOf(rows[i]) != ClientOf(rows[j])
  }

  lemma RankedFacts(rows: seq<BenchmarkRow>)
    ensures forall r :: r in Ranked(rows) <==> r in rows && r.primary.Some?
    ensures Ranked(rows) != [] ==>
      forall r :: r in rows && r.primary.Some? ==> PrimaryOf(r) <= PrimaryOf(Ranked(rows)[0])
  {
    var measured, ranked := MeasuredRows(rows), Ranked(rows);
    MeasuredFacts(rows);
    GeOrdered();
    SortSorts(measured, PrimaryOf, RealGe);
    SameElements(ranked, measured);
    forall r | r in rows && r.primary.Some? ensures ranked != [] && PrimaryOf(r) <= PrimaryOf(ranked[0]) {
      assert r in ranked;
      var i :| 0 <= i < |ranked| && ranked[i] == r;
      if i > 0 { assert RealGe(PrimaryOf(ranked[0]), PrimaryOf(ranked[i])); }
    }
  }

  lemma GeOrdered()
    ensures TotalOrder(RealGe)
  {
  }

  /**
   A client's rank is one exactly when it wins; with nonnegative measurements its ratio to the winner lies between zero
   and one, and is one when it wins.
   */
  lemma ScoreFacts(rows: seq<BenchmarkRow>, focus: string)
    requires OneRowEach(rows) && GroupScore(rows, focus).Some?
    requires forall r :: r in rows && r.primary.Some? ==> r.primary.value >= 0.0
    ensures var s := GroupScore(rows, focus).value;
      && (s.rank == 1 <==> s.won)
      && 1 <= s.rank <= |Ranked(rows)|
      && s.ratio.Finite? && 0.0 <= s.ratio.x <= 1.0 && (s.won ==> s.ratio.x == 1.0)
  {
    var at, ranked := FirstOf(rows, focus), Ranked(rows);
    FirstOfFacts(rows, focus);
    FirstOfFacts(ranked, focus);
    RankedFacts(rows);
    assert rows[at] in ranked;
    assert ranked[0] in rows;
    RatioWithin(PrimaryOf(rows[at]), PrimaryOf(ranked[0]));
    if ClientOf(ranked[0]) == focus {
      OnlyRow(rows, rows[at], ranked[0]);
    }
  }

  lemma OnlyRow(rows: seq<BenchmarkRow>, a: BenchmarkRow, b: BenchmarkRow)
    requires OneRowEach(rows) && a in rows && b in rows && ClientOf(a) == ClientOf(b)
    ensures a == b
  {
    var i :| 0 <= i < |rows| && rows[i] == a;
    var j :| 0 <= j < |rows| && rows[j] == b;
  }

  /** A group with a measured row has exactly one winning client. */
  lemma OneWinner(rows: seq<BenchmarkRow>, focus: string)
    requires OneRowEach(rows) && Ranked(rows) != []
    ensures var winner := ClientOf(Ranked(rows)[0]);
      && (GroupScore(rows, winner).Some? && GroupScore(rows, winner).value.won)
      && (GroupScore(rows, focus).Some? && GroupScore(rows, focus).value.won <==> focus == winner)
  {
    var best := Ranked(rows)[0];
    RankedFacts(rows);
    assert best in Ranked(rows);
    FirstOfFacts(rows, ClientOf(best));
    var at := FirstOf(rows, ClientOf(best));
    var i :| 0 <= i < |rows| && rows[i] == best;
    OnlyRow(rows, rows[at], best);
  }

  /** Distinct identities leave each client at most one row in a group. */
  lemma GroupsHaveOneRowEach(rows: seq<BenchmarkRow>, group: seq<string>)
    requires DistinctRows(rows) && forall r :: r in rows ==> |r.identity| >= 2
    ensures OneRowEach(Select(rows, GroupOf, group))
    decreases |rows|
  {
    if rows != [] {
      var init, last := rows[..|rows| - 1], rows[|rows| - 1];
      GroupsHaveOneRowEach(init, group);
      SelectFacts(init, GroupOf, group);
      var before := Select(init, GroupOf, group);
      assert rows == init + [last];
      if GroupOf(last) == group {
        forall i | 0 <= i < |before| ensures ClientOf(before[i]) != ClientOf(last) {
          assert before[i] in init;
          ReportRows.GroupAndClient(before[i].identity, last.identity);
        }
      }
    }
  }

  // ---------------------------------------------------------------- a report's record

  datatype Wins = Wins(wins: nat, groups: nat, ratios: seq<Ratio>, ranks: seq<nat>)

  const NO_WINS := Wins(0, 0, [], [])

  function AddScore(w: Wins, score: Option<Score>): Wins {
    if score.None? then w
    else Wins(w.wins + (if score.value.won then 1 else 0), w.groups + 1, w.ratios + [score.value.ratio],
              w.ranks + [score.value.rank])
  }

  function WinsOver(rows: seq<BenchmarkRow>, groups: seq<seq<string>>, focus: string): Wins {
    if groups == [] then NO_WINS
    else AddScore(WinsOver(rows, groups[..|groups| - 1], focus),
                  GroupScore(Select(rows, GroupOf, groups[|groups| - 1]), focus))
  }

  /** A client's record over all groups of canonical rows. */
  function WinsIn(rows: seq<BenchmarkRow>, focus: string): Wins {
    WinsOver(rows, KeysOf(rows, GroupOf), focus)
  }

  /** `wins_for_report` on the canonical rows of a rankable report. */
  method WinsForReport(rows: seq<BenchmarkRow>, focus: string) returns (w: Wins)
    ensures w == WinsIn(rows, focus)
  {
    var groups, order := GroupBy(rows, GroupOf);
    w := NO_WINS;
    for k := 0 to |order|
      invariant w == WinsOver(rows, order[..k], focus)
    {
      assert order[..k + 1][..k] == order[..k];
      w := AddScore(w, GroupScore(Lookup(groups, order[k]), focus));
    }
    assert order[..|order|] == order;
  }

  /** The record is consistent: one ratio and one rank per group, and exactly as many wins as first ranks. */
  lemma {:induction false} RecordFacts(rows: seq<BenchmarkRow>, groups: seq<seq<string>>, focus: string)
    requires DistinctRows(rows) && forall r :: r in rows ==> |r.identity| >= 2
    requires forall r :: r in rows && r.primary.Some? ==> r.primary.value >= 0.0
    ensures var w := WinsOver(rows, groups, focus);
      && |w.ratios| == |w.ranks| == w.groups && w.wins <= w.groups <= |groups|
      && w.wins == Firsts(w.ranks)
      && forall i :: 0 <= i < |w.ratios| ==>
           && w.ratios[i].Finite? && 0.0 <= w.ratios[i].x <= 1.0 && w.ranks[i] >= 1
           && (w.ranks[i] == 1 ==> w.ratios[i].x == 1.0)
  {
    if groups != [] {
      var init, last := groups[..|groups| - 1], groups[|groups| - 1];
      RecordFacts(rows, init, focus);
      var own := Select(rows, GroupOf, last);
      GroupsHaveOneRowEach(rows, last);
      SelectFacts(rows, GroupOf, last);
      var w := WinsOver(rows, init, focus);
      if GroupScore(own, focus).Some? {
        ScoreFacts(own, focus);
        assert (w.ranks + [GroupScore(own, focus).value.rank])[..|w.ranks|] == w.ranks;
      }
    }
  }

  function Firsts(ranks: seq<nat>): nat {
    if ranks == [] then 0 else Firsts(ranks[..|ranks| - 1]) + if ranks[|ranks| - 1] == 1 then 1 else 0
  }

  // ---------------------------------------------------------------- the comparison

  datatype RowComparison = RowComparison(
    row: BenchmarkRow,
    oldPrimary: real,
    newPrimary: real,
    primaryRatio: Ratio,
    p95Ratio: Option<Ratio>,
    p99Ratio: Option<Ratio>,
    oldErrorsTotal: nat,
    newErrorsTotal: nat)

  datatype ErrorRow = ErrorRow(
    mode: string,
    client: string,
    scenario: string,
    rowLabel: string,
    errors: nat,
    warmupErrors: nat)

  datatype Segment = Segment(name: string, rows: nat, primary: Option<real>)

  datatype Resources = Resources(
    comparable: bool,
    oldRss: Option<real>,
    newRss: Option<real>,
    oldErrors: nat,
    newErrors: nat)

  datatype Comparison = Comparison(
    overall: Segment,
    byMode: seq<Segment>,
    byScenario: seq<Segment>,
    wins: Option<(Wins, Wins)>,
    improvements: seq<RowComparison>,
    regressions: seq<RowComparison>,
    errorRows: seq<ErrorRow>,
    resources: Resources,
    unmatchedOld: nat,
    unmatchedNew: nat)

  datatype Refusal = SuiteUnknown | SuitesDiffer | RepeatedIdentity | NothingShared

  /** `focus_rows_by_identity`, in canonical order. */
  function FocusRows(rows: seq<BenchmarkRow>, focus: string): seq<BenchmarkRow> {
    if rows == [] then []
    else
      var last := rows[|rows| - 1];
      FocusRows(rows[..|rows| - 1], focus) + if ClientOf(last) == focus && last.primary.Some? then [last] else []
  }

  function WithIdentity(rows: seq<BenchmarkRow>, identity: seq<string>): Option<BenchmarkRow> {
    if rows == [] then None
    else if rows[|rows| - 1].identity == identity then Some(rows[|rows| - 1])
    else WithIdentity(rows[..|rows| - 1], identity)
  }

  function CompareRow(oldRow: BenchmarkRow, newRow: BenchmarkRow): RowComparison {
    RowComparison(newRow, PrimaryOf(oldRow), PrimaryOf(newRow), SafeRatio(PrimaryOf(newRow), PrimaryOf(oldRow)),
                  OptionalRatio(newRow.p95Ms, oldRow.p95Ms), OptionalRatio(newRow.p99Ms, oldRow.p99Ms),
                  oldRow.errorsTotal, newRow.errorsTotal)
  }

  /** One comparison per shared identity, in order of identity. */
  function Shared(oldRows: seq<BenchmarkRow>, newRows: seq<BenchmarkRow>): seq<RowComparison> {
    if oldRows == [] then []
    else
      var last := oldRows[|oldRows| - 1];
      var match' := WithIdentity(newRows, last.identity);
      Shared(oldRows[..|oldRows| - 1], newRows) + if match'.Some? then [CompareRow(last, match'.value)] else []
  }

  predicate HasIdentity(rows: seq<BenchmarkRow>, identity: seq<string>) {
    exists r :: r in rows && r.identity == identity
  }

  lemma {:induction false} WithIdentityFacts(rows: seq<BenchmarkRow>, identity: seq<string>)
    ensures WithIdentity(rows, identity).Some? <==> HasIdentity(rows, identity)
    ensures WithIdentity(rows, identity).Some? ==>
      WithIdentity(rows, identity).value in rows && WithIdentity(rows, identity).value.identity == identity
  {
    if rows != [] {
      var init, last := rows[..|rows| - 1], rows[|rows| - 1];
      WithIdentityFacts(init, identity);
      assert rows == init + [last];
      if last.identity == identity {
        assert last in rows;
      } else {
        assert forall r :: r in rows && r.identity == identity <==> r in init && r.identity == identity;
      }
    }
  }

  function SharedIdentity(c: RowComparison): seq<string> { c.row.identity }

  /** Every comparison is of a row of the new list whose identity the old list has, ... */
  lemma {:induction false} SharedFrom(oldRows: seq<BenchmarkRow>, newRows: seq<BenchmarkRow>)
    ensures |Shared(oldRows, newRows)| <= |oldRows|
    ensures forall c :: c in Shared(oldRows, newRows) ==> c.row in newRows && HasIdentity(oldRows, c.row.identity)
  {
    if oldRows != [] {
      var init, last := oldRows[..|oldRows| - 1], oldRows[|oldRows| - 1];
      SharedFrom(init, newRows);
      WithIdentityFacts(newRows, last.identity);
      assert oldRows == init + [last];
      assert last in oldRows;
      forall c | c in Shared(init, newRows) ensures HasIdentity(oldRows, c.row.identity) {
        var r :| r in init && r.identity == c.row.identity;
        assert r in oldRows;
      }
    }
  }

  /** ... every identity both lists have is compared, ... */
  lemma {:induction false} SharedAll(oldRows: seq<BenchmarkRow>, newRows: seq<BenchmarkRow>, r: BenchmarkRow)
    requires r in oldRows && HasIdentity(newRows, r.identity)
    ensures exists c :: c in Shared(oldRows, newRows) && c.row.identity == r.identity
  {
    var init, last := oldRows[..|oldRows| - 1], oldRows[|oldRows| - 1];
    WithIdentityFacts(newRows, last.identity);
    assert oldRows == init + [last];
    var before, all := Shared(init, newRows), Shared(oldRows, newRows);
    if r in init {
      SharedAll(init, newRows, r);
      var c :| c in before && c.row.identity == r.identity;
      assert c in all;
    } else {
      assert all[|before|] in all;
    }
  }

  lemma BeforeLast(init: seq<BenchmarkRow>, last: BenchmarkRow, identity: seq<string>)
    requires DistinctRows(init + [last]) && Ascends(init + [last], IdentityOf, TupleLe) && HasIdentity(init, identity)
    ensures identity != last.identity && TupleLe(identity, last.identity)
  {
    var r :| r in init && r.identity == identity;
    var i :| 0 <= i < |init| && init[i] == r;
    var all := init + [last];
    assert IdentityOf(all[i]) != IdentityOf(all[|init|]) && TupleLe(IdentityOf(all[i]), IdentityOf(all[|init|]));
  }

  /** ... once each and in ascending order. */
  lemma {:induction false} SharedAscends(oldRows: seq<BenchmarkRow>, newRows: seq<BenchmarkRow>)
    requires DistinctRows(oldRows) && Ascends(oldRows, IdentityOf, TupleLe)
    ensures DistinctKeys(Shared(oldRows, newRows), SharedIdentity)
    ensures Ascends(Shared(oldRows, newRows), SharedIdentity, TupleLe)
  {
    if oldRows != [] {
      var init, last := oldRows[..|oldRows| - 1], oldRows[|oldRows| - 1];
      assert oldRows == init + [last];
      SharedAscends(init, newRows);
      SharedFrom(init, newRows);
      WithIdentityFacts(newRows, last.identity);
      var before := Shared(init, newRows);
      forall i | 0 <= i < |before|
        ensures SharedIdentity(before[i]) != last.identity && TupleLe(SharedIdentity(before[i]), last.identity)
      {
        assert before[i] in before;
        BeforeLast(init, last, before[i].row.identity);
      }
    }
  }

  function ModeOf(c: RowComparison): string { c.row.mode }

  function ScenarioOf(c: RowComparison): string { c.row.scenario }

  function Ratios(comparisons: seq<RowComparison>): seq<Ratio> {
    seq(|comparisons|, i requires 0 <= i < |comparisons| => comparisons[i].primaryRatio)
  }

  function Summarize(name: string, comparisons: seq<RowComparison>, geomean: seq<Ratio> -> Option<real>): Segment {
    Segment(name, |comparisons|, geomean(Ratios(comparisons)))
  }

  function ItselfName(name: string): string { name }

  function SummarizeBy(
    key: RowComparison -> string, comparisons: seq<RowComparison>, geomean: seq<Ratio> -> Option<real>)
    : seq<Segment>
  {
    SegmentsOf(key, comparisons, NamesOf(key, comparisons), geomean)
  }

  function RowsInSegments(segments: seq<Segment>): nat {
    if segments == [] then 0 else RowsInSegments(segments[..|segments| - 1]) + segments[|segments| - 1].rows
  }

  function SegmentsOf(
    key: RowComparison -> string, comparisons: seq<RowComparison>, names: seq<string>,
    geomean: seq<Ratio> -> Option<real>)
    : seq<Segment>
  {
    seq(|names|, i requires 0 <= i < |names| => Summarize(names[i], Select(comparisons, key, names[i]), geomean))
  }

  lemma {:induction false} SegmentsHold(
    key: RowComparison -> string, comparisons: seq<RowComparison>, names: seq<string>,
    geomean: seq<Ratio> -> Option<real>)
    ensures RowsInSegments(SegmentsOf(key, comparisons, names, geomean)) == HeldBy(comparisons, key, names)
  {
    if names != [] {
      SegmentsHold(key, comparisons, names[..|names| - 1], geomean);
      assert SegmentsOf(key, comparisons, names, geomean)[..|names| - 1]
          == SegmentsOf(key, comparisons, names[..|names| - 1], geomean);
    }
  }

  function NamesOf(key: RowComparison -> string, comparisons: seq<RowComparison>): seq<string> {
    SortBy(KeysOf(comparisons, key), ItselfName, StringLe)
  }

  lemma NamesFacts(key: RowComparison -> string, comparisons: seq<RowComparison>)
    ensures var names := NamesOf(key, comparisons);
      && (forall i, j :: 0 <= i < j < |names| ==> names[i] != names[j] && StringLe(names[i], names[j]))
      && (forall i :: 0 <= i < |names| ==> Select(comparisons, key, names[i]) != [])
      && (forall c :: c in comparisons ==> key(c) in names)
  {
    var order, names := KeysOf(comparisons, key), NamesOf(key, comparisons);
    StringsOrdered();
    KeysFacts(comparisons, key);
    SortSorts(order, ItselfName, StringLe);
    SameElements(names, order);
    PermutedDistinct(order, names, ItselfName);
    forall i, j | 0 <= i < j < |names| ensures names[i] != names[j] && StringLe(names[i], names[j]) {
      assert ItselfName(names[i]) != ItselfName(names[j]) && StringLe(ItselfName(names[i]), ItselfName(names[j]));
    }
    forall i | 0 <= i < |names| ensures Select(comparisons, key, names[i]) != [] {
      assert names[i] in order;
    }
  }

  /** Segments come in ascending order of name, and every comparison belongs to exactly one of them. */
  lemma SegmentsPartition(
    key: RowComparison -> string, comparisons: seq<RowComparison>, geomean: seq<Ratio> -> Option<real>)
    ensures var segments := SummarizeBy(key, comparisons, geomean);
      && RowsInSegments(segments) == |comparisons|
      && (forall i :: 0 <= i < |segments| ==> segments[i].rows == |Select(comparisons, key, segments[i].name)| > 0)
      && (forall i, j :: 0 <= i < j < |segments| ==>
            segments[i].name != segments[j].name && StringLe(segments[i].name, segments[j].name))
  {
    var names := NamesOf(key, comparisons);
    NamesFacts(key, comparisons);
    GroupsPartition(comparisons, key, names);
    SegmentsHold(key, comparisons, names, geomean);
  }

  predicate RatioLe(a: Ratio, b: Ratio) {
    b.Infinite? || (a.Finite? && a.x <= b.x)
  }

  predicate RatioGe(a: Ratio, b: Ratio) { RatioLe(b, a) }

  function RatioOf(c: RowComparison): Ratio { c.primaryRatio }

  function Top(comparisons: seq<RowComparison>, le: (Ratio, Ratio) -> bool, n: nat): seq<RowComparison> {
    var sorted := SortBy(comparisons, RatioOf, le);
    if n <= |sorted| then sorted[..n] else sorted
  }

  function ErrorRowsIn(rows: seq<BenchmarkRow>): seq<ErrorRow> {
    if rows == [] then []
    else
      var last := rows[|rows| - 1];
      ErrorRowsIn(rows[..|rows| - 1])
      + if last.errorsTotal == 0 && last.warmupErrorsTotal == 0 then []
        else
          [ErrorRow(last.mode, ClientOf(last), last.scenario, last.rowLabel, last.errorsTotal, last.warmupErrorsTotal)]
  }

  function ErrorKey(e: ErrorRow): seq<string> { [e.mode, e.client, e.scenario, e.rowLabel] }

  function MaxRss(rows: seq<BenchmarkRow>): Option<real> {
    if rows == [] then None
    else
      var before, last := MaxRss(rows[..|rows| - 1]), rows[|rows| - 1].rssMb;
      if last.None? then before else if before.None? || last.value > before.value then last else before
  }

  function SumErrors(rows: seq<BenchmarkRow>): nat {
    if rows == [] then 0 else SumErrors(rows[..|rows| - 1]) + rows[|rows| - 1].errorsTotal
  }

  /** `compare_reports`, once both reports have been put in canonical order. */
  function CompareCanonical(
    comparable: bool, ranked: bool, oldRows: seq<BenchmarkRow>, newRows: seq<BenchmarkRow>, focus: string, topN: nat,
    geomean: seq<Ratio> -> Option<real>): Result<Comparison, Refusal>
  {
    var oldFocus, newFocus := FocusRows(oldRows, focus), FocusRows(newRows, focus);
    var comparisons := Shared(oldFocus, newFocus);
    if comparisons == [] then Err(NothingShared)
    else
      var matched := |comparisons|;
      Ok(Comparison(
           Summarize("overall", comparisons, geomean),
           SummarizeBy(ModeOf, comparisons, geomean),
           SummarizeBy(ScenarioOf, comparisons, geomean),
           if ranked then Some((WinsIn(oldRows, focus), WinsIn(newRows, focus))) else None,
           Top(comparisons, RatioGe, topN), Top(comparisons, RatioLe, topN),
           SortBy(ErrorRowsIn(newRows), ErrorKey, TupleLe),
           Resources(comparable, if comparable then MaxRss(oldFocus) else None,
                     if comparable then MaxRss(newFocus) else None, SumErrors(oldFocus), SumErrors(newFocus)),
           if matched <= |oldFocus| then |oldFocus| - matched else 0,
           if matched <= |newFocus| then |newFocus| - matched else 0))
  }

  /** Both reports are valid, and their suites and profiles have winners. */
  predicate WinsCompared(oldReport: Report, newReport: Report) {
    oldReport.canCompare && newReport.canCompare && oldReport.rankable && newReport.rankable
  }

  ghost function CompareReports(
    oldReport: Report, newReport: Report, focus: string, topN: nat, geomean: seq<Ratio> -> Option<real>)
    : Result<Comparison, Refusal>
  {
    if oldReport.suite.None? || newReport.suite.None? then Err(SuiteUnknown)
    else if oldReport.suite != newReport.suite then Err(SuitesDiffer)
    else if !DistinctRows(oldReport.rows) || !DistinctRows(newReport.rows) then Err(RepeatedIdentity)
    else
      CompareCanonical(oldReport.scope == newReport.scope, WinsCompared(oldReport, newReport),
                       Canonical(oldReport.rows), Canonical(newReport.rows), focus, topN, geomean)
  }

  /** The result of a comparison does not depend on the order of the rows of either report. */
  lemma ComparisonForgetsOrder(
    oldReport: Report, newReport: Report, oldRows: seq<BenchmarkRow>, newRows: seq<BenchmarkRow>, focus: string,
    topN: nat,
    geomean: seq<Ratio> -> Option<real>)
    requires multiset(oldRows) == multiset(oldReport.rows) && multiset(newRows) == multiset(newReport.rows)
    ensures CompareReports(oldReport.(rows := oldRows), newReport.(rows := newRows), focus, topN, geomean)
         == CompareReports(oldReport, newReport, focus, topN, geomean)
  {
    CanonicalForgetsOrder(oldReport.rows, oldRows);
    CanonicalForgetsOrder(newReport.rows, newRows);
  }
}
