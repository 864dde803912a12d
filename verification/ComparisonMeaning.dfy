/** What a comparison of two reports says, in terms of the rows of the two reports. */
module ComparisonMeaning {
  import opened Common
  import opened Ordering
  import opened Grouping
  import opened Comparison

  // ---------------------------------------------------------------- ratios

  /** The new value divided by the old one: above one is an improvement. */
  ghost predicate RatioMeans(ratio: Ratio, newValue: real, oldValue: real) {
    if oldValue > 0.0 then ratio.Finite? && ratio.x * oldValue == newValue
    else if newValue > 0.0 then ratio == Infinite
    else ratio == Finite(1.0)
  }

  lemma SafeRatioMeans(newValue: real, oldValue: real)
    ensures RatioMeans(SafeRatio(newValue, oldValue), newValue, oldValue)
  {
    if oldValue > 0.0 { assert newValue / oldValue * oldValue == newValue; }
  }

  ghost predicate OptionalRatioMeans(ratio: Option<Ratio>, newValue: Option<real>, oldValue: Option<real>) {
    && (ratio.Some? <==> newValue.Some? && oldValue.Some?)
    && (ratio.Some? ==> RatioMeans(ratio.value, newValue.value, oldValue.value))
  }

  // ---------------------------------------------------------------- compared rows

  /** `c` compares the old row `o` with the new row `n`. */
  ghost predicate Compares(c: RowComparison, o: BenchmarkRow, n: BenchmarkRow) {
    && o.identity == n.identity && c.row == n
    && o.primary == Some(c.oldPrimary) && n.primary == Some(c.newPrimary)
    && RatioMeans(c.primaryRatio, c.newPrimary, c.oldPrimary)
    && OptionalRatioMeans(c.p95Ratio, n.p95Ms, o.p95Ms) && OptionalRatioMeans(c.p99Ratio, n.p99Ms, o.p99Ms)
    && c.oldErrorsTotal == o.errorsTotal && c.newErrorsTotal == n.errorsTotal
  }

  ghost predicate Measured(rows: seq<BenchmarkRow>) {
    forall r :: r in rows ==> r.primary.Some?
  }

  lemma RowCompares(o: BenchmarkRow, n: BenchmarkRow)
    requires o.identity == n.identity && o.primary.Some? && n.primary.Some?
    ensures Compares(CompareRow(o, n), o, n)
  {
    SafeRatioMeans(n.primary.value, o.primary.value);
    if n.p95Ms.Some? && o.p95Ms.Some? { SafeRatioMeans(n.p95Ms.value, o.p95Ms.value); }
    if n.p99Ms.Some? && o.p99Ms.Some? { SafeRatioMeans(n.p99Ms.value, o.p99Ms.value); }
  }

  ghost predicate ComparesSome(c: RowComparison, oldRows: seq<BenchmarkRow>, newRows: seq<BenchmarkRow>) {
    exists o, n :: o in oldRows && n in newRows && Compares(c, o, n)
  }

  /** Every comparison is of an old and a new measured row with one identity, new against old. */
  lemma {:induction false} SharedCompares(oldRows: seq<BenchmarkRow>, newRows: seq<BenchmarkRow>)
    requires Measured(oldRows) && Measured(newRows)
    ensures forall c :: c in Shared(oldRows, newRows) ==> ComparesSome(c, oldRows, newRows)
  {
    if oldRows != [] {
      var init, last := oldRows[..|oldRows| - 1], oldRows[|oldRows| - 1];
      assert oldRows == init + [last] && last in oldRows;
      assert Measured(init);
      SharedCompares(init, newRows);
      WithIdentityFacts(newRows, last.identity);
      var found := WithIdentity(newRows, last.identity);
      if found.Some? { RowCompares(last, found.value); }
      forall c | c in Shared(oldRows, newRows) ensures ComparesSome(c, oldRows, newRows) {
        if c in Shared(init, newRows) {
          var o, n :| o in init && n in newRows && Compares(c, o, n);
          assert o in oldRows;
        } else {
          assert Compares(c, last, found.value);
        }
      }
    }
  }

  /** The measured rows of one client, in their order. */
  lemma {:induction false} FocusFacts(rows: seq<BenchmarkRow>, focus: string)
    ensures forall r :: r in FocusRows(rows, focus) <==> r in rows && ClientOf(r) == focus && r.primary.Some?
    ensures |FocusRows(rows, focus)| <= |rows|
    ensures DistinctRows(rows) ==> DistinctRows(FocusRows(rows, focus))
    ensures Ascends(rows, IdentityOf, TupleLe) ==> Ascends(FocusRows(rows, focus), IdentityOf, TupleLe)
  {
    if rows != [] {
      var init, last := rows[..|rows| - 1], rows[|rows| - 1];
      assert rows == init + [last];
      FocusFacts(init, focus);
      var before := FocusRows(init, focus);
      forall i | 0 <= i < |before|
        ensures DistinctRows(rows) ==> IdentityOf(before[i]) != IdentityOf(last)
        ensures Ascends(rows, IdentityOf, TupleLe) ==> TupleLe(IdentityOf(before[i]), IdentityOf(last))
      {
        assert before[i] in before;
        var k :| 0 <= k < |init| && init[k] == before[i];
        assert rows[k] == before[i] && rows[|init|] == last;
      }
    }
  }

  // ---------------------------------------------------------------- best and worst

  lemma RatiosOrdered()
    ensures TotalOrder(RatioLe) && TotalOrder(RatioGe)
  {
  }

  /** `top` and `rest` are all elements; `top` has as many as asked for, or all there are. */
  ghost predicate Splits(
    top: seq<RowComparison>, rest: seq<RowComparison>, all: seq<RowComparison>, n: nat)
  {
    |top| == (if n <= |all| then n else |all|) && multiset(top) + multiset(rest) == multiset(all)
  }

  ghost predicate Descending(top: seq<RowComparison>, rest: seq<RowComparison>) {
    && (forall i, j :: 0 <= i < j < |top| ==> RatioLe(top[j].primaryRatio, top[i].primaryRatio))
    && (forall i, j :: 0 <= i < |top| && 0 <= j < |rest| ==> RatioLe(rest[j].primaryRatio, top[i].primaryRatio))
  }

  ghost predicate Ascending(top: seq<RowComparison>, rest: seq<RowComparison>) {
    && (forall i, j :: 0 <= i < j < |top| ==> RatioLe(top[i].primaryRatio, top[j].primaryRatio))
    && (forall i, j :: 0 <= i < |top| && 0 <= j < |rest| ==> RatioLe(top[i].primaryRatio, rest[j].primaryRatio))
  }

  /** Entries with one ratio keep the order of their identities. */
  ghost predicate TiesInOrder(top: seq<RowComparison>) {
    forall i, j :: 0 <= i < j < |top| && top[i].primaryRatio == top[j].primaryRatio ==>
      TupleLe(top[i].row.identity, top[j].row.identity)
  }

  /** The greatest ratios, best first; nothing left out beats an entry that is in, and ties keep their order. */
  ghost predicate Best(top: seq<RowComparison>, all: seq<RowComparison>, n: nat) {
    TiesInOrder(top) && exists rest :: Splits(top, rest, all, n) && Descending(top, rest)
  }

  /** The smallest ratios, worst first. */
  ghost predicate Worst(top: seq<RowComparison>, all: seq<RowComparison>, n: nat) {
    TiesInOrder(top) && exists rest :: Splits(top, rest, all, n) && Ascending(top, rest)
  }

  lemma SortedSplits(all: seq<RowComparison>, le: (Ratio, Ratio) -> bool, n: nat)
    returns (rest: seq<RowComparison>)
    requires TotalOrder(le)
    ensures Splits(Top(all, le, n), rest, all, n)
    ensures forall i, j :: 0 <= i < j < |Top(all, le, n)| ==>
      le(Top(all, le, n)[i].primaryRatio, Top(all, le, n)[j].primaryRatio)
    ensures forall i, j :: 0 <= i < |Top(all, le, n)| && 0 <= j < |rest| ==>
      le(Top(all, le, n)[i].primaryRatio, rest[j].primaryRatio)
  {
    var sorted := SortBy(all, RatioOf, le);
    SortSorts(all, RatioOf, le);
    var m := if n <= |sorted| then n else |sorted|;
    rest := sorted[m..];
    assert sorted == sorted[..m] + rest && sorted[..|sorted|] == sorted;
    forall i, j | 0 <= i < j < |sorted| ensures le(sorted[i].primaryRatio, sorted[j].primaryRatio) {
      assert le(RatioOf(sorted[i]), RatioOf(sorted[j]));
    }
    assert forall j :: 0 <= j < |rest| ==> rest[j] == sorted[m + j];
  }

  lemma TopTies(all: seq<RowComparison>, le: (Ratio, Ratio) -> bool, n: nat)
    requires TotalOrder(le) && Ascends(all, SharedIdentity, TupleLe)
    ensures TiesInOrder(Top(all, le, n))
  {
    var top, sorted := Top(all, le, n), SortBy(all, RatioOf, le);
    forall i, j | 0 <= i < j < |top| && top[i].primaryRatio == top[j].primaryRatio
      ensures TupleLe(top[i].row.identity, top[j].row.identity)
    {
      assert RatioOf(sorted[i]) == RatioOf(sorted[j]);
      TiesAscend(all, RatioOf, le, SharedIdentity, TupleLe, i, j);
    }
  }

  lemma TopsAreBestAndWorst(all: seq<RowComparison>, n: nat)
    requires Ascends(all, SharedIdentity, TupleLe)
    ensures Best(Top(all, RatioGe, n), all, n) && Worst(Top(all, RatioLe, n), all, n)
  {
    RatiosOrdered();
    TopTies(all, RatioGe, n);
    TopTies(all, RatioLe, n);
    var below := SortedSplits(all, RatioGe, n);
    var above := SortedSplits(all, RatioLe, n);
    assert Descending(Top(all, RatioGe, n), below);
    assert Ascending(Top(all, RatioLe, n), above);
  }

  // ---------------------------------------------------------------- winners

  /** The measured rows of a group with more than `v`, and with at least `v`. */
  ghost function Above(rows: seq<BenchmarkRow>, v: real): set<BenchmarkRow> {
    set r | r in rows && r.primary.Some? && r.primary.value > v
  }

  ghost function Reaching(rows: seq<BenchmarkRow>, v: real): set<BenchmarkRow> {
    set r | r in rows && r.primary.Some? && r.primary.value >= v
  }

  /** `s` scores the row `own` of a group: what its best row times the ratio is, and how many rows rank before it. */
  ghost predicate Scores(s: Score, own: BenchmarkRow, rows: seq<BenchmarkRow>) {
    && own in rows && own.primary.Some?
    && (exists best :: best in rows && best.primary.Some? && Above(rows, best.primary.value) == {}
          && RatioMeans(s.ratio, own.primary.value, best.primary.value)
          && (s.won <==> ClientOf(best) == ClientOf(own)))
    && |Above(rows, own.primary.value)| < s.rank <= |Reaching(rows, own.primary.value)|
  }

  ghost function ElementsOf(s: seq<BenchmarkRow>): set<BenchmarkRow> {
    set x | x in s
  }

  lemma {:induction false} ElementCount(s: seq<BenchmarkRow>)
    ensures |ElementsOf(s)| <= |s|
    ensures (forall i, j :: 0 <= i < j < |s| ==> s[i] != s[j]) ==> |ElementsOf(s)| == |s|
  {
    if s != [] {
      var init, last := s[..|s| - 1], s[|s| - 1];
      ElementCount(init);
      assert s == init + [last];
      assert ElementsOf(s) == ElementsOf(init) + {last};
    }
  }

  lemma RankedOnce(rows: seq<BenchmarkRow>)
    requires OneRowEach(rows)
    ensures forall i, j :: 0 <= i < j < |Ranked(rows)| ==> ClientOf(Ranked(rows)[i]) != ClientOf(Ranked(rows)[j])
    ensures Ascends(Ranked(rows), PrimaryOf, RealGe)
  {
    GeOrdered();
    MeasuredOnce(rows);
    SortSorts(MeasuredRows(rows), PrimaryOf, RealGe);
    PermutedDistinct(MeasuredRows(rows), Ranked(rows), ClientOf);
    forall i, j | 0 <= i < j < |Ranked(rows)| ensures ClientOf(Ranked(rows)[i]) != ClientOf(Ranked(rows)[j]) {
      assert DistinctKeys(Ranked(rows), ClientOf);
    }
  }

  lemma {:induction false} MeasuredOnce(rows: seq<BenchmarkRow>)
    requires OneRowEach(rows)
    ensures DistinctKeys(MeasuredRows(rows), ClientOf)
  {
    if rows != [] {
      var init, last := rows[..|rows| - 1], rows[|rows| - 1];
      MeasuredOnce(init);
      MeasuredFacts(init);
      var before := MeasuredRows(init);
      forall i | 0 <= i < |before| ensures ClientOf(before[i]) != ClientOf(last) {
        assert before[i] in init;
        var k :| 0 <= k < |init| && init[k] == before[i];
        assert rows[k] == before[i] && rows[|init|] == last;
      }
    }
  }

  lemma RankedAbove(rows: seq<BenchmarkRow>, at: nat)
    requires OneRowEach(rows) && at < |Ranked(rows)|
    ensures |Above(rows, PrimaryOf(Ranked(rows)[at]))| <= at
  {
    var ranked := Ranked(rows);
    var v := PrimaryOf(ranked[at]);
    RankedFacts(rows);
    RankedOnce(rows);
    forall k | at < k < |ranked| ensures PrimaryOf(ranked[k]) <= v {
      assert RealGe(PrimaryOf(ranked[at]), PrimaryOf(ranked[k]));
    }
    forall r | r in Above(rows, v) ensures r in ElementsOf(ranked[..at]) {
      assert r in ranked;
      var k :| 0 <= k < |ranked| && ranked[k] == r;
      assert ranked[..at][k] == r;
    }
    ElementCount(ranked[..at]);
    Subset(Above(rows, v), ElementsOf(ranked[..at]));
  }

  lemma RankedReaching(rows: seq<BenchmarkRow>, at: nat)
    requires OneRowEach(rows) && at < |Ranked(rows)|
    ensures at < |Reaching(rows, PrimaryOf(Ranked(rows)[at]))|
  {
    var ranked := Ranked(rows);
    var v, upto := PrimaryOf(ranked[at]), ranked[..at + 1];
    RankedFacts(rows);
    RankedOnce(rows);
    forall r | r in ElementsOf(upto) ensures r in Reaching(rows, v) {
      var k :| 0 <= k < at + 1 && upto[k] == r;
      assert r == ranked[k] && ranked[k] in ranked;
      if k < at { assert RealGe(PrimaryOf(ranked[k]), PrimaryOf(ranked[at])); }
    }
    ElementCount(upto);
    Subset(ElementsOf(upto), Reaching(rows, v));
  }

  lemma {:induction false} Subset<T>(a: set<T>, b: set<T>)
    requires a <= b
    ensures |a| <= |b|
  {
    if a != {} {
      var x :| x in a;
      Subset(a - {x}, b - {x});
    }
  }

  /** The score of a client in a group is that of its one row. */
  lemma ScoreMeans(rows: seq<BenchmarkRow>, own: BenchmarkRow)
    requires OneRowEach(rows) && own in rows
    ensures GroupScore(rows, ClientOf(own)).Some? <==> own.primary.Some?
    ensures GroupScore(rows, ClientOf(own)).Some? ==> Scores(GroupScore(rows, ClientOf(own)).value, own, rows)
  {
    var focus, ranked := ClientOf(own), Ranked(rows);
    RankedFacts(rows);
    FirstOfFacts(rows, focus);
    FirstOfFacts(ranked, focus);
    var i :| 0 <= i < |rows| && rows[i] == own;
    OnlyRow(rows, rows[FirstOf(rows, focus)], own);
    if own.primary.Some? {
      assert own in ranked;
      var at := FirstOf(ranked, focus);
      var k :| 0 <= k < |ranked| && ranked[k] == own;
      assert ClientOf(ranked[k]) == focus;
      assert ranked[at] in ranked;
      OnlyRow(rows, ranked[at], own);
      RankedAbove(rows, at);
      RankedReaching(rows, at);
      SafeRatioMeans(own.primary.value, PrimaryOf(ranked[0]));
      assert ranked[0] in ranked;
      assert Above(rows, PrimaryOf(ranked[0])) == {};
    }
  }

  // ---------------------------------------------------------------- unmatched rows

  ghost function IdentitiesOf(rows: seq<BenchmarkRow>): set<seq<string>> {
    set r | r in rows :: r.identity
  }

  lemma IdentitiesSnoc(init: seq<BenchmarkRow>, last: BenchmarkRow)
    ensures IdentitiesOf(init + [last]) == IdentitiesOf(init) + {last.identity}
  {
    var all := init + [last];
    forall id ensures id in IdentitiesOf(all) <==> id in IdentitiesOf(init) + {last.identity} {
      if id in IdentitiesOf(init) {
        var r :| r in init && r.identity == id;
        assert r in all;
      }
      if id == last.identity { assert all[|init|] in all; }
      if id in IdentitiesOf(all) {
        var r :| r in all && r.identity == id;
        assert r in init || r == last;
      }
    }
  }

  lemma LastIsNew(init: seq<BenchmarkRow>, last: BenchmarkRow)
    requires DistinctRows(init + [last])
    ensures last.identity !in IdentitiesOf(init)
  {
    var rows := init + [last];
    forall r | r in init ensures r.identity != last.identity {
      var k :| 0 <= k < |init| && init[k] == r;
      assert IdentityOf(rows[k]) != IdentityOf(rows[|init|]);
    }
  }

  lemma {:induction false} DistinctSize(rows: seq<BenchmarkRow>)
    requires DistinctRows(rows)
    ensures |IdentitiesOf(rows)| == |rows|
  {
    if rows != [] {
      var init, last := rows[..|rows| - 1], rows[|rows| - 1];
      assert rows == init + [last];
      DistinctSize(init);
      IdentitiesSnoc(init, last);
      LastIsNew(init, last);
    }
  }

  /** As many rows are compared as there are identities in both lists. */
  lemma {:induction false} SharedSize(oldRows: seq<BenchmarkRow>, newRows: seq<BenchmarkRow>)
    requires DistinctRows(oldRows)
    ensures |Shared(oldRows, newRows)| == |IdentitiesOf(oldRows) * IdentitiesOf(newRows)|
  {
    if oldRows == [] {
      assert IdentitiesOf(oldRows) * IdentitiesOf(newRows) == {};
    } else {
      var init, last := oldRows[..|oldRows| - 1], oldRows[|oldRows| - 1];
      assert oldRows == init + [last];
      SharedSize(init, newRows);
      IdentitiesSnoc(init, last);
      WithIdentityFacts(newRows, last.identity);
      LastIsNew(init, last);
      OneMoreShared(IdentitiesOf(init), IdentitiesOf(newRows), last.identity);
      HasIdentityIff(newRows, last.identity);
    }
  }

  lemma HasIdentityIff(rows: seq<BenchmarkRow>, identity: seq<string>)
    ensures HasIdentity(rows, identity) <==> identity in IdentitiesOf(rows)
  {
  }

  lemma OneMoreShared<T>(a: set<T>, b: set<T>, x: T)
    requires x !in a
    ensures |(a + {x}) * b| == |a * b| + if x in b then 1 else 0
  {
    assert (a + {x}) * b == a * b + if x in b then {x} else {};
  }

  lemma Difference<T>(a: set<T>, b: set<T>)
    ensures |a - b| == |a| - |a * b|
  {
    assert a == (a - b) + a * b;
  }

  // ---------------------------------------------------------------- errors and resources

  predicate HasErrors(r: BenchmarkRow) { r.errorsTotal > 0 || r.warmupErrorsTotal > 0 }

  ghost predicate Reports(e: ErrorRow, r: BenchmarkRow) {
    && e.mode == r.mode && e.client == ClientOf(r) && e.scenario == r.scenario && e.rowLabel == r.rowLabel
    && e.errors == r.errorsTotal && e.warmupErrors == r.warmupErrorsTotal
  }

  ghost predicate ReportsSome(e: ErrorRow, rows: seq<BenchmarkRow>) {
    exists r :: r in rows && HasErrors(r) && Reports(e, r)
  }

  ghost predicate ReportedIn(r: BenchmarkRow, errors: seq<ErrorRow>) {
    exists e :: e in errors && Reports(e, r)
  }

  /** Exactly the rows with errors are listed. */
  lemma {:induction false} ErrorRowsFacts(rows: seq<BenchmarkRow>)
    ensures forall e :: e in ErrorRowsIn(rows) ==> ReportsSome(e, rows)
    ensures forall r :: r in rows && HasErrors(r) ==> ReportedIn(r, ErrorRowsIn(rows))
  {
    if rows != [] {
      var init, last := rows[..|rows| - 1], rows[|rows| - 1];
      assert rows == init + [last] && last in rows;
      ErrorRowsFacts(init);
      var before, all := ErrorRowsIn(init), ErrorRowsIn(rows);
      if HasErrors(last) { assert all[|before|] in all && Reports(all[|before|], last); }
      forall e | e in all ensures ReportsSome(e, rows) {
        if e in before {
          var r :| r in init && HasErrors(r) && Reports(e, r);
          assert r in rows;
        }
      }
      forall r | r in rows && HasErrors(r) ensures ReportedIn(r, all) {
        if r in init {
          var e :| e in before && Reports(e, r);
          assert e in all;
        }
      }
    }
  }

  ghost predicate LargestRss(m: Option<real>, rows: seq<BenchmarkRow>) {
    && (m.None? <==> forall r :: r in rows ==> r.rssMb.None?)
    && (m.Some? ==> exists r :: r in rows && r.rssMb == m)
    && (forall r :: r in rows && r.rssMb.Some? ==> m.Some? && r.rssMb.value <= m.value)
  }

  lemma {:induction false} MaxRssIsLargest(rows: seq<BenchmarkRow>)
    ensures LargestRss(MaxRss(rows), rows)
  {
    if rows != [] {
      var init, last := rows[..|rows| - 1], rows[|rows| - 1];
      assert rows == init + [last] && last in rows;
      MaxRssIsLargest(init);
      if MaxRss(rows) != last.rssMb {
        if MaxRss(init).Some? {
          var r :| r in init && r.rssMb == MaxRss(init);
          assert r in rows;
        }
      }
    }
  }

  ghost function Erring(rows: seq<BenchmarkRow>): set<BenchmarkRow> {
    set r | r in rows && HasErrors(r)
  }

  /** One entry for each row with errors. */
  lemma {:induction false} ErrorRowsSize(rows: seq<BenchmarkRow>)
    requires DistinctRows(rows)
    ensures |ErrorRowsIn(rows)| == |Erring(rows)|
  {
    if rows != [] {
      var init, last := rows[..|rows| - 1], rows[|rows| - 1];
      assert rows == init + [last];
      ErrorRowsSize(init);
      LastIsNew(init, last);
      assert last !in init;
      assert Erring(rows) == Erring(init) + if HasErrors(last) then {last} else {};
    }
  }

  lemma {:induction false} SumErrorsAppend(a: seq<BenchmarkRow>, b: seq<BenchmarkRow>)
    ensures SumErrors(a + b) == SumErrors(a) + SumErrors(b)
  {
    if b == [] {
      assert a + b == a;
    } else {
      assert (a + b)[..|a + b| - 1] == a + b[..|b| - 1];
      SumErrorsAppend(a, b[..|b| - 1]);
    }
  }

  lemma SumErrorsWithout(b: seq<BenchmarkRow>, i: nat)
    requires i < |b|
    ensures SumErrors(b) == SumErrors(b[..i] + b[i + 1..]) + b[i].errorsTotal
  {
    assert b == b[..i + 1] + b[i + 1..] && b[..i + 1][..i] == b[..i];
    SumErrorsAppend(b[..i + 1], b[i + 1..]);
    SumErrorsAppend(b[..i], b[i + 1..]);
  }

  lemma {:induction false} SumErrorsPermuted(a: seq<BenchmarkRow>, b: seq<BenchmarkRow>)
    requires multiset(a) == multiset(b)
    ensures SumErrors(a) == SumErrors(b)
  {
    if a == [] {
      assert |multiset(b)| == 0;
    } else {
      var last := a[|a| - 1];
      assert last in multiset(a);
      var i :| 0 <= i < |b| && b[i] == last;
      Without(b, i);
      DropLast(a);
      SumErrorsPermuted(a[..|a| - 1], b[..i] + b[i + 1..]);
      SumErrorsWithout(b, i);
    }
  }

  lemma {:induction false} FocusCounts(rows: seq<BenchmarkRow>, focus: string, r: BenchmarkRow)
    ensures multiset(FocusRows(rows, focus))[r]
         == if ClientOf(r) == focus && r.primary.Some? then multiset(rows)[r] else 0
  {
    if rows != [] {
      FocusCounts(rows[..|rows| - 1], focus, r);
      assert rows == rows[..|rows| - 1] + [rows[|rows| - 1]];
    }
  }

  lemma FocusPermuted(a: seq<BenchmarkRow>, b: seq<BenchmarkRow>, focus: string)
    requires multiset(a) == multiset(b)
    ensures multiset(FocusRows(a, focus)) == multiset(FocusRows(b, focus))
  {
    forall r ensures multiset(FocusRows(a, focus))[r] == multiset(FocusRows(b, focus))[r] {
      FocusCounts(a, focus, r);
      FocusCounts(b, focus, r);
    }
  }

  // ---------------------------------------------------------------- the comparisons of two reports

  ghost predicate FocusRow(r: BenchmarkRow, rows: seq<BenchmarkRow>, focus: string) {
    r in rows && ClientOf(r) == focus && r.primary.Some?
  }

  ghost predicate OfFocus(c: RowComparison, oldRows: seq<BenchmarkRow>, newRows: seq<BenchmarkRow>, focus: string) {
    exists o, n :: FocusRow(o, oldRows, focus) && FocusRow(n, newRows, focus) && Compares(c, o, n)
  }

  ghost predicate ComparedIn(o: BenchmarkRow, n: BenchmarkRow, cs: seq<RowComparison>) {
    exists c :: c in cs && Compares(c, o, n)
  }

  /** One comparison for each identity of the client that both lists measure, and no other, in order of identity. */
  ghost predicate AllCompared(
    cs: seq<RowComparison>, oldRows: seq<BenchmarkRow>, newRows: seq<BenchmarkRow>, focus: string)
  {
    && DistinctKeys(cs, SharedIdentity) && Ascends(cs, SharedIdentity, TupleLe)
    && (forall c :: c in cs ==> OfFocus(c, oldRows, newRows, focus))
    && (forall o, n :: FocusRow(o, oldRows, focus) && FocusRow(n, newRows, focus) && o.identity == n.identity ==>
          ComparedIn(o, n, cs))
  }

  function SharedOf(oldReport: Report, newReport: Report, focus: string): seq<RowComparison> {
    Shared(FocusRows(Canonical(oldReport.rows), focus), FocusRows(Canonical(newReport.rows), focus))
  }

  lemma CanonicalFacts(rows: seq<BenchmarkRow>)
    requires DistinctRows(rows)
    ensures DistinctRows(Canonical(rows)) && Ascends(Canonical(rows), IdentityOf, TupleLe)
    ensures multiset(Canonical(rows)) == multiset(rows)
    ensures forall r :: r in Canonical(rows) <==> r in rows
  {
    TuplesOrdered();
    SortSorts(rows, IdentityOf, TupleLe);
    PermutedDistinct(rows, Canonical(rows), IdentityOf);
    SameElements(Canonical(rows), rows);
  }

  lemma CanonicalFocus(rows: seq<BenchmarkRow>, focus: string)
    requires DistinctRows(rows)
    ensures var own := FocusRows(Canonical(rows), focus);
      && DistinctRows(own) && Ascends(own, IdentityOf, TupleLe) && Measured(own)
      && (forall r :: r in own <==> FocusRow(r, rows, focus))
      && multiset(own) == multiset(FocusRows(rows, focus))
  {
    CanonicalFacts(rows);
    FocusFacts(Canonical(rows), focus);
    FocusPermuted(Canonical(rows), rows, focus);
  }

  lemma SameRow(rows: seq<BenchmarkRow>, a: BenchmarkRow, b: BenchmarkRow)
    requires DistinctRows(rows) && a in rows && b in rows && a.identity == b.identity
    ensures a == b
  {
    var i :| 0 <= i < |rows| && rows[i] == a;
    var j :| 0 <= j < |rows| && rows[j] == b;
    assert IdentityOf(rows[i]) == IdentityOf(rows[j]);
  }

  lemma PairCompared(oldRows: seq<BenchmarkRow>, newRows: seq<BenchmarkRow>, o: BenchmarkRow, n: BenchmarkRow)
    requires DistinctRows(oldRows) && DistinctRows(newRows) && Measured(oldRows) && Measured(newRows)
    requires o in oldRows && n in newRows && o.identity == n.identity
    ensures ComparedIn(o, n, Shared(oldRows, newRows))
  {
    SharedAll(oldRows, newRows, o);
    SharedCompares(oldRows, newRows);
    var c :| c in Shared(oldRows, newRows) && c.row.identity == o.identity;
    var o', n' :| o' in oldRows && n' in newRows && Compares(c, o', n');
    SameRow(oldRows, o, o');
    SameRow(newRows, n, n');
  }

  lemma SharedAllCompared(oldReport: Report, newReport: Report, focus: string)
    requires DistinctRows(oldReport.rows) && DistinctRows(newReport.rows)
    ensures AllCompared(SharedOf(oldReport, newReport, focus), oldReport.rows, newReport.rows, focus)
  {
    var a, b := FocusRows(Canonical(oldReport.rows), focus), FocusRows(Canonical(newReport.rows), focus);
    CanonicalFocus(oldReport.rows, focus);
    CanonicalFocus(newReport.rows, focus);
    SharedAscends(a, b);
    SharedCompares(a, b);
    forall c | c in Shared(a, b) ensures OfFocus(c, oldReport.rows, newReport.rows, focus) {
      var o, n :| o in a && n in b && Compares(c, o, n);
      assert FocusRow(o, oldReport.rows, focus) && FocusRow(n, newReport.rows, focus);
    }
    forall o, n | FocusRow(o, oldReport.rows, focus) && FocusRow(n, newReport.rows, focus) && o.identity == n.identity
      ensures ComparedIn(o, n, Shared(a, b))
    {
      PairCompared(a, b, o, n);
    }
  }

  // ---------------------------------------------------------------- the result

  /** One nonempty segment for each name, in ascending order, with the mean of its ratios. */
  ghost predicate Segmented(
    segments: seq<Segment>, cs: seq<RowComparison>, key: RowComparison -> string, geomean: seq<Ratio> -> Option<real>)
  {
    && (forall i, j :: 0 <= i < j < |segments| ==>
          segments[i].name != segments[j].name && StringLe(segments[i].name, segments[j].name))
    && (forall i :: 0 <= i < |segments| ==>
          segments[i].rows > 0 && Covers(segments[i], Select(cs, key, segments[i].name), geomean))
    && RowsInSegments(segments) == |cs|
  }

  ghost predicate Covers(segment: Segment, own: seq<RowComparison>, geomean: seq<Ratio> -> Option<real>) {
    && segment.rows == |own|
    && exists ratios: seq<Ratio> :: |ratios| == |own| && segment.primary == geomean(ratios)
         && forall i :: 0 <= i < |own| ==> ratios[i] == own[i].primaryRatio
  }

  lemma SummaryCovers(name: string, cs: seq<RowComparison>, geomean: seq<Ratio> -> Option<real>)
    ensures Covers(Summarize(name, cs, geomean), cs, geomean)
  {
    assert forall i :: 0 <= i < |cs| ==> Ratios(cs)[i] == cs[i].primaryRatio;
  }

  lemma SummariesSegment(
    key: RowComparison -> string, cs: seq<RowComparison>, geomean: seq<Ratio> -> Option<real>)
    ensures Segmented(SummarizeBy(key, cs, geomean), cs, key, geomean)
  {
    SegmentsPartition(key, cs, geomean);
    var segments := SummarizeBy(key, cs, geomean);
    forall i | 0 <= i < |segments| ensures Covers(segments[i], Select(cs, key, segments[i].name), geomean) {
      SummaryCovers(segments[i].name, Select(cs, key, segments[i].name), geomean);
    }
  }

  ghost predicate ListedBefore(a: ErrorRow, b: ErrorRow) {
    TupleLe([a.mode, a.client, a.scenario, a.rowLabel], [b.mode, b.client, b.scenario, b.rowLabel])
  }

  /** One entry for each row with errors, by mode, client, scenario and label. */
  ghost predicate ErrorsListed(errors: seq<ErrorRow>, rows: seq<BenchmarkRow>) {
    && (forall i, j :: 0 <= i < j < |errors| ==> ListedBefore(errors[i], errors[j]))
    && |errors| == |Erring(rows)|
    && (forall e :: e in errors ==> ReportsSome(e, rows))
    && (forall r :: r in rows && HasErrors(r) ==> ReportedIn(r, errors))
  }

  lemma ErrorsAreListed(rows: seq<BenchmarkRow>)
    requires DistinctRows(rows)
    ensures ErrorsListed(SortBy(ErrorRowsIn(Canonical(rows)), ErrorKey, TupleLe), rows)
  {
    var canonical := Canonical(rows);
    var listed := ErrorRowsIn(canonical);
    var sorted := SortBy(listed, ErrorKey, TupleLe);
    CanonicalFacts(rows);
    ErrorRowsFacts(canonical);
    ErrorRowsSize(canonical);
    assert Erring(canonical) == Erring(rows);
    TuplesOrdered();
    SortSorts(listed, ErrorKey, TupleLe);
    SameElements(sorted, listed);
    assert |sorted| == |multiset(sorted)| == |multiset(listed)| == |listed|;
    forall i, j | 0 <= i < j < |sorted| ensures ListedBefore(sorted[i], sorted[j]) {
      assert TupleLe(ErrorKey(sorted[i]), ErrorKey(sorted[j]));
    }
    forall e | e in sorted ensures ReportsSome(e, rows) {
      var r :| r in canonical && HasErrors(r) && Reports(e, r);
      assert r in rows;
    }
    forall r | r in rows && HasErrors(r) ensures ReportedIn(r, sorted) {
      assert ReportedIn(r, listed);
      var e :| e in listed && Reports(e, r);
      assert e in sorted;
    }
  }

  /** The peaks only where the scopes agree; the errors of all measured rows of the client. */
  ghost predicate ResourcesSummed(r: Resources, oldReport: Report, newReport: Report, focus: string) {
    var oldFocus, newFocus := FocusRows(oldReport.rows, focus), FocusRows(newReport.rows, focus);
    && (r.comparable <==> oldReport.scope == newReport.scope)
    && (r.comparable ==> LargestRss(r.oldRss, oldFocus) && LargestRss(r.newRss, newFocus))
    && (!r.comparable ==> r.oldRss.None? && r.newRss.None?)
    && r.oldErrors == SumErrors(oldFocus) && r.newErrors == SumErrors(newFocus)
  }

  /** The means of all comparisons and of each mode and scenario. */
  ghost predicate TellsMeans(c: Comparison, cs: seq<RowComparison>, geomean: seq<Ratio> -> Option<real>) {
    && c.overall.name == "overall" && Covers(c.overall, cs, geomean)
    && Segmented(c.byMode, cs, ModeOf, geomean) && Segmented(c.byScenario, cs, ScenarioOf, geomean)
  }

  /** The records of the client in both reports, where both reports allow conclusions. */
  ghost predicate TellsWins(c: Comparison, oldReport: Report, newReport: Report, focus: string) {
    && (c.wins.Some? <==> WinsCompared(oldReport, newReport))
    && (c.wins.Some? ==> c.wins.value.0 == WinsIn(Canonical(oldReport.rows), focus))
    && (c.wins.Some? ==> c.wins.value.1 == WinsIn(Canonical(newReport.rows), focus))
  }

  /** The measured rows of the client whose identity the other report does not measure. */
  ghost predicate TellsUnmatched(c: Comparison, oldReport: Report, newReport: Report, focus: string) {
    var oldIds := IdentitiesOf(FocusRows(oldReport.rows, focus));
    var newIds := IdentitiesOf(FocusRows(newReport.rows, focus));
    c.unmatchedOld == |oldIds - newIds| && c.unmatchedNew == |newIds - oldIds|
  }

  lemma ResourcesAreSummed(oldReport: Report, newReport: Report, focus: string)
    requires DistinctRows(oldReport.rows) && DistinctRows(newReport.rows)
    ensures
      var a, b := FocusRows(Canonical(oldReport.rows), focus), FocusRows(Canonical(newReport.rows), focus);
      var comparable := oldReport.scope == newReport.scope;
      ResourcesSummed(
        Resources(comparable, if comparable then MaxRss(a) else None, if comparable then MaxRss(b) else None,
                  SumErrors(a), SumErrors(b)),
        oldReport, newReport, focus)
  {
    FocusSummed(oldReport.rows, focus);
    FocusSummed(newReport.rows, focus);
  }

  lemma FocusSummed(rows: seq<BenchmarkRow>, focus: string)
    requires DistinctRows(rows)
    ensures SumErrors(FocusRows(Canonical(rows), focus)) == SumErrors(FocusRows(rows, focus))
    ensures LargestRss(MaxRss(FocusRows(Canonical(rows), focus)), FocusRows(rows, focus))
  {
    var own, given := FocusRows(Canonical(rows), focus), FocusRows(rows, focus);
    CanonicalFocus(rows, focus);
    SumErrorsPermuted(own, given);
    MaxRssIsLargest(own);
    SameElements(own, given);
  }

  lemma FocusIdentities(rows: seq<BenchmarkRow>, focus: string)
    requires DistinctRows(rows)
    ensures var own := FocusRows(Canonical(rows), focus);
      IdentitiesOf(own) == IdentitiesOf(FocusRows(rows, focus)) && |own| == |IdentitiesOf(own)|
  {
    var own, given := FocusRows(Canonical(rows), focus), FocusRows(rows, focus);
    CanonicalFocus(rows, focus);
    DistinctSize(own);
    SameElements(own, given);
  }

  lemma Unmatched(oldReport: Report, newReport: Report, focus: string)
    requires DistinctRows(oldReport.rows) && DistinctRows(newReport.rows)
    ensures
      var a, b := FocusRows(Canonical(oldReport.rows), focus), FocusRows(Canonical(newReport.rows), focus);
      var oldIds := IdentitiesOf(FocusRows(oldReport.rows, focus));
      var newIds := IdentitiesOf(FocusRows(newReport.rows, focus));
      && |Shared(a, b)| == |oldIds * newIds|
      && |a| - |Shared(a, b)| == |oldIds - newIds| && |b| - |Shared(a, b)| == |newIds - oldIds|
  {
    var a, b := FocusRows(Canonical(oldReport.rows), focus), FocusRows(Canonical(newReport.rows), focus);
    var oldIds := IdentitiesOf(FocusRows(oldReport.rows, focus));
    var newIds := IdentitiesOf(FocusRows(newReport.rows, focus));
    CanonicalFocus(oldReport.rows, focus);
    FocusIdentities(oldReport.rows, focus);
    FocusIdentities(newReport.rows, focus);
    SharedSize(a, b);
    Difference(oldIds, newIds);
    Difference(newIds, oldIds);
    assert oldIds * newIds == newIds * oldIds;
  }

  /** The means, the winners and the best and worst of a comparison are those of its rows. */
  lemma ComparisonTells(
    oldReport: Report, newReport: Report, focus: string, topN: nat, geomean: seq<Ratio> -> Option<real>)
    requires CompareReports(oldReport, newReport, focus, topN, geomean).Ok?
    ensures
      var c, cs := CompareReports(oldReport, newReport, focus, topN, geomean).value,
        SharedOf(oldReport, newReport, focus);
      && AllCompared(cs, oldReport.rows, newReport.rows, focus)
      && TellsMeans(c, cs, geomean) && TellsWins(c, oldReport, newReport, focus)
      && Best(c.improvements, cs, topN) && Worst(c.regressions, cs, topN)
  {
    var cs := SharedOf(oldReport, newReport, focus);
    SharedAllCompared(oldReport, newReport, focus);
    SummaryCovers("overall", cs, geomean);
    SummariesSegment(ModeOf, cs, geomean);
    SummariesSegment(ScenarioOf, cs, geomean);
    TopsAreBestAndWorst(cs, topN);
  }

  /** Its errors, resources and unmatched counts are those of the rows given, whatever their order. */
  lemma ComparisonAccounts(
    oldReport: Report, newReport: Report, focus: string, topN: nat, geomean: seq<Ratio> -> Option<real>)
    requires CompareReports(oldReport, newReport, focus, topN, geomean).Ok?
    ensures
      var c := CompareReports(oldReport, newReport, focus, topN, geomean).value;
      && ErrorsListed(c.errorRows, newReport.rows)
      && ResourcesSummed(c.resources, oldReport, newReport, focus)
      && TellsUnmatched(c, oldReport, newReport, focus)
  {
    ErrorsAreListed(newReport.rows);
    ResourcesAreSummed(oldReport, newReport, focus);
    Unmatched(oldReport, newReport, focus);
  }

  /** The first reason that applies decides a refusal, and without one the reports are compared. */
  lemma RefusedIff(
    oldReport: Report, newReport: Report, focus: string, topN: nat, geomean: seq<Ratio> -> Option<real>)
    ensures
      var r := CompareReports(oldReport, newReport, focus, topN, geomean);
      var unknown := oldReport.suite.None? || newReport.suite.None?;
      var differ := oldReport.suite != newReport.suite;
      var repeated := !DistinctRows(oldReport.rows) || !DistinctRows(newReport.rows);
      && (r == Err(SuiteUnknown) <==> unknown)
      && (r == Err(SuitesDiffer) <==> !unknown && differ)
      && (r == Err(RepeatedIdentity) <==> !unknown && !differ && repeated)
      && (r == Err(NothingShared) <==>
            && !unknown && !differ && !repeated
            && !exists o, n :: FocusRow(o, oldReport.rows, focus) && FocusRow(n, newReport.rows, focus)
                 && o.identity == n.identity)
  {
    if DistinctRows(oldReport.rows) && DistinctRows(newReport.rows) {
      var cs := SharedOf(oldReport, newReport, focus);
      SharedAllCompared(oldReport, newReport, focus);
      if cs != [] {
        assert cs[0] in cs;
        assert OfFocus(cs[0], oldReport.rows, newReport.rows, focus);
      }
    }
  }
}
