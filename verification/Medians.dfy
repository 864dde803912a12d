/** The median of a list of numbers, and what makes it the middle one. */
module Medians {
  import opened Ordering

  /** `statistics.median`: the middle of the sorted values, or the mean of the two middle ones. */
  function Median(xs: seq<real>): real
    requires xs != []
  {
    var s := SortBy(xs, Itself, RealLe);
    SortLength(xs);
    if |s| % 2 == 1 then s[|s| / 2] else (s[|s| / 2 - 1] + s[|s| / 2]) / 2.0
  }

  function Itself(x: real): real { x }

  lemma RealsOrdered()
    ensures TotalOrder(RealLe)
  {
  }

  lemma SortLength(xs: seq<real>)
    ensures |SortBy(xs, Itself, RealLe)| == |xs|
  {
    RealsOrdered();
    SortSorts(xs, Itself, RealLe);
  }

  lemma SortElements(xs: seq<real>)
    ensures |SortBy(xs, Itself, RealLe)| == |xs|
    ensures forall x :: x in SortBy(xs, Itself, RealLe) <==> x in xs
  {
    RealsOrdered();
    SortSorts(xs, Itself, RealLe);
    SameElements(SortBy(xs, Itself, RealLe), xs);
  }

  lemma MedianBetween(xs: seq<real>, low: real, high: real)
    requires xs != [] && forall x :: x in xs ==> low <= x <= high
    ensures low <= Median(xs) <= high
  {
    var s := SortBy(xs, Itself, RealLe);
    SortElements(xs);
    assert s[|s| / 2] in s;
    if |s| % 2 == 0 { assert s[|s| / 2 - 1] in s; }
  }

  // ---------------------------------------------------------------- counting

  /** How many elements satisfy `p`. */
  function CountIf(xs: seq<real>, p: real -> bool): nat {
    if xs == [] then 0 else CountIf(xs[..|xs| - 1], p) + if p(xs[|xs| - 1]) then 1 else 0
  }

  lemma {:induction false} CountPlus(a: seq<real>, b: seq<real>, p: real -> bool)
    ensures CountIf(a + b, p) == CountIf(a, p) + CountIf(b, p)
    decreases |b|
  {
    if b == [] {
      assert a + b == a;
    } else {
      CountPlus(a, b[..|b| - 1], p);
      assert (a + b)[..|a + b| - 1] == a + b[..|b| - 1];
    }
  }

  lemma {:induction false} CountInsert(xs: seq<real>, x: real, p: real -> bool)
    ensures CountIf(Insert(xs, x, Itself, RealLe), p) == CountIf(xs, p) + if p(x) then 1 else 0
  {
    if xs == [] {
      assert [x][..0] == [];
    } else if RealLe(xs[|xs| - 1], x) {
      assert (xs + [x])[..|xs|] == xs;
    } else {
      var init, last := xs[..|xs| - 1], xs[|xs| - 1];
      CountInsert(init, x, p);
      assert (Insert(init, x, Itself, RealLe) + [last])[..|Insert(init, x, Itself, RealLe)|]
          == Insert(init, x, Itself, RealLe);
    }
  }

  lemma {:induction false} CountSort(xs: seq<real>, p: real -> bool)
    ensures CountIf(SortBy(xs, Itself, RealLe), p) == CountIf(xs, p)
  {
    if xs != [] {
      CountSort(xs[..|xs| - 1], p);
      CountInsert(SortBy(xs[..|xs| - 1], Itself, RealLe), xs[|xs| - 1], p);
    }
  }

  lemma {:induction false} CountBounds(xs: seq<real>, p: real -> bool)
    ensures CountIf(xs, p) <= |xs|
    ensures (forall i :: 0 <= i < |xs| ==> p(xs[i])) ==> CountIf(xs, p) == |xs|
    ensures (forall i :: 0 <= i < |xs| ==> !p(xs[i])) ==> CountIf(xs, p) == 0
  {
    if xs != [] { CountBounds(xs[..|xs| - 1], p); }
  }

  lemma {:induction false} CountWeakens(xs: seq<real>, p: real -> bool, q: real -> bool)
    requires forall x :: p(x) ==> q(x)
    ensures CountIf(xs, p) <= CountIf(xs, q)
  {
    if xs != [] { CountWeakens(xs[..|xs| - 1], p, q); }
  }

  /** How many elements are less than, at most, more than and at least `v`. */
  function Less(xs: seq<real>, v: real): nat { CountIf(xs, x => x < v) }

  function AtMost(xs: seq<real>, v: real): nat { CountIf(xs, x => x <= v) }

  function More(xs: seq<real>, v: real): nat { CountIf(xs, x => x > v) }

  function AtLeast(xs: seq<real>, v: real): nat { CountIf(xs, x => x >= v) }

  /** Where the elements that satisfy `p` lie bounds their number. */
  lemma CountsBefore(s: seq<real>, i: nat, p: real -> bool)
    requires i <= |s|
    ensures (forall k :: i <= k < |s| ==> !p(s[k])) ==> CountIf(s, p) <= i
    ensures (forall k :: 0 <= k < i ==> p(s[k])) ==> CountIf(s, p) >= i
  {
    assert s == s[..i] + s[i..];
    CountPlus(s[..i], s[i..], p);
    CountBounds(s[..i], p);
    CountBounds(s[i..], p);
  }

  lemma CountsFrom(s: seq<real>, i: nat, p: real -> bool)
    requires i <= |s|
    ensures (forall k :: 0 <= k < i ==> !p(s[k])) ==> CountIf(s, p) <= |s| - i
    ensures (forall k :: i <= k < |s| ==> p(s[k])) ==> CountIf(s, p) >= |s| - i
  {
    assert s == s[..i] + s[i..];
    CountPlus(s[..i], s[i..], p);
    CountBounds(s[..i], p);
    CountBounds(s[i..], p);
  }

  /** In a sorted list a position bounds the counts around its element. */
  lemma SortedCounts(s: seq<real>, i: nat)
    requires Ascends(s, Itself, RealLe) && i < |s|
    ensures Less(s, s[i]) <= i < AtMost(s, s[i])
    ensures More(s, s[i]) <= |s| - 1 - i < AtLeast(s, s[i])
  {
    var v := s[i];
    forall j, k | 0 <= j < k < |s| ensures s[j] <= s[k] {
      assert RealLe(Itself(s[j]), Itself(s[k]));
    }
    CountsBefore(s, i, x => x < v);
    CountsBefore(s, i + 1, x => x <= v);
    CountsFrom(s, i + 1, x => x > v);
    CountsFrom(s, i, x => x >= v);
  }

  // ---------------------------------------------------------------- the middle

  /** `low` and `high` are the lower and the upper middle of the values. */
  ghost predicate Middle(xs: seq<real>, low: real, high: real) {
    && low in xs && high in xs
    && 2 * Less(xs, low) < |xs| <= 2 * AtMost(xs, low)
    && 2 * More(xs, high) < |xs| <= 2 * AtLeast(xs, high)
  }

  /** Half way between the two middle values, which are one and the same for an odd number of values. */
  ghost predicate IsMedian(xs: seq<real>, m: real) {
    exists low, high :: Middle(xs, low, high) && m == (low + high) / 2.0
  }

  lemma MiddleUnique(xs: seq<real>, a: real, b: real, c: real, d: real)
    requires Middle(xs, a, b) && Middle(xs, c, d)
    ensures a == c && b == d
  {
    if a < c { CountWeakens(xs, x => x <= a, x => x < c); }
    if c < a { CountWeakens(xs, x => x <= c, x => x < a); }
    if b > d { CountWeakens(xs, x => x >= b, x => x > d); }
    if d > b { CountWeakens(xs, x => x >= d, x => x > b); }
  }

  lemma MiddleOfSorted(xs: seq<real>, i: nat)
    requires i < |xs|
    ensures var s := SortBy(xs, Itself, RealLe);
      && |s| == |xs| && s[i] in xs
      && Less(xs, s[i]) <= i < AtMost(xs, s[i]) && More(xs, s[i]) <= |xs| - 1 - i < AtLeast(xs, s[i])
  {
    var s := SortBy(xs, Itself, RealLe);
    RealsOrdered();
    SortSorts(xs, Itself, RealLe);
    SameElements(s, xs);
    SortedCounts(s, i);
    CountSort(xs, x => x < s[i]);
    CountSort(xs, x => x <= s[i]);
    CountSort(xs, x => x > s[i]);
    CountSort(xs, x => x >= s[i]);
  }

  /** The median is the one number half way between the two middle values. */
  lemma MedianIff(xs: seq<real>, m: real)
    requires xs != []
    ensures IsMedian(xs, m) <==> m == Median(xs)
  {
    var s, half := SortBy(xs, Itself, RealLe), |xs| / 2;
    SortLength(xs);
    MiddleOfSorted(xs, half);
    if |xs| % 2 == 1 {
      assert Middle(xs, s[half], s[half]);
    } else {
      MiddleOfSorted(xs, half - 1);
      assert Middle(xs, s[half - 1], s[half]);
    }
    if IsMedian(xs, m) {
      var low, high :| Middle(xs, low, high) && m == (low + high) / 2.0;
      MiddleUnique(xs, low, high, if |xs| % 2 == 1 then s[half] else s[half - 1], s[half]);
    }
  }
}
