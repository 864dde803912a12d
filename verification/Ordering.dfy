/** Python's `sorted`: lexicographic comparison of strings and tuples, and a stable sort by key. */
module Ordering {
  import opened Grouping

  /** A total order given as a function. */
  ghost predicate TotalOrder<T(!new)>(le: (T, T) -> bool) {
    && (forall a, b :: le(a, b) || le(b, a))
    && (forall a, b :: le(a, b) && le(b, a) ==> a == b)
    && (forall a, b, c :: le(a, b) && le(b, c) ==> le(a, c))
  }

  function LexLe<T(==)>(a: seq<T>, b: seq<T>, le: (T, T) -> bool): bool {
    a == [] || (b != [] && if a[0] == b[0] then LexLe(a[1..], b[1..], le) else le(a[0], b[0]))
  }

  lemma {:induction false} LexTotal<T(!new)>(a: seq<T>, b: seq<T>, le: (T, T) -> bool)
    requires TotalOrder(le)
    ensures LexLe(a, b, le) || LexLe(b, a, le)
    ensures LexLe(a, b, le) && LexLe(b, a, le) ==> a == b
  {
    if a != [] && b != [] && a[0] == b[0] {
      LexTotal(a[1..], b[1..], le);
      assert a == [a[0]] + a[1..] && b == [b[0]] + b[1..];
    }
  }

  lemma {:induction false} LexTransitive<T(!new)>(a: seq<T>, b: seq<T>, c: seq<T>, le: (T, T) -> bool)
    requires TotalOrder(le) && LexLe(a, b, le) && LexLe(b, c, le)
    ensures LexLe(a, c, le)
  {
    if a != [] && b != [] && c != [] && a[0] == b[0] == c[0] {
      LexTransitive(a[1..], b[1..], c[1..], le);
    }
  }

  predicate CharLe(a: char, b: char) { a <= b }

  predicate StringLe(a: string, b: string) { LexLe(a, b, CharLe) }

  predicate TupleLe(a: seq<string>, b: seq<string>) { LexLe(a, b, StringLe) }

  predicate RealLe(a: real, b: real) { a <= b }

  lemma StringsOrdered()
    ensures TotalOrder(StringLe)
  {
    forall a: string, b: string
      ensures StringLe(a, b) || StringLe(b, a)
      ensures StringLe(a, b) && StringLe(b, a) ==> a == b
    {
      LexTotal(a, b, CharLe);
    }
    forall a: string, b: string, c: string | StringLe(a, b) && StringLe(b, c) ensures StringLe(a, c) {
      LexTransitive(a, b, c, CharLe);
    }
  }

  lemma TuplesOrdered()
    ensures TotalOrder(TupleLe)
  {
    StringsOrdered();
    forall a: seq<string>, b: seq<string>
      ensures TupleLe(a, b) || TupleLe(b, a)
      ensures TupleLe(a, b) && TupleLe(b, a) ==> a == b
    {
      LexTotal(a, b, StringLe);
    }
    forall a: seq<string>, b: seq<string>, c: seq<string> | TupleLe(a, b) && TupleLe(b, c) ensures TupleLe(a, c) {
      LexTransitive(a, b, c, StringLe);
    }
  }

  // ---------------------------------------------------------------- sorting

  ghost predicate Ascends<T, K>(xs: seq<T>, key: T -> K, le: (K, K) -> bool) {
    forall i, j :: 0 <= i < j < |xs| ==> le(key(xs[i]), key(xs[j]))
  }

  /** Inserts behind everything that does not come after it. */
  function Insert<T, K>(xs: seq<T>, x: T, key: T -> K, le: (K, K) -> bool): seq<T> {
    if xs == [] then [x]
    else if le(key(xs[|xs| - 1]), key(x)) then xs + [x]
    else Insert(xs[..|xs| - 1], x, key, le) + [xs[|xs| - 1]]
  }

  /** `sorted(xs, key=key)`. */
  function SortBy<T, K>(xs: seq<T>, key: T -> K, le: (K, K) -> bool): seq<T> {
    if xs == [] then [] else Insert(SortBy(xs[..|xs| - 1], key, le), xs[|xs| - 1], key, le)
  }

  lemma {:induction false} InsertKeeps<T(!new), K(!new)>(xs: seq<T>, x: T, key: T -> K, le: (K, K) -> bool)
    requires TotalOrder(le) && Ascends(xs, key, le)
    ensures multiset(Insert(xs, x, key, le)) == multiset(xs) + multiset{x}
    ensures Ascends(Insert(xs, x, key, le), key, le)
  {
    if xs != [] {
      var init, last := xs[..|xs| - 1], xs[|xs| - 1];
      assert xs == init + [last];
      if !le(key(last), key(x)) {
        InsertKeeps(init, x, key, le);
        var r := Insert(init, x, key, le);
        forall i | 0 <= i < |r| ensures le(key(r[i]), key(last)) {
          assert r[i] in multiset(r);
          assert r[i] in multiset(init) || r[i] == x;
        }
      } else {
        forall i | 0 <= i < |xs| ensures le(key(xs[i]), key(x)) {
          assert i == |xs| - 1 || le(key(xs[i]), key(last));
        }
      }
    }
  }

  lemma {:induction false} SortSorts<T(!new), K(!new)>(xs: seq<T>, key: T -> K, le: (K, K) -> bool)
    requires TotalOrder(le)
    ensures multiset(SortBy(xs, key, le)) == multiset(xs)
    ensures |SortBy(xs, key, le)| == |xs|
    ensures Ascends(SortBy(xs, key, le), key, le)
  {
    if xs != [] {
      var init, last := xs[..|xs| - 1], xs[|xs| - 1];
      SortSorts(init, key, le);
      InsertKeeps(SortBy(init, key, le), last, key, le);
      assert xs == init + [last];
    }
    assert |multiset(SortBy(xs, key, le))| == |multiset(xs)|;
  }

  ghost predicate DistinctKeys<T, K>(xs: seq<T>, key: T -> K) {
    forall i, j :: 0 <= i < j < |xs| ==> key(xs[i]) != key(xs[j])
  }

  lemma SameElements<T>(a: seq<T>, b: seq<T>)
    requires multiset(a) == multiset(b)
    ensures forall x :: x in a <==> x in b
    ensures |a| == |b|
  {
    forall x ensures x in a <==> x in b {
      assert x in a <==> x in multiset(a);
      assert x in b <==> x in multiset(b);
    }
    assert |a| == |multiset(a)| && |b| == |multiset(b)|;
  }

  lemma LastOfAscending<T(!new), K(!new)>(a: seq<T>, x: T, key: T -> K, le: (K, K) -> bool)
    requires TotalOrder(le) && Ascends(a, key, le) && x in a
    ensures le(key(x), key(a[|a| - 1]))
  {
    var i :| 0 <= i < |a| && a[i] == x;
    if i < |a| - 1 {
      assert le(key(a[i]), key(a[|a| - 1]));
    }
  }

  lemma SameKeySameElement<T, K>(a: seq<T>, x: T, y: T, key: T -> K)
    requires DistinctKeys(a, key) && x in a && y in a && key(x) == key(y)
    ensures x == y
  {
    var i :| 0 <= i < |a| && a[i] == x;
    var j :| 0 <= j < |a| && a[j] == y;
  }

  lemma SameLast<T(!new), K(!new)>(a: seq<T>, b: seq<T>, key: T -> K, le: (K, K) -> bool)
    requires TotalOrder(le) && Ascends(a, key, le) && Ascends(b, key, le)
    requires multiset(a) == multiset(b) && DistinctKeys(a, key) && a != []
    ensures |a| == |b| && a[|a| - 1] == b[|b| - 1]
  {
    SameElements(a, b);
    var x, y := a[|a| - 1], b[|b| - 1];
    LastOfAscending(a, y, key, le);
    LastOfAscending(b, x, key, le);
    assert key(x) == key(y);
    SameKeySameElement(a, x, y, key);
  }

  lemma DropLast<T>(a: seq<T>)
    requires a != []
    ensures multiset(a[..|a| - 1]) == multiset(a) - multiset{a[|a| - 1]}
    ensures a == a[..|a| - 1] + [a[|a| - 1]]
  {
    assert a == a[..|a| - 1] + [a[|a| - 1]];
  }

  /** Two ascending arrangements of the same elements with distinct keys are the same list. */
  lemma {:induction false} AscendingUnique<T(!new), K(!new)>(a: seq<T>, b: seq<T>, key: T -> K, le: (K, K) -> bool)
    requires TotalOrder(le) && Ascends(a, key, le) && Ascends(b, key, le)
    requires multiset(a) == multiset(b) && DistinctKeys(a, key)
    ensures a == b
  {
    if a == [] {
      SameElements(a, b);
    } else {
      SameLast(a, b, key, le);
      DropLast(a);
      DropLast(b);
      AscendingUnique(a[..|a| - 1], b[..|b| - 1], key, le);
    }
  }

  /** Sorting by a key that tells all elements apart forgets the order they came in. */
  lemma SortForgetsOrder<T(!new), K(!new)>(a: seq<T>, b: seq<T>, key: T -> K, le: (K, K) -> bool)
    requires TotalOrder(le) && multiset(a) == multiset(b) && DistinctKeys(a, key)
    ensures SortBy(a, key, le) == SortBy(b, key, le)
  {
    SortSorts(a, key, le);
    SortSorts(b, key, le);
    PermutedDistinct(a, SortBy(a, key, le), key);
    AscendingUnique(SortBy(a, key, le), SortBy(b, key, le), key, le);
  }

  lemma {:induction false} PermutedDistinct<T, K>(a: seq<T>, b: seq<T>, key: T -> K)
    requires multiset(a) == multiset(b) && DistinctKeys(a, key)
    ensures DistinctKeys(b, key)
  {
    SameElements(a, b);
    forall i, j | 0 <= i < j < |b| ensures key(b[i]) != key(b[j]) {
      if key(b[i]) == key(b[j]) {
        SameKeySameElement(a, b[i], b[j], key);
        Twice(b, i, j);
        Once(a, b[i], key);
        assert false;
      }
    }
  }

  lemma {:induction false} Once<T, K>(a: seq<T>, x: T, key: T -> K)
    requires DistinctKeys(a, key)
    ensures multiset(a)[x] <= 1
  {
    if a != [] {
      var n := |a| - 1;
      Once(a[..n], x, key);
      assert a == a[..n] + [a[n]];
      assert a[n] == x ==> x !in a[..n];
    }
  }

  lemma Twice<T>(b: seq<T>, i: nat, j: nat)
    requires i < j < |b| && b[i] == b[j]
    ensures multiset(b)[b[i]] >= 2
  {
    assert b == b[..j] + b[j..];
    assert b[i] in b[..j] && b[j] in b[j..];
    assert multiset(b[..j])[b[i]] >= 1 && multiset(b[j..])[b[j]] >= 1;
  }

  lemma Without<T>(b: seq<T>, i: nat)
    requires i < |b|
    ensures multiset(b[..i] + b[i + 1..]) == multiset(b) - multiset{b[i]}
  {
    assert b == b[..i] + [b[i]] + b[i + 1..];
  }

  // ---------------------------------------------------------------- stability

  lemma {:induction false} InsertStable<T(!new), K(!new)>(
    xs: seq<T>, x: T, key: T -> K, le: (K, K) -> bool, k: K)
    requires TotalOrder(le)
    ensures Select(Insert(xs, x, key, le), key, k) == Select(xs, key, k) + if key(x) == k then [x] else []
  {
    if xs == [] || le(key(xs[|xs| - 1]), key(x)) {
      SelectSnoc(xs, x, key, k);
      assert xs == [] ==> xs + [x] == [x];
    } else {
      var init, last := xs[..|xs| - 1], xs[|xs| - 1];
      InsertStable(init, x, key, le, k);
      SelectSnoc(Insert(init, x, key, le), last, key, k);
    }
  }

  /** Elements that compare equal keep the order they came in. */
  lemma {:induction false} SortStable<T(!new), K(!new)>(xs: seq<T>, key: T -> K, le: (K, K) -> bool, k: K)
    requires TotalOrder(le)
    ensures Select(SortBy(xs, key, le), key, k) == Select(xs, key, k)
  {
    if xs != [] {
      var init, last := xs[..|xs| - 1], xs[|xs| - 1];
      SortStable(init, key, le, k);
      InsertStable(SortBy(init, key, le), last, key, le, k);
    }
  }

  lemma {:induction false} SelectKeepsPairs<T, K>(xs: seq<T>, key: T -> K, k: K, i: nat, j: nat)
    returns (a: nat, b: nat)
    requires i < j < |xs| && key(xs[i]) == k == key(xs[j])
    ensures a < b < |Select(xs, key, k)| && Select(xs, key, k)[a] == xs[i] && Select(xs, key, k)[b] == xs[j]
  {
    var init := xs[..|xs| - 1];
    if j < |init| {
      a, b := SelectKeepsPairs(init, key, k, i, j);
    } else {
      SelectFacts(init, key, k);
      assert init[i] in init;
      a :| 0 <= a < |Select(init, key, k)| && Select(init, key, k)[a] == init[i];
      b := |Select(init, key, k)|;
    }
  }

  lemma {:induction false} SelectAscends<T(!new), K(!new), L(!new)>(
    xs: seq<T>, key: T -> K, k: K, order: T -> L, le: (L, L) -> bool)
    requires Ascends(xs, order, le)
    ensures Ascends(Select(xs, key, k), order, le)
  {
    if xs != [] {
      var init, last := xs[..|xs| - 1], xs[|xs| - 1];
      SelectAscends(init, key, k, order, le);
      var before := Select(init, key, k);
      forall b | 0 <= b < |before| ensures le(order(before[b]), order(last)) {
        SelectFacts(init, key, k);
        assert before[b] in before;
        var i :| 0 <= i < |init| && init[i] == before[b];
        assert xs[i] == before[b] && xs[|init|] == last;
      }
    }
  }

  /** Sorting an ascending list by another key leaves ties ascending. */
  lemma TiesAscend<T(!new), K(!new), L(!new)>(
    xs: seq<T>, key: T -> K, le: (K, K) -> bool, order: T -> L, lte: (L, L) -> bool, i: nat, j: nat)
    requires TotalOrder(le) && Ascends(xs, order, lte)
    requires i < j < |SortBy(xs, key, le)| && key(SortBy(xs, key, le)[i]) == key(SortBy(xs, key, le)[j])
    ensures lte(order(SortBy(xs, key, le)[i]), order(SortBy(xs, key, le)[j]))
  {
    var sorted := SortBy(xs, key, le);
    var k := key(sorted[i]);
    var a, b := SelectKeepsPairs(sorted, key, k, i, j);
    SortStable(xs, key, le, k);
    SelectAscends(xs, key, k, order, lte);
  }

  /** `sorted` as code. */
  method Sort<T, K>(xs: seq<T>, key: T -> K, le: (K, K) -> bool) returns (r: seq<T>)
    ensures r == SortBy(xs, key, le)
  {
    r := [];
    for k := 0 to |xs|
      invariant r == SortBy(xs[..k], key, le)
    {
      assert xs[..k + 1][..k] == xs[..k];
      r := Insert(r, xs[k], key, le);
    }
    assert xs[..|xs|] == xs;
  }
}
