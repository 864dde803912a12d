/** `grouped.setdefault(key(x), []).append(x)`: the lists a loop over `xs` leaves behind, and their keys in order. */
module Grouping {

  /** The elements with one key, in order. */
  function Select<T, K(==)>(xs: seq<T>, key: T -> K, k: K): seq<T> {
    if xs == [] then []
    else Select(xs[..|xs| - 1], key, k) + if key(xs[|xs| - 1]) == k then [xs[|xs| - 1]] else []
  }

  lemma SelectSnoc<T, K>(xs: seq<T>, x: T, key: T -> K, k: K)
    ensures Select(xs + [x], key, k) == Select(xs, key, k) + if key(x) == k then [x] else []
  {
    assert (xs + [x])[..|xs|] == xs;
  }

  /** The keys in order of first appearance. */
  function KeysOf<T, K(==)>(xs: seq<T>, key: T -> K): seq<K> {
    if xs == [] then []
    else
      var before, k := KeysOf(xs[..|xs| - 1], key), key(xs[|xs| - 1]);
      if k in before then before else before + [k]
  }

  lemma {:induction false} SelectFacts<T, K>(xs: seq<T>, key: T -> K, k: K)
    ensures forall x :: x in Select(xs, key, k) <==> x in xs && key(x) == k
    ensures |Select(xs, key, k)| <= |xs|
  {
    if xs != [] {
      SelectFacts(xs[..|xs| - 1], key, k);
      assert xs == xs[..|xs| - 1] + [xs[|xs| - 1]];
    }
  }

  lemma {:induction false} KeysFacts<T, K>(xs: seq<T>, key: T -> K)
    ensures forall x :: x in xs ==> key(x) in KeysOf(xs, key)
    ensures forall k :: k in KeysOf(xs, key) ==> Select(xs, key, k) != []
    ensures forall i, j :: 0 <= i < j < |KeysOf(xs, key)| ==> KeysOf(xs, key)[i] != KeysOf(xs, key)[j]
  {
    if xs != [] {
      KeysFacts(xs[..|xs| - 1], key);
      assert xs == xs[..|xs| - 1] + [xs[|xs| - 1]];
    }
  }

  lemma {:induction false} SelectAppend<T, K>(a: seq<T>, b: seq<T>, key: T -> K, k: K)
    ensures Select(a + b, key, k) == Select(a, key, k) + Select(b, key, k)
    decreases |b|
  {
    if b == [] {
      assert a + b == a;
    } else {
      assert (a + b)[..|a + b| - 1] == a + b[..|b| - 1];
      SelectAppend(a, b[..|b| - 1], key, k);
    }
  }

  lemma {:induction false} SelectNone<T, K>(xs: seq<T>, key: T -> K, k: K)
    requires forall x :: x in xs ==> key(x) != k
    ensures Select(xs, key, k) == []
  {
    if xs != [] { SelectNone(xs[..|xs| - 1], key, k); }
  }

  /** How many elements the groups of some keys hold together. */
  function HeldBy<T, K(==)>(xs: seq<T>, key: T -> K, keys: seq<K>): nat {
    if keys == [] then 0
    else HeldBy(xs, key, keys[..|keys| - 1]) + |Select(xs, key, keys[|keys| - 1])|
  }

  lemma {:induction false} HeldBySnoc<T, K>(xs: seq<T>, x: T, key: T -> K, keys: seq<K>)
    requires forall i, j :: 0 <= i < j < |keys| ==> keys[i] != keys[j]
    ensures HeldBy(xs + [x], key, keys) == HeldBy(xs, key, keys) + if key(x) in keys then 1 else 0
  {
    if keys != [] {
      var init, last := keys[..|keys| - 1], keys[|keys| - 1];
      HeldBySnoc(xs, x, key, init);
      assert (xs + [x])[..|xs|] == xs;
      assert keys == init + [last];
      assert last !in init;
    }
  }

  /** Distinct keys that cover a list partition it: their groups hold every element exactly once. */
  lemma {:induction false} GroupsPartition<T, K>(xs: seq<T>, key: T -> K, keys: seq<K>)
    requires forall i, j :: 0 <= i < j < |keys| ==> keys[i] != keys[j]
    requires forall x :: x in xs ==> key(x) in keys
    ensures HeldBy(xs, key, keys) == |xs|
  {
    if xs == [] {
      HeldByNothing(key, keys);
    } else {
      var init, last := xs[..|xs| - 1], xs[|xs| - 1];
      assert xs == init + [last];
      GroupsPartition(init, key, keys);
      HeldBySnoc(init, last, key, keys);
      assert last in xs;
    }
  }

  lemma {:induction false} HeldByNothing<T, K>(key: T -> K, keys: seq<K>)
    ensures HeldBy([], key, keys) == 0
  {
    if keys != [] { HeldByNothing(key, keys[..|keys| - 1]); }
  }

  function Lookup<T, K>(groups: map<K, seq<T>>, k: K): seq<T> {
    if k in groups then groups[k] else []
  }

  ghost predicate Grouped<T(!new), K(!new)>(groups: map<K, seq<T>>, xs: seq<T>, key: T -> K) {
    forall k :: Lookup(groups, k) == Select(xs, key, k)
  }

  lemma GroupOneMore<T(!new), K(!new)>(groups: map<K, seq<T>>, xs: seq<T>, key: T -> K, x: T)
    requires Grouped(groups, xs, key)
    ensures Grouped(groups[key(x) := Lookup(groups, key(x)) + [x]], xs + [x], key)
  {
    var after := groups[key(x) := Lookup(groups, key(x)) + [x]];
    assert (xs + [x])[..|xs|] == xs;
    forall k ensures Lookup(after, k) == Select(xs + [x], key, k) {
      assert Lookup(groups, k) == Select(xs, key, k);
    }
  }

  method GroupBy<T(!new), K(!new, ==)>(xs: seq<T>, key: T -> K) returns (groups: map<K, seq<T>>, order: seq<K>)
    ensures Grouped(groups, xs, key)
    ensures order == KeysOf(xs, key)
  {
    groups, order := map[], [];
    for i := 0 to |xs|
      invariant Grouped(groups, xs[..i], key) && order == KeysOf(xs[..i], key)
    {
      var k := key(xs[i]);
      GroupOneMore(groups, xs[..i], key, xs[i]);
      assert xs[..i + 1] == xs[..i] + [xs[i]] && xs[..i + 1][..i] == xs[..i];
      groups := groups[k := Lookup(groups, k) + [xs[i]]];
      if k !in order { order := order + [k]; }
    }
    assert xs[..|xs|] == xs;
  }

  // ---------------------------------------------------------------- counting

  function Tally<T>(xs: seq<T>, p: T -> bool): nat {
    if xs == [] then 0 else Tally(xs[..|xs| - 1], p) + if p(xs[|xs| - 1]) then 1 else 0
  }

  /** The positions of the elements with a key that satisfy `p`. */
  ghost function Positions<T, K>(xs: seq<T>, key: T -> K, k: K, p: T -> bool): set<nat> {
    set i: nat | i < |xs| && key(xs[i]) == k && p(xs[i])
  }

  lemma PositionsSnoc<T, K>(xs: seq<T>, x: T, key: T -> K, k: K, p: T -> bool)
    ensures Positions(xs + [x], key, k, p) == Positions(xs, key, k, p) + if key(x) == k && p(x) then {|xs|} else {}
    ensures |Positions(xs + [x], key, k, p)| == |Positions(xs, key, k, p)| + if key(x) == k && p(x) then 1 else 0
  {
  }

  lemma TallySnoc<T>(xs: seq<T>, x: T, p: T -> bool)
    ensures Tally(xs + [x], p) == Tally(xs, p) + if p(x) then 1 else 0
  {
    assert (xs + [x])[..|xs|] == xs;
  }

  /** Selecting by key and counting is counting the positions. */
  lemma {:induction false} SelectTallies<T, K>(xs: seq<T>, key: T -> K, k: K, p: T -> bool)
    ensures Tally(Select(xs, key, k), p) == |Positions(xs, key, k, p)|
  {
    if xs == [] {
      assert Positions(xs, key, k, p) == {};
    } else {
      var init, last := xs[..|xs| - 1], xs[|xs| - 1];
      assert xs == init + [last];
      SelectTallies(init, key, k, p);
      PositionsSnoc(init, last, key, k, p);
      SelectSnoc(init, last, key, k);
      if key(last) == k {
        TallySnoc(Select(init, key, k), last, p);
      } else {
        assert Select(xs, key, k) == Select(init, key, k);
      }
    }
  }

  lemma {:induction false} TallyAll<T>(xs: seq<T>)
    ensures Tally(xs, x => true) == |xs|
  {
    if xs != [] { TallyAll(xs[..|xs| - 1]); }
  }
}
