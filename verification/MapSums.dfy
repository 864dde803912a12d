/** Counter dictionaries: Python's `dict[key, int]` with `get(key, 0)`, and the sum of its values. */
module MapSums {

  /** `sum(m.values())`. */
  ghost function Total<K(!new)>(m: map<K, nat>): nat
    decreases |m|
  {
    if m == map[] then 0
    else
      var k :| k in m;
      assert (m - {k}).Keys == m.Keys - {k};
      m[k] + Total(m - {k})
  }

  /** `m.get(key, 0)`. */
  function Get<K>(m: map<K, nat>, key: K): nat {
    if key in m then m[key] else 0
  }

  /** Pointwise sum of two counters. */
  function Add<K>(a: map<K, nat>, b: map<K, nat>): map<K, nat> {
    map k | k in a.Keys + b.Keys :: Get(a, k) + Get(b, k)
  }

  /** Pointwise sum of a list of counters. */
  function AddAll<K>(ms: seq<map<K, nat>>): map<K, nat> {
    if ms == [] then map[] else Add(AddAll(ms[..|ms| - 1]), ms[|ms| - 1])
  }

  /** Sum of a list of numbers. */
  function Sum(xs: seq<nat>): nat {
    if xs == [] then 0 else Sum(xs[..|xs| - 1]) + xs[|xs| - 1]
  }

  lemma {:induction false} TotalRemove<K(!new)>(m: map<K, nat>, key: K)
    requires key in m
    ensures Total(m) == m[key] + Total(m - {key})
    decreases |m|
  {
    var k :| k in m && Total(m) == m[k] + Total(m - {k});
    if k != key {
      assert (m - {k}).Keys == m.Keys - {k};
      assert (m - {key}).Keys == m.Keys - {key};
      TotalRemove(m - {k}, key);
      TotalRemove(m - {key}, k);
      assert m - {k} - {key} == m - {key} - {k};
    }
  }

  lemma TotalUpdate<K(!new)>(m: map<K, nat>, key: K, value: nat)
    ensures Total(m[key := value]) + Get(m, key) == Total(m) + value
  {
    var n := m[key := value];
    TotalRemove(n, key);
    if key in m {
      TotalRemove(m, key);
      assert n - {key} == m - {key};
    } else {
      assert n - {key} == m;
    }
  }

  lemma {:induction false} TotalAtLeast<K(!new)>(m: map<K, nat>, key: K)
    requires key in m
    ensures m[key] <= Total(m)
  {
    TotalRemove(m, key);
  }

  lemma AddByKey<K(!new)>(a: map<K, nat>, b: map<K, nat>, key: K)
    requires key in b
    ensures Add(a, b) == Add(a, b - {key})[key := Get(a, key) + b[key]]
  {
    var l, r := Add(a, b), Add(a, b - {key})[key := Get(a, key) + b[key]];
    assert l.Keys == r.Keys;
    forall k | k in l.Keys ensures l[k] == r[k] {
      if k != key {
        assert Get(b, k) == Get(b - {key}, k);
      }
    }
  }

  lemma TotalAddStep<K(!new)>(a: map<K, nat>, b: map<K, nat>, key: K)
    requires key in b
    ensures Total(Add(a, b)) == Total(Add(a, b - {key})) + b[key]
  {
    var sum := Add(a, b - {key});
    AddByKey(a, b, key);
    assert Get(sum, key) == Get(a, key);
    TotalUpdate(sum, key, Get(a, key) + b[key]);
  }

  lemma {:induction false} TotalAdd<K(!new)>(a: map<K, nat>, b: map<K, nat>)
    ensures Total(Add(a, b)) == Total(a) + Total(b)
    decreases |b|
  {
    if b == map[] {
      assert Add(a, b) == a;
    } else {
      var k :| k in b && Total(b) == b[k] + Total(b - {k});
      assert (b - {k}).Keys == b.Keys - {k};
      TotalAdd(a, b - {k});
      TotalAddStep(a, b, k);
    }
  }

  lemma {:induction false} TotalAddAll<K(!new)>(ms: seq<map<K, nat>>)
    ensures Total(AddAll(ms)) == Sum(seq(|ms|, i requires 0 <= i < |ms| => Total(ms[i])))
  {
    var totals := seq(|ms|, i requires 0 <= i < |ms| => Total(ms[i]));
    if ms != [] {
      var init := ms[..|ms| - 1];
      TotalAddAll(init);
      TotalAdd(AddAll(init), ms[|ms| - 1]);
      assert totals[..|ms| - 1] == seq(|init|, i requires 0 <= i < |init| => Total(init[i]));
    }
  }

  lemma {:induction false} SumUpdate(xs: seq<nat>, i: nat, value: nat)
    requires i < |xs|
    ensures Sum(xs[i := value]) + xs[i] == Sum(xs) + value
  {
    if i < |xs| - 1 {
      SumUpdate(xs[..|xs| - 1], i, value);
      assert xs[i := value][..|xs| - 1] == xs[..|xs| - 1][i := value];
    } else {
      assert xs[i := value][..|xs| - 1] == xs[..|xs| - 1];
    }
  }

  lemma {:induction false} SumConstant(xs: seq<nat>, value: nat)
    requires forall i :: 0 <= i < |xs| ==> xs[i] == value
    ensures Sum(xs) == |xs| * value
  {
    if xs != [] {
      SumConstant(xs[..|xs| - 1], value);
    }
  }

  /** The loop behind `sum(m.values())`. */
  method SumValues<K(==, !new)>(m: map<K, nat>) returns (total: nat)
    ensures total == Total(m)
  {
    total := 0;
    var rest := m;
    while rest != map[]
      invariant total + Total(rest) == Total(m)
      decreases |rest|
    {
      var k :| k in rest;
      TotalRemove(rest, k);
      assert (rest - {k}).Keys == rest.Keys - {k};
      total := total + rest[k];
      rest := rest - {k};
    }
  }

  /** `values[key] = values.get(key, 0) + amount` leaves every other counter alone. */
  function Bump<K>(m: map<K, nat>, key: K, amount: nat): (r: map<K, nat>) {
    m[key := Get(m, key) + amount]
  }

  lemma TotalBump<K(!new)>(m: map<K, nat>, key: K, amount: nat)
    ensures Total(Bump(m, key, amount)) == Total(m) + amount
  {
    TotalUpdate(m, key, Get(m, key) + amount);
  }

  /** Moving one entry across a pointwise sum leaves the sum alone. */
  lemma MoveEntry<K(!new)>(done: map<K, nat>, rest: map<K, nat>, key: K)
    requires key in rest
    ensures Add(Bump(done, key, rest[key]), rest - {key}) == Add(done, rest)
  {
    var l, r := Add(Bump(done, key, rest[key]), rest - {key}), Add(done, rest);
    assert l.Keys == r.Keys;
    forall k | k in l.Keys ensures l[k] == r[k] {
      if k != key {
        assert Get(rest, k) == Get(rest - {key}, k);
      }
    }
  }

  lemma AddNothing<K(!new)>(m: map<K, nat>)
    ensures Add(m, map[]) == m && Add(map[], m) == m
  {
  }

  lemma {:induction false} TotalConstant<K(!new)>(m: map<K, nat>, value: nat)
    requires forall k :: k in m ==> m[k] == value
    ensures Total(m) == |m| * value
    decreases |m|
  {
    if m != map[] {
      var k :| k in m;
      TotalRemove(m, k);
      assert (m - {k}).Keys == m.Keys - {k};
      TotalConstant(m - {k}, value);
      assert |m| == |m - {k}| + 1;
      OneMore(|m - {k}|, value);
    }
  }

  lemma OneMore(n: nat, value: nat)
    ensures (n + 1) * value == n * value + value
  {
  }

  /** `for key, count in more.items(): values[key] = values.get(key, 0) + count`, in any order. */
  method AddCounters<K(==, !new)>(values: map<K, nat>, more: map<K, nat>) returns (r: map<K, nat>)
    ensures r == Add(values, more)
  {
    r := values;
    var rest := more;
    while rest != map[]
      invariant Add(r, rest) == Add(values, more)
      decreases |rest|
    {
      var key :| key in rest;
      MoveEntry(r, rest, key);
      assert (rest - {key}).Keys == rest.Keys - {key};
      r := Bump(r, key, rest[key]);
      rest := rest - {key};
    }
    AddNothing(r);
  }
}
