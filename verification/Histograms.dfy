/** Chunk-size histograms and the list of sizes they summarise. */
module Histograms {
  import opened MapSums

  /** `sum(size * count)`. */
  ghost function BytesIn(h: map<nat, nat>): nat {
    Total(Scaled(h))
  }

  function Scaled(h: map<nat, nat>): map<nat, nat> {
    map s | s in h :: s * h[s]
  }

  /** Occurrences of one size. */
  function Count(sizes: seq<nat>, size: nat): nat {
    if sizes == [] then 0
    else Count(sizes[..|sizes| - 1], size) + if sizes[|sizes| - 1] == size then 1 else 0
  }

  /** The exact counts of the sizes in one domain. */
  function CountsOver(sizes: seq<nat>, domain: set<nat>): map<nat, nat> {
    map s | s in domain :: Count(sizes, s)
  }

  /** `h` counts every size of its domain exactly, and holds no empty bin. */
  ghost predicate Exact(h: map<nat, nat>, sizes: seq<nat>) {
    forall s :: s in h ==> h[s] == Count(sizes, s) && h[s] > 0
  }

  ghost predicate Covers(h: map<nat, nat>, sizes: seq<nat>) {
    forall s :: s in sizes ==> s in h
  }

  lemma {:induction false} CountPositive(sizes: seq<nat>, size: nat)
    ensures Count(sizes, size) > 0 <==> size in sizes
  {
    if sizes != [] {
      var init := sizes[..|sizes| - 1];
      CountPositive(init, size);
      assert sizes == init + [sizes[|sizes| - 1]];
    }
  }

  lemma CountAppend(sizes: seq<nat>, last: nat, size: nat)
    ensures Count(sizes + [last], size) == Count(sizes, size) + if last == size then 1 else 0
  {
    assert (sizes + [last])[..|sizes|] == sizes;
  }

  lemma SumSnoc(sizes: seq<nat>, last: nat)
    ensures Sum(sizes + [last]) == Sum(sizes) + last
  {
    assert (sizes + [last])[..|sizes|] == sizes;
  }

  lemma {:induction false} TotalZero(h: map<nat, nat>)
    requires forall s :: s in h ==> h[s] == 0
    ensures Total(h) == 0
    decreases |h|
  {
    if h != map[] {
      var k :| k in h;
      assert (h - {k}).Keys == h.Keys - {k};
      TotalRemove(h, k);
      TotalZero(h - {k});
    }
  }

  lemma BytesUpdate(h: map<nat, nat>, size: nat, count: nat)
    ensures BytesIn(h[size := count]) + size * Get(h, size) == BytesIn(h) + size * count
  {
    TotalUpdate(Scaled(h), size, size * count);
    assert Scaled(h[size := count]) == Scaled(h)[size := size * count];
    assert Get(Scaled(h), size) == size * Get(h, size);
  }

  lemma BytesBump(h: map<nat, nat>, size: nat, count: nat)
    ensures BytesIn(Bump(h, size, count)) == BytesIn(h) + size * count
  {
    BytesUpdate(h, size, Get(h, size) + count);
    assert size * (Get(h, size) + count) == size * Get(h, size) + size * count;
  }

  lemma ScaledAdd(a: map<nat, nat>, b: map<nat, nat>)
    ensures Scaled(Add(a, b)) == Add(Scaled(a), Scaled(b))
  {
    forall s | s in a.Keys + b.Keys
      ensures s * (Get(a, s) + Get(b, s)) == Get(Scaled(a), s) + Get(Scaled(b), s)
    {
      assert s * (Get(a, s) + Get(b, s)) == s * Get(a, s) + s * Get(b, s);
    }
  }

  lemma BytesAdd(a: map<nat, nat>, b: map<nat, nat>)
    ensures BytesIn(Add(a, b)) == BytesIn(a) + BytesIn(b)
  {
    ScaledAdd(a, b);
    TotalAdd(Scaled(a), Scaled(b));
  }

  lemma EmptyTotals()
    ensures Total<nat>(map[]) == 0 && BytesIn(map[]) == 0
  {
    assert Scaled(map[]) == map[];
  }

  /** Counts over a domain lose exactly the elements outside it. */
  lemma {:induction false} TotalsOverDomain(sizes: seq<nat>, domain: set<nat>)
    ensures Total(CountsOver(sizes, domain)) <= |sizes|
    ensures Total(CountsOver(sizes, domain)) == |sizes| <==> forall s :: s in sizes ==> s in domain
    ensures (forall s :: s in sizes ==> s in domain) ==> BytesIn(CountsOver(sizes, domain)) == Sum(sizes)
  {
    var h := CountsOver(sizes, domain);
    if sizes == [] {
      TotalZero(h);
      TotalZero(Scaled(h));
    } else {
      var init, last := sizes[..|sizes| - 1], sizes[|sizes| - 1];
      var g := CountsOver(init, domain);
      TotalsOverDomain(init, domain);
      assert sizes == init + [last];
      if last in domain {
        assert h == Bump(g, last, 1);
        TotalBump(g, last, 1);
        BytesBump(g, last, 1);
      } else {
        assert h == g;
      }
    }
  }

  /** An exact histogram is complete if and only if its counts add up to the number of chunks. */
  lemma CompleteIffTotal(h: map<nat, nat>, sizes: seq<nat>)
    requires Exact(h, sizes)
    ensures Total(h) <= |sizes|
    ensures Covers(h, sizes) <==> Total(h) == |sizes|
    ensures Covers(h, sizes) ==> BytesIn(h) == Sum(sizes)
  {
    assert h == CountsOver(sizes, h.Keys);
    TotalsOverDomain(sizes, h.Keys);
  }

  /** Counting one more chunk of a size that already has a bin, or opening its first bin. */
  lemma ExactAfter(h: map<nat, nat>, sizes: seq<nat>, size: nat)
    requires Exact(h, sizes)
    ensures size in h ==> Exact(Bump(h, size, 1), sizes + [size])
    ensures size !in h && size !in sizes ==> Exact(Bump(h, size, 1), sizes + [size])
    ensures size !in h ==> Exact(h, sizes + [size])
  {
    CountPositive(sizes, size);
    forall s { CountAppend(sizes, size, s); }
  }

  /** One entry of a serialised histogram. */
  datatype Bin = Bin(sizeBytes: int, count: int)

  ghost predicate Positive(h: map<nat, nat>) {
    forall s :: s in h ==> s > 0 && h[s] > 0
  }

  /** `bins` is the list of `h`'s items in ascending order of size. */
  ghost predicate Lists(bins: seq<Bin>, h: map<nat, nat>) {
    && |bins| == |h|
    && (forall i, j :: 0 <= i < j < |bins| ==> bins[i].sizeBytes < bins[j].sizeBytes)
    && (forall i :: 0 <= i < |bins| ==>
          bins[i].sizeBytes >= 0 && bins[i].sizeBytes as nat in h && bins[i].count == h[bins[i].sizeBytes as nat])
    && (forall s :: s in h ==> Bin(s, h[s]) in bins)
  }

  /** The count a list of items gives one size. */
  function CountIn(items: seq<Bin>, s: nat): int {
    if items == [] then 0
    else CountIn(items[..|items| - 1], s) + if items[|items| - 1].sizeBytes == s then items[|items| - 1].count else 0
  }

  lemma {:induction false} CountInDistinct(items: seq<Bin>, s: nat)
    requires forall i, j :: 0 <= i < j < |items| ==> items[i].sizeBytes < items[j].sizeBytes
    ensures forall i :: 0 <= i < |items| && items[i].sizeBytes == s ==> CountIn(items, s) == items[i].count
    ensures (forall i :: 0 <= i < |items| ==> items[i].sizeBytes != s) ==> CountIn(items, s) == 0
  {
    if items != [] {
      CountInDistinct(items[..|items| - 1], s);
    }
  }

  lemma SameCounts(a: map<nat, nat>, b: map<nat, nat>)
    requires Positive(a) && Positive(b) && forall s: nat :: Get(a, s) == Get(b, s)
    ensures a == b
  {
    forall s | s in a.Keys + b.Keys ensures s in a && s in b && a[s] == b[s] {
      assert Get(a, s) == Get(b, s);
    }
  }

  lemma ListsCount(bins: seq<Bin>, h: map<nat, nat>, s: nat)
    requires Lists(bins, h)
    ensures Get(h, s) == CountIn(bins, s)
  {
    CountInDistinct(bins, s);
    if s in h {
      assert Bin(s, h[s]) in bins;
    }
  }

  method Smallest(sizes: set<nat>) returns (least: nat)
    requires sizes != {}
    ensures least in sizes && forall s :: s in sizes ==> least <= s
  {
    least :| least in sizes;
    var rest := sizes;
    while rest != {}
      invariant rest <= sizes && least in sizes
      invariant forall s :: s in sizes && s !in rest ==> least <= s
      decreases rest
    {
      var s :| s in rest;
      if s < least { least := s; }
      rest := rest - {s};
    }
  }

  /** `sorted(h.items())`. */
  method SortedItems(h: map<nat, nat>) returns (bins: seq<Bin>)
    ensures Lists(bins, h)
  {
    bins := [];
    var rest := h.Keys;
    while rest != {}
      invariant rest <= h.Keys && |bins| + |rest| == |h|
      invariant forall i, j :: 0 <= i < j < |bins| ==> bins[i].sizeBytes < bins[j].sizeBytes
      invariant forall i :: 0 <= i < |bins| ==>
        bins[i].sizeBytes >= 0 && bins[i].sizeBytes as nat in h && bins[i].count == h[bins[i].sizeBytes as nat]
      invariant forall i, s :: 0 <= i < |bins| && s in rest ==> bins[i].sizeBytes < s
      invariant forall s :: s in h && s !in rest ==> Bin(s, h[s]) in bins
      decreases rest
    {
      var s := Smallest(rest);
      bins := bins + [Bin(s, h[s])];
      rest := rest - {s};
    }
  }

  lemma {:induction false} BytesAddAll(hs: seq<map<nat, nat>>)
    ensures BytesIn(AddAll(hs)) == Sum(seq(|hs|, i requires 0 <= i < |hs| => BytesIn(hs[i])))
  {
    var totals := seq(|hs|, i requires 0 <= i < |hs| => BytesIn(hs[i]));
    if hs == [] {
      EmptyTotals();
    } else {
      var init := hs[..|hs| - 1];
      BytesAddAll(init);
      BytesAdd(AddAll(init), hs[|hs| - 1]);
      assert totals[..|hs| - 1] == seq(|init|, i requires 0 <= i < |init| => BytesIn(init[i]));
    }
  }
}
