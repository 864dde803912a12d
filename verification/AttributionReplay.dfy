/** Cutting the whole-window histogram into bounded replay segments. */
module AttributionReplay {
  import opened Common
  import opened MapSums
  import opened Histograms
  import opened Arithmetic

  /** One emitted segment: nonempty and within both limits. */
  ghost predicate Within(segment: map<nat, nat>, maxBytes: nat, maxChunks: nat) {
    segment != map[] && Positive(segment) && BytesIn(segment) <= maxBytes && Total(segment) <= maxChunks
  }

  /** No chunk of the largest size would have fitted as well. */
  ghost predicate Full(segment: map<nat, nat>, maxBytes: nat, maxChunks: nat, largest: nat) {
    BytesIn(segment) + largest > maxBytes || Total(segment) == maxChunks
  }

  ghost predicate Ascending(segments: seq<map<nat, nat>>) {
    forall i, j, a, b :: 0 <= i < j < |segments| && a in segments[i] && b in segments[j] ==> a <= b
  }

  /** The generator between two steps: the segments already emitted and the one being filled. */
  datatype Cutter = Cutter(emitted: seq<map<nat, nat>>, open: map<nat, nat>, bytes: nat, chunks: nat)

  ghost predicate KeysAtMost(segments: seq<map<nat, nat>>, size: nat) {
    segments == [] ||
    var init, last := segments[..|segments| - 1], segments[|segments| - 1];
    KeysAtMost(init, size) && forall a :: a in last ==> a <= size
  }

  ghost predicate Sealed(segments: seq<map<nat, nat>>, maxBytes: nat, maxChunks: nat, largest: nat) {
    segments == [] ||
    var init, last := segments[..|segments| - 1], segments[|segments| - 1];
    && Sealed(init, maxBytes, maxChunks, largest)
    && Within(last, maxBytes, maxChunks) && Full(last, maxBytes, maxChunks, largest)
    && forall b :: b in last ==> KeysAtMost(init, b)
  }

  ghost predicate AtMost(c: Cutter, size: nat) {
    KeysAtMost(c.emitted, size) && forall a :: a in c.open ==> a <= size
  }

  ghost predicate Filling(c: Cutter, maxBytes: nat, maxChunks: nat, largest: nat) {
    && Positive(c.open) && c.bytes == BytesIn(c.open) <= maxBytes && c.chunks == Total(c.open) <= maxChunks
    && Sealed(c.emitted, maxBytes, maxChunks, largest)
    && forall b :: b in c.open ==> KeysAtMost(c.emitted, b)
  }

  /** Everything emitted or being filled. */
  function Held(c: Cutter): map<nat, nat> {
    Add(AddAll(c.emitted), c.open)
  }

  /** `yield segment`. */
  function Emit(c: Cutter): Cutter {
    Cutter(c.emitted + [c.open], map[], 0, 0)
  }

  function Take(c: Cutter, size: nat, taken: nat): Cutter {
    Cutter(c.emitted, Bump(c.open, size, taken), c.bytes + size * taken, c.chunks + taken)
  }

  lemma AddBump(a: map<nat, nat>, b: map<nat, nat>, size: nat, amount: nat)
    ensures Add(a, Bump(b, size, amount)) == Bump(Add(a, b), size, amount)
  {
  }

  /** How many more chunks of one size fit. */
  function Capacity(maxBytes: nat, maxChunks: nat, byteCount: nat, chunkCount: nat, size: nat): nat
    requires byteCount <= maxBytes && chunkCount <= maxChunks && size > 0
  {
    QuotientNat(maxBytes - byteCount, size);
    Min((maxBytes - byteCount) / size, maxChunks - chunkCount)
  }

  /** Moving `taken` chunks of one size into the open segment. */
  lemma TakeIntoSegment(segment: map<nat, nat>, size: nat, taken: nat, maxBytes: nat, maxChunks: nat)
    requires Positive(segment) && size > 0 && taken > 0
    requires BytesIn(segment) <= maxBytes && Total(segment) <= maxChunks
    requires taken <= Capacity(maxBytes, maxChunks, BytesIn(segment), Total(segment), size)
    ensures Within(Bump(segment, size, taken), maxBytes, maxChunks)
    ensures BytesIn(Bump(segment, size, taken)) == BytesIn(segment) + size * taken
    ensures Total(Bump(segment, size, taken)) == Total(segment) + taken
  {
    QuotientFits(maxBytes - BytesIn(segment), size, taken);
    BytesBump(segment, size, taken);
    TotalBump(segment, size, taken);
    assert size in Bump(segment, size, taken);
  }

  lemma NoRoom(bytes: nat, chunks: nat, size: nat, maxBytes: nat, maxChunks: nat, largest: nat)
    requires 0 < size <= largest <= maxBytes && 1 <= maxChunks
    requires bytes <= maxBytes && chunks <= maxChunks
    requires Capacity(maxBytes, maxChunks, bytes, chunks, size) == 0
    ensures bytes > 0 || chunks > 0
    ensures bytes + largest > maxBytes || chunks == maxChunks
  {
    if maxBytes - bytes >= size {
      QuotientPositive(maxBytes - bytes, size);
    }
  }

  /** Without room for one more chunk of `size`, the open segment is nonempty and full. */
  lemma NoCapacity(segment: map<nat, nat>, size: nat, maxBytes: nat, maxChunks: nat, largest: nat)
    requires 0 < size <= largest <= maxBytes && 1 <= maxChunks
    requires BytesIn(segment) <= maxBytes && Total(segment) <= maxChunks
    requires Capacity(maxBytes, maxChunks, BytesIn(segment), Total(segment), size) == 0
    ensures segment != map[] && Full(segment, maxBytes, maxChunks, largest)
  {
    EmptyTotals();
    var bytes, chunks := BytesIn(segment), Total(segment);
    NoRoom(bytes, chunks, size, maxBytes, maxChunks, largest);
  }

  lemma EmitHeld(c: Cutter)
    ensures AddAll(c.emitted + [c.open]) == Held(c)
    ensures Held(Emit(c)) == Held(c)
  {
    assert (c.emitted + [c.open])[..|c.emitted|] == c.emitted;
  }

  lemma EmitKeeps(c: Cutter, size: nat, maxBytes: nat, maxChunks: nat, largest: nat)
    requires Filling(c, maxBytes, maxChunks, largest) && AtMost(c, size)
    requires c.open != map[] && Full(c.open, maxBytes, maxChunks, largest)
    ensures Filling(Emit(c), maxBytes, maxChunks, largest) && AtMost(Emit(c), size)
  {
    EmptyTotals();
    assert (c.emitted + [c.open])[..|c.emitted|] == c.emitted;
  }

  lemma TakeKeeps(c: Cutter, size: nat, taken: nat, maxBytes: nat, maxChunks: nat, largest: nat)
    requires Filling(c, maxBytes, maxChunks, largest) && AtMost(c, size)
    requires size > 0 && 0 < taken <= Capacity(maxBytes, maxChunks, c.bytes, c.chunks, size)
    ensures Filling(Take(c, size, taken), maxBytes, maxChunks, largest) && AtMost(Take(c, size, taken), size)
  {
    TakeIntoSegment(c.open, size, taken, maxBytes, maxChunks);
  }

  /** An open segment holding nothing has used up nothing. */
  predicate Ready(c: Cutter, maxBytes: nat, maxChunks: nat) {
    c.bytes <= maxBytes && c.chunks <= maxChunks && (c.open == map[] ==> c.bytes == 0 && c.chunks == 0)
  }

  lemma CapacityOfEmpty(c: Cutter, size: nat, maxBytes: nat, maxChunks: nat)
    requires 0 < size <= maxBytes && 1 <= maxChunks && Ready(c, maxBytes, maxChunks)
    ensures Capacity(maxBytes, maxChunks, c.bytes, c.chunks, size) == 0 ==> c.open != map[]
  {
    QuotientPositive(maxBytes, size);
  }

  lemma TakeReady(c: Cutter, size: nat, taken: nat, maxBytes: nat, maxChunks: nat)
    requires 0 < size && Ready(c, maxBytes, maxChunks)
    requires taken <= Capacity(maxBytes, maxChunks, c.bytes, c.chunks, size)
    ensures Ready(Take(c, size, taken), maxBytes, maxChunks)
  {
    QuotientFits(maxBytes - c.bytes, size, taken);
    assert size in Take(c, size, taken).open;
  }

  /** Placing `remaining` chunks of one size, emitting the open segment whenever nothing more fits. */
  function Place(c: Cutter, size: nat, remaining: nat, maxBytes: nat, maxChunks: nat): (r: Cutter)
    requires 0 < size <= maxBytes && 1 <= maxChunks && Ready(c, maxBytes, maxChunks)
    ensures Ready(r, maxBytes, maxChunks)
    decreases remaining, |c.open|
  {
    if remaining == 0 then c
    else
      var capacity := Capacity(maxBytes, maxChunks, c.bytes, c.chunks, size);
      CapacityOfEmpty(c, size, maxBytes, maxChunks);
      if capacity == 0 then Place(Emit(c), size, remaining, maxBytes, maxChunks)
      else
        var taken := if remaining <= capacity then remaining else capacity;
        TakeReady(c, size, taken, maxBytes, maxChunks);
        Place(Take(c, size, taken), size, remaining - taken, maxBytes, maxChunks)
  }

  /** `sorted(histogram.items())` placed one size after another. */
  function PlaceAll(items: seq<Bin>, maxBytes: nat, maxChunks: nat): (r: Cutter)
    requires 1 <= maxChunks
    requires forall i :: 0 <= i < |items| ==> 0 < items[i].sizeBytes <= maxBytes && items[i].count > 0
    ensures Ready(r, maxBytes, maxChunks)
  {
    if items == [] then Cutter([], map[], 0, 0)
    else
      var last := items[|items| - 1];
      Place(PlaceAll(items[..|items| - 1], maxBytes, maxChunks), last.sizeBytes, last.count, maxBytes, maxChunks)
  }

  /** The generator, drained. */
  function Segments(items: seq<Bin>, maxBytes: nat, maxChunks: nat): seq<map<nat, nat>>
    requires 1 <= maxChunks
    requires forall i :: 0 <= i < |items| ==> 0 < items[i].sizeBytes <= maxBytes && items[i].count > 0
  {
    var c := PlaceAll(items, maxBytes, maxChunks);
    if c.open != map[] then c.emitted + [c.open] else c.emitted
  }

  lemma {:induction false} PlaceKeeps(
    c: Cutter, size: nat, remaining: nat, maxBytes: nat, maxChunks: nat, largest: nat)
    requires 0 < size <= largest <= maxBytes && 1 <= maxChunks && Ready(c, maxBytes, maxChunks)
    requires Filling(c, maxBytes, maxChunks, largest) && AtMost(c, size)
    ensures Filling(Place(c, size, remaining, maxBytes, maxChunks), maxBytes, maxChunks, largest)
    ensures AtMost(Place(c, size, remaining, maxBytes, maxChunks), size)
    decreases remaining, |c.open|
  {
    if remaining > 0 {
      var capacity := Capacity(maxBytes, maxChunks, c.bytes, c.chunks, size);
      CapacityOfEmpty(c, size, maxBytes, maxChunks);
      if capacity == 0 {
        NoCapacity(c.open, size, maxBytes, maxChunks, largest);
        EmitKeeps(c, size, maxBytes, maxChunks, largest);
        PlaceKeeps(Emit(c), size, remaining, maxBytes, maxChunks, largest);
      } else {
        var taken := if remaining <= capacity then remaining else capacity;
        TakeReady(c, size, taken, maxBytes, maxChunks);
        TakeKeeps(c, size, taken, maxBytes, maxChunks, largest);
        PlaceKeeps(Take(c, size, taken), size, remaining - taken, maxBytes, maxChunks, largest);
      }
    }
  }

  lemma TakeHeld(c: Cutter, size: nat, taken: nat, s: nat)
    ensures Get(Held(Take(c, size, taken)), s) == Get(Held(c), s) + if s == size then taken else 0
  {
    AddBump(AddAll(c.emitted), c.open, size, taken);
  }

  /** One step of `Place` that emits the open segment, and one that fills it. */
  lemma PlaceEmits(c: Cutter, size: nat, remaining: nat, maxBytes: nat, maxChunks: nat)
    requires 0 < size <= maxBytes && 1 <= maxChunks && Ready(c, maxBytes, maxChunks) && remaining > 0
    requires Capacity(maxBytes, maxChunks, c.bytes, c.chunks, size) == 0
    ensures c.open != map[]
    ensures Place(c, size, remaining, maxBytes, maxChunks) == Place(Emit(c), size, remaining, maxBytes, maxChunks)
  {
    CapacityOfEmpty(c, size, maxBytes, maxChunks);
  }

  lemma PlaceFills(c: Cutter, size: nat, remaining: nat, maxBytes: nat, maxChunks: nat, taken: nat)
    requires 0 < size <= maxBytes && 1 <= maxChunks && Ready(c, maxBytes, maxChunks)
    requires Capacity(maxBytes, maxChunks, c.bytes, c.chunks, size) > 0
    requires 0 < taken == Min(remaining, Capacity(maxBytes, maxChunks, c.bytes, c.chunks, size))
    ensures Ready(Take(c, size, taken), maxBytes, maxChunks)
    ensures Place(c, size, remaining, maxBytes, maxChunks)
         == Place(Take(c, size, taken), size, remaining - taken, maxBytes, maxChunks)
  {
    TakeReady(c, size, taken, maxBytes, maxChunks);
  }

  /** Nothing is lost, added or recounted: the count of every size `s` is what it was plus what was placed. */
  lemma {:induction false} PlaceHeld(c: Cutter, size: nat, remaining: nat, maxBytes: nat, maxChunks: nat, s: nat)
    requires 0 < size <= maxBytes && 1 <= maxChunks && Ready(c, maxBytes, maxChunks)
    ensures Get(Held(Place(c, size, remaining, maxBytes, maxChunks)), s)
         == Get(Held(c), s) + if s == size then remaining else 0
    decreases remaining, |c.open|
  {
    if remaining > 0 {
      var capacity := Capacity(maxBytes, maxChunks, c.bytes, c.chunks, size);
      if capacity == 0 {
        PlaceEmits(c, size, remaining, maxBytes, maxChunks);
        EmitHeld(c);
        PlaceHeld(Emit(c), size, remaining, maxBytes, maxChunks, s);
      } else {
        var taken := Min(remaining, capacity);
        PlaceFills(c, size, remaining, maxBytes, maxChunks, taken);
        TakeHeld(c, size, taken, s);
        PlaceHeld(Take(c, size, taken), size, remaining - taken, maxBytes, maxChunks, s);
      }
    }
  }

  lemma {:induction false} PlaceAllHeld(items: seq<Bin>, maxBytes: nat, maxChunks: nat, s: nat)
    requires 1 <= maxChunks
    requires forall i :: 0 <= i < |items| ==> 0 < items[i].sizeBytes <= maxBytes && items[i].count > 0
    ensures Get(Held(PlaceAll(items, maxBytes, maxChunks)), s) == CountIn(items, s)
  {
    if items != [] {
      var init, last := items[..|items| - 1], items[|items| - 1];
      PlaceAllHeld(init, maxBytes, maxChunks, s);
      PlaceHeld(PlaceAll(init, maxBytes, maxChunks), last.sizeBytes, last.count, maxBytes, maxChunks, s);
    }
  }

  lemma KeysAtMostMonotone(segments: seq<map<nat, nat>>, low: nat, high: nat)
    requires KeysAtMost(segments, low) && low <= high
    ensures KeysAtMost(segments, high)
  {
  }

  lemma {:induction false} PlaceAllKeeps(items: seq<Bin>, maxBytes: nat, maxChunks: nat, largest: nat)
    requires 1 <= maxChunks && largest <= maxBytes
    requires forall i :: 0 <= i < |items| ==> 0 < items[i].sizeBytes <= largest && items[i].count > 0
    requires forall i, j :: 0 <= i < j < |items| ==> items[i].sizeBytes < items[j].sizeBytes
    ensures var c := PlaceAll(items, maxBytes, maxChunks);
      && Filling(c, maxBytes, maxChunks, largest)
      && (items != [] ==> AtMost(c, items[|items| - 1].sizeBytes))
      && (items == [] ==> c.emitted == [] && c.open == map[])
  {
    EmptyTotals();
    if items != [] {
      var init, last := items[..|items| - 1], items[|items| - 1];
      PlaceAllKeeps(init, maxBytes, maxChunks, largest);
      var c := PlaceAll(init, maxBytes, maxChunks);
      if init != [] {
        KeysAtMostMonotone(c.emitted, init[|init| - 1].sizeBytes, last.sizeBytes);
      }
      PlaceKeeps(c, last.sizeBytes, last.count, maxBytes, maxChunks, largest);
    }
  }

  lemma {:induction false} KeysAtMostEach(segments: seq<map<nat, nat>>, size: nat, i: nat, a: nat)
    requires KeysAtMost(segments, size) && i < |segments| && a in segments[i]
    ensures a <= size
  {
    if i < |segments| - 1 {
      KeysAtMostEach(segments[..|segments| - 1], size, i, a);
    }
  }

  lemma {:induction false} SealedEach(segments: seq<map<nat, nat>>, maxBytes: nat, maxChunks: nat, largest: nat, i: nat)
    requires Sealed(segments, maxBytes, maxChunks, largest) && i < |segments|
    ensures Within(segments[i], maxBytes, maxChunks) && Full(segments[i], maxBytes, maxChunks, largest)
  {
    if i < |segments| - 1 {
      SealedEach(segments[..|segments| - 1], maxBytes, maxChunks, largest, i);
    }
  }

  lemma {:induction false} SealedAscending(
    segments: seq<map<nat, nat>>, maxBytes: nat, maxChunks: nat, largest: nat, i: nat, j: nat, a: nat, b: nat)
    requires Sealed(segments, maxBytes, maxChunks, largest)
    requires i < j < |segments| && a in segments[i] && b in segments[j]
    ensures a <= b
  {
    if j == |segments| - 1 {
      KeysAtMostEach(segments[..|segments| - 1], b, i, a);
    } else {
      SealedAscending(segments[..|segments| - 1], maxBytes, maxChunks, largest, i, j, a, b);
    }
  }

  lemma {:induction false} PositiveAddAll(segments: seq<map<nat, nat>>)
    requires forall i :: 0 <= i < |segments| ==> Positive(segments[i])
    ensures Positive(AddAll(segments))
  {
    if segments != [] {
      PositiveAddAll(segments[..|segments| - 1]);
    }
  }

  /** The segments partition the histogram. */
  lemma SegmentsPartition(h: map<nat, nat>, items: seq<Bin>, maxBytes: nat, maxChunks: nat)
    requires Positive(h) && Lists(items, h) && 1 <= maxChunks
    requires forall s :: s in h ==> s <= maxBytes
    ensures AddAll(Segments(items, maxBytes, maxChunks)) == h
  {
    var c := PlaceAll(items, maxBytes, maxChunks);
    PlaceAllKeeps(items, maxBytes, maxChunks, maxBytes);
    forall i | 0 <= i < |c.emitted| ensures Positive(c.emitted[i]) {
      SealedEach(c.emitted, maxBytes, maxChunks, maxBytes, i);
    }
    PositiveAddAll(c.emitted);
    var held := Held(c);
    forall s: nat ensures Get(held, s) == Get(h, s) {
      PlaceAllHeld(items, maxBytes, maxChunks, s);
      ListsCount(items, h, s);
    }
    SameCounts(held, h);
    if c.open == map[] {
      assert held == AddAll(c.emitted);
    } else {
      EmitHeld(c);
    }
  }

  /** Sizes never decrease from what was emitted to what is open. */
  lemma EmittedAscends(c: Cutter, segments: seq<map<nat, nat>>, maxBytes: nat, maxChunks: nat, largest: nat)
    requires Filling(c, maxBytes, maxChunks, largest)
    requires segments == c.emitted || segments == c.emitted + [c.open]
    ensures Ascending(segments)
  {
    forall i, j, a, b | 0 <= i < j < |segments| && a in segments[i] && b in segments[j] ensures a <= b {
      if j < |c.emitted| {
        SealedAscending(c.emitted, maxBytes, maxChunks, largest, i, j, a, b);
      } else {
        KeysAtMostEach(c.emitted, b, i, a);
      }
    }
  }

  lemma EmittedWithin(c: Cutter, maxBytes: nat, maxChunks: nat, largest: nat)
    requires Filling(c, maxBytes, maxChunks, largest)
    ensures forall i :: 0 <= i < |c.emitted| ==>
      Within(c.emitted[i], maxBytes, maxChunks) && Full(c.emitted[i], maxBytes, maxChunks, largest)
    ensures c.open != map[] ==> Within(c.open, maxBytes, maxChunks)
  {
    forall i | 0 <= i < |c.emitted|
      ensures Within(c.emitted[i], maxBytes, maxChunks) && Full(c.emitted[i], maxBytes, maxChunks, largest)
    {
      SealedEach(c.emitted, maxBytes, maxChunks, largest, i);
    }
  }

  /** Every segment is within the limits, all but the last are full, and sizes never decrease across segments. */
  lemma SegmentsWithin(h: map<nat, nat>, items: seq<Bin>, maxBytes: nat, maxChunks: nat, largest: nat)
    requires Positive(h) && Lists(items, h) && 1 <= maxChunks && largest <= maxBytes
    requires forall s :: s in h ==> s <= largest
    ensures var segments := Segments(items, maxBytes, maxChunks);
      && (forall i :: 0 <= i < |segments| ==> Within(segments[i], maxBytes, maxChunks))
      && (forall i :: 0 <= i < |segments| - 1 ==> Full(segments[i], maxBytes, maxChunks, largest))
      && Ascending(segments)
  {
    var c := PlaceAll(items, maxBytes, maxChunks);
    PlaceAllKeeps(items, maxBytes, maxChunks, largest);
    EmittedWithin(c, maxBytes, maxChunks, largest);
    EmittedAscends(c, Segments(items, maxBytes, maxChunks), maxBytes, maxChunks, largest);
  }

  /** The inner loop of the generator. */
  method PlaceSize(c0: Cutter, size: nat, count: nat, maxBytes: nat, maxChunks: nat) returns (c: Cutter)
    requires 0 < size <= maxBytes && 1 <= maxChunks && Ready(c0, maxBytes, maxChunks)
    ensures c == Place(c0, size, count, maxBytes, maxChunks)
  {
    var segments: seq<map<nat, nat>>, segment: map<nat, nat> := c0.emitted, c0.open;
    var byteCount: nat, chunkCount: nat, remaining: nat := c0.bytes, c0.chunks, count;
    while remaining > 0
      invariant Ready(Cutter(segments, segment, byteCount, chunkCount), maxBytes, maxChunks)
      invariant Place(Cutter(segments, segment, byteCount, chunkCount), size, remaining, maxBytes, maxChunks)
             == Place(c0, size, count, maxBytes, maxChunks)
      decreases remaining, |segment|
    {
      ghost var now := Cutter(segments, segment, byteCount, chunkCount);
      CapacityOfEmpty(now, size, maxBytes, maxChunks);
      var capacity := Capacity(maxBytes, maxChunks, byteCount, chunkCount, size);
      if capacity == 0 {
        segments := segments + [segment];
        segment, byteCount, chunkCount := map[], 0, 0;
        continue;
      }
      var taken := if remaining <= capacity then remaining else capacity;
      TakeReady(now, size, taken, maxBytes, maxChunks);
      segment := segment[size := Get(segment, size) + taken];
      byteCount := byteCount + size * taken;
      chunkCount := chunkCount + taken;
      remaining := remaining - taken;
    }
    c := Cutter(segments, segment, byteCount, chunkCount);
  }

  /**
   The generator, drained: the segments partition the histogram, each is nonempty and within both limits, every
   one but the last is full, and sizes never decrease from one segment to the next.
   */
  method ReplaySegments(h: map<nat, nat>, maxBytes: nat, maxChunks: nat, ghost largest: nat)
    returns (segments: seq<map<nat, nat>>)
    requires Positive(h) && 1 <= maxChunks
    requires largest <= maxBytes && forall s :: s in h ==> s <= largest
    ensures AddAll(segments) == h
    ensures forall i :: 0 <= i < |segments| ==> Within(segments[i], maxBytes, maxChunks)
    ensures forall i :: 0 <= i < |segments| - 1 ==> Full(segments[i], maxBytes, maxChunks, largest)
    ensures Ascending(segments)
  {
    var items := SortedItems(h);
    var c := Cutter([], map[], 0, 0);
    for k := 0 to |items|
      invariant c == PlaceAll(items[..k], maxBytes, maxChunks)
    {
      assert items[..k + 1][..k] == items[..k];
      c := PlaceSize(c, items[k].sizeBytes, items[k].count, maxBytes, maxChunks);
    }
    assert items[..|items|] == items;
    segments := if c.open != map[] then c.emitted + [c.open] else c.emitted;
    SegmentsPartition(h, items, maxBytes, maxChunks);
    SegmentsWithin(h, items, maxBytes, maxChunks, largest);
  }

  /** An upper bound on the number of segments for `bytes` and `chunks` in all. */
  function Ceiling(bytes: nat, chunks: nat, maxBytes: nat, maxChunks: nat, largest: nat): nat
    requires largest <= maxBytes && 1 <= maxChunks
  {
    bytes / (maxBytes - largest + 1) + chunks / maxChunks + 1
  }

  lemma AddAllLast(segments: seq<map<nat, nat>>)
    requires segments != []
    ensures BytesIn(AddAll(segments)) == BytesIn(AddAll(segments[..|segments| - 1])) + BytesIn(segments[|segments| - 1])
    ensures Total(AddAll(segments)) == Total(AddAll(segments[..|segments| - 1])) + Total(segments[|segments| - 1])
  {
    BytesAdd(AddAll(segments[..|segments| - 1]), segments[|segments| - 1]);
    TotalAdd(AddAll(segments[..|segments| - 1]), segments[|segments| - 1]);
  }

  lemma SpendOne(count: nat, unit: nat, before: nat, spent: nat, after: nat)
    requires count * unit <= before && before + spent == after && spent >= unit
    ensures (count + 1) * unit <= after
  {
    assert (count + 1) * unit == count * unit + unit;
  }

  /** How many segments are full by number of chunks; the others are full by bytes. */
  ghost function FullByChunks(segments: seq<map<nat, nat>>, maxChunks: nat): nat {
    if segments == [] then 0
    else FullByChunks(segments[..|segments| - 1], maxChunks)
         + if Total(segments[|segments| - 1]) == maxChunks then 1 else 0
  }

  ghost function FullByBytes(segments: seq<map<nat, nat>>, maxChunks: nat): nat {
    if segments == [] then 0
    else FullByBytes(segments[..|segments| - 1], maxChunks)
         + if Total(segments[|segments| - 1]) == maxChunks then 0 else 1
  }

  lemma {:induction false} EveryWay(segments: seq<map<nat, nat>>, maxChunks: nat)
    ensures FullByBytes(segments, maxChunks) + FullByChunks(segments, maxChunks) == |segments|
  {
    if segments != [] {
      EveryWay(segments[..|segments| - 1], maxChunks);
    }
  }

  /** Each segment full by chunks uses up `maxChunks` chunks. */
  lemma {:induction false} ChunksSpent(segments: seq<map<nat, nat>>, maxChunks: nat)
    ensures FullByChunks(segments, maxChunks) * maxChunks <= Total(AddAll(segments))
  {
    if segments != [] {
      var init := segments[..|segments| - 1];
      ChunksSpent(init, maxChunks);
      AddAllLast(segments);
      if Total(segments[|segments| - 1]) == maxChunks {
        SpendOne(FullByChunks(init, maxChunks), maxChunks, Total(AddAll(init)), maxChunks, Total(AddAll(segments)));
      }
    }
  }

  /** Each other full segment uses up `unit` bytes. */
  lemma {:induction false} BytesSpent(segments: seq<map<nat, nat>>, maxChunks: nat, unit: nat)
    requires forall i :: 0 <= i < |segments| ==> BytesIn(segments[i]) >= unit || Total(segments[i]) == maxChunks
    ensures FullByBytes(segments, maxChunks) * unit <= BytesIn(AddAll(segments))
  {
    if segments != [] {
      var init, last := segments[..|segments| - 1], segments[|segments| - 1];
      BytesSpent(init, maxChunks, unit);
      AddAllLast(segments);
      var spent, before, after := BytesIn(last), BytesIn(AddAll(init)), BytesIn(AddAll(segments));
      if Total(last) != maxChunks {
        SpendOne(FullByBytes(init, maxChunks), unit, before, spent, after);
      }
    }
  }

  /** The number of segments of any partition whose segments, except the last, are full. */
  lemma SegmentCount(segments: seq<map<nat, nat>>, h: map<nat, nat>, maxBytes: nat, maxChunks: nat, largest: nat)
    requires AddAll(segments) == h && largest <= maxBytes && 1 <= maxChunks
    requires forall i :: 0 <= i < |segments| - 1 ==> Full(segments[i], maxBytes, maxChunks, largest)
    ensures |segments| <= Ceiling(BytesIn(h), Total(h), maxBytes, maxChunks, largest)
  {
    if segments != [] {
      var init := segments[..|segments| - 1];
      var unit := maxBytes - largest + 1;
      assert forall i :: 0 <= i < |init| ==> Full(segments[i], maxBytes, maxChunks, largest);
      BytesSpent(init, maxChunks, unit);
      ChunksSpent(init, maxChunks);
      EveryWay(init, maxChunks);
      AddAllLast(segments);
      QuotientAtLeast(FullByBytes(init, maxChunks), unit, BytesIn(h));
      QuotientAtLeast(FullByChunks(init, maxChunks), maxChunks, Total(h));
    }
  }
}
