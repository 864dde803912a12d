/** Facts about products and quotients of variables, kept apart so that other proofs stay linear. */
module Arithmetic {

  lemma Widen(low: int, high: int, unit: nat)
    requires low <= high
    ensures low * unit <= high * unit
  {
    assert (high - low) * unit == high * unit - low * unit;
    assert (high - low) * unit >= 0;
  }

  lemma Apart(low: nat, high: nat, unit: nat)
    requires low < high
    ensures low * unit + unit <= high * unit
  {
    Widen(low + 1, high, unit);
    assert (low + 1) * unit == low * unit + unit;
  }

  lemma ProductAtLeast(a: nat, b: nat, c: nat)
    requires a >= b
    ensures a * c >= b * c
  {
  }

  lemma QuotientNat(room: nat, size: nat)
    requires size > 0
    ensures room / size >= 0
  {
  }

  lemma QuotientFits(room: nat, size: nat, taken: nat)
    requires size > 0 && taken <= room / size
    ensures size * taken <= room
  {
    assert size * taken <= size * (room / size);
  }

  lemma QuotientPositive(room: nat, size: nat)
    requires 0 < size <= room
    ensures room / size > 0
  {
    assert room == size * (room / size) + room % size && room % size < size;
  }

  lemma QuotientAtLeast(count: nat, unit: nat, total: nat)
    requires unit > 0 && count * unit <= total
    ensures count <= total / unit
  {
    var q := total / unit;
    assert total == q * unit + total % unit && (q + 1) * unit == q * unit + unit;
    if count > q {
      ProductAtLeast(count, q + 1, unit);
      assert false;
    }
  }

  lemma SameQuotient(d: nat, q: nat, r: nat, c: nat)
    requires d * c == q * c + r && r < c
    ensures d == q
  {
    if d > q {
      Apart(q, d, c);
    } else if d < q {
      Apart(d, q, c);
    }
  }

  lemma ProductQuotient(count: nat, unit: nat)
    requires unit > 0
    ensures count * unit / unit == count
  {
    var product: nat := count * unit;
    QuotientNat(product, unit);
    var q: nat, r: nat := product / unit, product % unit;
    assert product == q * unit + r;
    SameQuotient(count, q, r, unit);
  }
}
