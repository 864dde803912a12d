/** The string operations the models rely on: `str(int)`, `strip`, `lower`, `split` and `join`. */
module Text {

  /** `str(n)` for a nonnegative integer. */
  function Decimal(n: nat): (r: string)
    ensures |r| > 0
    ensures forall i :: 0 <= i < |r| ==> '0' <= r[i] <= '9'
  {
    if n < 10 then [Digit(n)] else Decimal(n / 10) + [Digit(n % 10)]
  }

  function Digit(d: nat): (r: char)
    requires d < 10
    ensures '0' <= r <= '9'
  {
    '0' + d as char
  }

  function Value(s: string): nat
    requires forall i :: 0 <= i < |s| ==> '0' <= s[i] <= '9'
  {
    if s == [] then 0 else 10 * Value(s[..|s| - 1]) + (s[|s| - 1] - '0') as nat
  }

  lemma {:induction false} ValueOfDecimal(n: nat)
    ensures Value(Decimal(n)) == n
  {
    if n >= 10 {
      ValueOfDecimal(n / 10);
      var s := Decimal(n);
      assert s[..|s| - 1] == Decimal(n / 10);
      assert s[|s| - 1] == Digit(n % 10);
    }
  }

  lemma DecimalInjective(m: nat, n: nat)
    requires Decimal(m) == Decimal(n)
    ensures m == n
  {
    ValueOfDecimal(m);
    ValueOfDecimal(n);
  }

  /** `str(n)` for any integer. */
  function IntText(n: int): (r: string) {
    if n < 0 then "-" + Decimal(-n) else Decimal(n)
  }

  lemma IntTextInjective(m: int, n: int)
    requires IntText(m) == IntText(n)
    ensures m == n
  {
    assert Decimal(if m < 0 then -m else m)[0] != '-' && Decimal(if n < 0 then -n else n)[0] != '-';
    if m < 0 && n < 0 {
      assert IntText(m)[1..] == Decimal(-m) && IntText(n)[1..] == Decimal(-n);
      DecimalInjective(-m, -n);
    } else if m >= 0 && n >= 0 {
      DecimalInjective(m, n);
    }
  }

  lemma IntTextIsNotDash(n: int)
    ensures IntText(n) != "-"
  {
    assert Decimal(if n < 0 then -n else n)[0] != '-';
    if n < 0 { assert |IntText(n)| >= 2; }
  }

  /** The characters `str.strip()` removes. */
  predicate IsSpace(c: char) {
    || '\t' <= c <= '\r' || '\U{1c}' <= c <= ' ' || c == '\U{85}' || c == '\U{a0}' || c == '\U{1680}'
    || '\U{2000}' <= c <= '\U{200a}' || c == '\U{2028}' || c == '\U{2029}' || c == '\U{202f}' || c == '\U{205f}'
    || c == '\U{3000}'
  }

  /** `not s.strip()`. */
  predicate Blank(s: string) {
    forall i :: 0 <= i < |s| ==> IsSpace(s[i])
  }
}
