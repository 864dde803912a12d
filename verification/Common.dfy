/** Vocabulary shared by every model: optional values, results and octets. */
module Common {

  datatype Option<+T> = None | Some(value: T)

  datatype Result<+T, +E> = Ok(value: T) | Err(error: E)

  type Byte = b: int | 0 <= b < 256

  type Bytes = seq<Byte>

  function Min(a: int, b: int): int {
    if a <= b then a else b
  }

  /** The values of all elements, if every element has one. */
  function Gather<T, U>(xs: seq<T>, f: T -> Option<U>): Option<seq<U>> {
    if xs == [] then Some([])
    else
      var before, last := Gather(xs[..|xs| - 1], f), f(xs[|xs| - 1]);
      if before.None? || last.None? then None else Some(before.value + [last.value])
  }

  lemma {:induction false} AllGathered<T, U>(xs: seq<T>, f: T -> Option<U>)
    requires forall i :: 0 <= i < |xs| ==> f(xs[i]).Some?
    ensures Gather(xs, f).Some? && |Gather(xs, f).value| == |xs|
    ensures forall i :: 0 <= i < |xs| ==> Gather(xs, f).value[i] == f(xs[i]).value
  {
    if xs != [] { AllGathered(xs[..|xs| - 1], f); }
  }

  function Max(a: int, b: int): int {
    if a >= b then a else b
  }
}
