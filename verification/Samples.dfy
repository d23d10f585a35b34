/** Samples as opaque values. */
module Samples {

  /** The arithmetic the sample path uses on a sample type `S`. Nothing is known of the operations,
      so every equation proved over them holds of IEEE floats, rounding included: both sides of it
      apply the same operations to the same operands in the same order. `ratio(a, b)` is the
      quotient of two whole numbers converted to samples first. */
  datatype Arith<!S> = Arith(
    zero: S,
    add: (S, S) -> S,
    sub: (S, S) -> S,
    mul: (S, S) -> S,
    ratio: (int, int) -> S)

  /** `count` zero samples. */
  function Zeros<S>(a: Arith<S>, count: nat): (z: seq<S>)
    ensures |z| == count
    ensures forall i :: 0 <= i < count ==> z[i] == a.zero
  {
    seq(count, _ => a.zero)
  }

  lemma SliceGrows<T>(prefix: seq<T>, s: seq<T>, from: nat, to: nat)
    requires from <= to < |s|
    ensures prefix + s[from..to] + [s[to]] == prefix + s[from..to + 1]
  {}
}
