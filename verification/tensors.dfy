/** Dense tensors as nested sequences, outermost axis first, with the
    rectangularity predicates a torch shape implies. */
module Tensors {

  type Vec = seq<real>
  type Mat = seq<Vec>
  type T3 = seq<Mat>
  type T4 = seq<T3>
  type T5 = seq<T4>

  predicate IsMat(m: Mat, rows: nat, cols: nat)
  {
    |m| == rows && forall i :: 0 <= i < rows ==> |m[i]| == cols
  }

  predicate IsT3(x: T3, a: nat, b: nat, c: nat)
  {
    |x| == a && forall i :: 0 <= i < a ==> IsMat(x[i], b, c)
  }

  predicate IsT4(x: T4, a: nat, b: nat, c: nat, d: nat)
  {
    |x| == a && forall i :: 0 <= i < a ==> IsT3(x[i], b, c, d)
  }

  predicate IsT5(x: T5, a: nat, b: nat, c: nat, d: nat, e: nat)
  {
    |x| == a && forall i :: 0 <= i < a ==> IsT4(x[i], b, c, d, e)
  }

  /** Read `m[r][c]`, or 0 outside the matrix: a zero-padded image. */
  function PadAt(m: Mat, r: int, c: int): real
  {
    if 0 <= r < |m| && 0 <= c < |m[r]| then m[r][c] else 0.0
  }
}
