/** Dense real vectors and matrices, and the scalar helpers the kernel uses.
    A column vector of length N is a `Vec` of length N; a matrix is a sequence
    of rows. All arithmetic is exact (`real`), standing in for float32 tensors. */
module Vectors {

  type Vec = seq<real>
  type Matrix = seq<seq<real>>

  /** Elementwise sum. */
  function Add(u: Vec, v: Vec): (r: Vec)
    requires |u| == |v|
    ensures |r| == |u|
    ensures forall i :: 0 <= i < |r| ==> r[i] == u[i] + v[i]
  {
    seq(|u|, i requires 0 <= i < |u| => u[i] + v[i])
  }

  /** Elementwise difference. */
  function Sub(u: Vec, v: Vec): (r: Vec)
    requires |u| == |v|
    ensures |r| == |u|
    ensures forall i :: 0 <= i < |r| ==> r[i] == u[i] - v[i]
  {
    seq(|u|, i requires 0 <= i < |u| => u[i] - v[i])
  }

  /** Elementwise (Hadamard) product. */
  function Mul(u: Vec, v: Vec): (r: Vec)
    requires |u| == |v|
    ensures |r| == |u|
    ensures forall i :: 0 <= i < |r| ==> r[i] == u[i] * v[i]
  {
    seq(|u|, i requires 0 <= i < |u| => u[i] * v[i])
  }

  /** A scalar times a vector. */
  function Scale(c: real, v: Vec): (r: Vec)
    ensures |r| == |v|
    ensures forall i :: 0 <= i < |r| ==> r[i] == c * v[i]
  {
    seq(|v|, i requires 0 <= i < |v| => c * v[i])
  }

  /** Inner product of two vectors of equal length. */
  function Dot(u: Vec, v: Vec): real
    requires |u| == |v|
  {
    if |u| == 0 then 0.0 else u[0] * v[0] + Dot(u[1..], v[1..])
  }

  /** Every row of `W` has as many entries as `x`, so `W·x` is defined. */
  predicate Conforms(W: Matrix, n: nat)
  {
    forall i :: 0 <= i < |W| ==> |W[i]| == n
  }

  /** Matrix-vector product: entry i is row i of `W` dotted with `x`. */
  function MatVec(W: Matrix, x: Vec): (r: Vec)
    requires Conforms(W, |x|)
    ensures |r| == |W|
    ensures forall i :: 0 <= i < |r| ==> r[i] == Dot(W[i], x)
  {
    seq(|W|, i requires 0 <= i < |W| => Dot(W[i], x))
  }

  /** The vector whose entries are all zero. */
  predicate IsZero(v: Vec)
  {
    forall i :: 0 <= i < |v| ==> v[i] == 0.0
  }

  lemma {:induction false} DotZero(u: Vec, v: Vec)
    requires |u| == |v| && IsZero(v)
    ensures Dot(u, v) == 0.0
  {
    if |u| > 0 {
      DotZero(u[1..], v[1..]);
    }
  }

  function Abs(x: real): real
  {
    if x < 0.0 then -x else x
  }

  /** The sign function: 1, -1, or 0 at zero (as `tf.sign`). */
  function Sign(x: real): real
  {
    if x > 0.0 then 1.0 else if x < 0.0 then -1.0 else 0.0
  }

  /** `x` to the natural power `k` (`x ** k` for an integer exponent). */
  function Pow(x: real, k: nat): real
  {
    if k == 0 then 1.0 else x * Pow(x, k - 1)
  }

  lemma {:induction false} PowOfNonneg(x: real, k: nat)
    requires x >= 0.0
    ensures Pow(x, k) >= 0.0
    ensures x > 0.0 ==> Pow(x, k) > 0.0
  {
    if k > 0 {
      PowOfNonneg(x, k - 1);
    }
  }

  lemma {:induction false} PowOfNeg(x: real, k: nat)
    ensures Pow(-x, k) == if k % 2 == 0 then Pow(x, k) else -Pow(x, k)
  {
    if k > 0 {
      PowOfNeg(x, k - 1);
    }
  }

  lemma {:induction false} PowOfAbs(x: real, k: nat)
    ensures Pow(Abs(x), k) == Abs(Pow(x, k))
  {
    if k > 0 {
      PowOfAbs(x, k - 1);
      assert Abs(x * Pow(x, k - 1)) == Abs(x) * Abs(Pow(x, k - 1));
    }
  }

  lemma PowEven(x: real, k: nat)
    requires k % 2 == 0
    ensures Pow(x, k) == Pow(Abs(x), k) >= 0.0
  {
    PowOfAbs(x, k);
    PowOfNeg(x, k);
    PowOfNonneg(Abs(x), k);
  }

  /** `x^k` is `|x|^k` for even `k` and `|x|^k · sign(x)` for odd `k`. */
  lemma PowBySign(x: real, k: nat)
    ensures k % 2 == 0 ==> Pow(x, k) == Pow(Abs(x), k)
    ensures k % 2 == 1 ==> Pow(x, k) == Pow(Abs(x), k) * Sign(x)
  {
    if k % 2 == 0 {
      PowEven(x, k);
    } else if x < 0.0 {
      PowOfNeg(Abs(x), k);
      assert -Abs(x) == x;
    } else if x == 0.0 {
      assert Pow(x, k) == x * Pow(x, k - 1);
    }
  }
}
