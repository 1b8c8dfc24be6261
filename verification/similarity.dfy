/** `cosine_similarity`: the cosine of the angle between two embedding
    vectors, with the guards for empty vectors, vectors of different lengths
    and zero norms. Floating point is modelled by reals; `math.sqrt` is a
    parameter, and the properties that depend on it say what they need of it. */
module Similarity {

  type Vector = seq<real>

  /** `sum(x * y for x, y in zip(a, b))` for vectors of one length. */
  function Dot(a: Vector, b: Vector): real
    requires |a| == |b|
  {
    if |a| == 0 then 0.0 else a[0] * b[0] + Dot(a[1..], b[1..])
  }

  /** `sum(x * x for x in a)`. */
  function SumSquares(a: Vector): (r: real)
    ensures r >= 0.0
  {
    if |a| == 0 then 0.0 else a[0] * a[0] + SumSquares(a[1..])
  }

  /** `cosine_similarity(a, b)`. */
  function Cosine(a: Vector, b: Vector, sqrt: real -> real): (r: real)
    ensures |a| == 0 || |b| == 0 || |a| != |b| ==> r == 0.0
    ensures |a| == |b| && (sqrt(SumSquares(a)) == 0.0 || sqrt(SumSquares(b)) == 0.0) ==> r == 0.0
    ensures |a| == |b| > 0 && sqrt(SumSquares(a)) != 0.0 && sqrt(SumSquares(b)) != 0.0 ==>
      r * (sqrt(SumSquares(a)) * sqrt(SumSquares(b))) == Dot(a, b)
  {
    if |a| == 0 || |b| == 0 || |a| != |b| then 0.0
    else
      var normA := sqrt(SumSquares(a));
      var normB := sqrt(SumSquares(b));
      if normA == 0.0 || normB == 0.0 then 0.0
      else Dot(a, b) / (normA * normB)
  }

  lemma {:induction false} DotSymmetric(a: Vector, b: Vector)
    requires |a| == |b|
    ensures Dot(a, b) == Dot(b, a)
  {
    if |a| > 0 {
      DotSymmetric(a[1..], b[1..]);
    }
  }

  /** The zero vector has a zero sum of squares. */
  lemma {:induction false} ZeroVectorSumSquares(a: Vector)
    requires forall i :: 0 <= i < |a| ==> a[i] == 0.0
    ensures SumSquares(a) == 0.0
  {
    if |a| > 0 {
      assert a[0] == 0.0;
      ZeroVectorSumSquares(a[1..]);
    }
  }

  /** The score does not depend on which vector is the query. */
  lemma CosineSymmetric(a: Vector, b: Vector, sqrt: real -> real)
    ensures Cosine(a, b, sqrt) == Cosine(b, a, sqrt)
  {
    if |a| == |b| {
      DotSymmetric(a, b);
      var normA := sqrt(SumSquares(a));
      var normB := sqrt(SumSquares(b));
      assert normA * normB == normB * normA;
    }
  }

  /** A zero vector scores 0 against anything. */
  lemma CosineZeroVector(a: Vector, b: Vector, sqrt: real -> real)
    requires sqrt(0.0) == 0.0
    requires forall i :: 0 <= i < |a| ==> a[i] == 0.0
    ensures Cosine(a, b, sqrt) == 0.0
  {
    ZeroVectorSumSquares(a);
  }

  /** A vector's dot product with itself is its sum of squares. */
  lemma {:induction false} DotSelf(a: Vector)
    ensures Dot(a, a) == SumSquares(a)
  {
    if |a| > 0 {
      DotSelf(a[1..]);
    }
  }

  lemma NonNegativeSquare(x: real)
    ensures x * x >= 0.0
  {
  }

  lemma ZeroProduct(x: real, y: real)
    requires x * y == 0.0
    ensures x == 0.0 || y == 0.0
  {
  }

  /** Only the zero vector has a zero sum of squares. */
  lemma {:induction false} ZeroSumSquaresEntry(a: Vector, i: nat)
    requires i < |a| && SumSquares(a) == 0.0
    ensures a[i] == 0.0
  {
    NonNegativeSquare(a[0]);
    assert a[0] * a[0] == 0.0 && SumSquares(a[1..]) == 0.0;
    if i == 0 {
      ZeroProduct(a[0], a[0]);
    } else {
      ZeroSumSquaresEntry(a[1..], i - 1);
    }
  }

  lemma DivideSelf(x: real, y: real)
    requires x == y && y != 0.0
    ensures x / y == 1.0
  {
  }

  /** A non-zero vector scores exactly 1 against itself, given a square
      root that is one. */
  lemma CosineSelf(a: Vector, sqrt: real -> real, i: nat)
    requires forall x :: x >= 0.0 ==> sqrt(x) >= 0.0 && sqrt(x) * sqrt(x) == x
    requires i < |a| && a[i] != 0.0
    ensures Cosine(a, a, sqrt) == 1.0
  {
    DotSelf(a);
    var sum := SumSquares(a);
    if sum == 0.0 {
      ZeroSumSquaresEntry(a, i);
    }
    var norm := sqrt(sum);
    assert norm * norm == sum;
    DivideSelf(Dot(a, a), norm * norm);
  }
}
