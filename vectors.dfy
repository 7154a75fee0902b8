/** Three-dimensional vectors of the simulation, over exact reals.
    The Euclidean norm needs a square root, which Dafny's reals do not provide;
    it is therefore passed around as a function `norm` that is required to be
    the non-negative square root of the squared length (`IsNorm`). */
module Vectors {

  datatype Vec3 = Vec3(x: real, y: real, z: real)

  const Zero := Vec3(0.0, 0.0, 0.0)

  function Add(a: Vec3, b: Vec3): Vec3
  {
    Vec3(a.x + b.x, a.y + b.y, a.z + b.z)
  }

  function Sub(a: Vec3, b: Vec3): Vec3
  {
    Vec3(a.x - b.x, a.y - b.y, a.z - b.z)
  }

  /** `times`; scaling by 1 keeps a vector and scaling by 0 gives `Zero`. */
  function Scale(a: Vec3, s: real): (r: Vec3)
    ensures s == 1.0 ==> r == a
    ensures s == 0.0 ==> r == Zero
  {
    Vec3(a.x * s, a.y * s, a.z * s)
  }

  function Neg(a: Vec3): Vec3
  {
    Vec3(-a.x, -a.y, -a.z)
  }

  function SquaredLength(v: Vec3): real
  {
    v.x * v.x + v.y * v.y + v.z * v.z
  }

  /** `norm(v)` is the Euclidean length of `v`: non-negative, and its square is the squared length. */
  predicate NormAt(norm: Vec3 -> real, v: Vec3)
  {
    0.0 <= norm(v) && norm(v) * norm(v) == SquaredLength(v)
  }

  /** `norm` is the Euclidean length. */
  ghost predicate IsNorm(norm: Vec3 -> real)
  {
    forall v :: NormAt(norm, v)
  }

  /** The unit vector in the direction of `v`; undefined for the zero vector. */
  function Normalized(norm: Vec3 -> real, v: Vec3): Vec3
    requires norm(v) != 0.0
  {
    Scale(v, 1.0 / norm(v))
  }

  /** `minus` undoes `plus`, and `Zero` is neutral. */
  lemma AddSubInverse(a: Vec3, b: Vec3)
    ensures Sub(Add(a, b), b) == a && Sub(Add(a, b), a) == b
    ensures Add(a, Zero) == a
  {
  }

  /** The separation of two points is zero exactly when they coincide. */
  lemma SubZeroIff(a: Vec3, b: Vec3)
    ensures Sub(a, b) == Zero <==> a == b
  {
  }

  /** Scaling by `s` scales the squared length by `s * s`. */
  lemma ScaleSquaredLength(a: Vec3, s: real)
    ensures SquaredLength(Scale(a, s)) == s * s * SquaredLength(a)
  {
    var x, y, z := a.x, a.y, a.z;
    assert (x * s) * (x * s) == s * s * (x * x);
    assert (y * s) * (y * s) == s * s * (y * y);
    assert (z * s) * (z * s) == s * s * (z * z);
  }

  /** `normalized` has length 1. */
  lemma NormalizedIsUnit(norm: Vec3 -> real, v: Vec3)
    requires NormAt(norm, v) && norm(v) != 0.0
    ensures SquaredLength(Normalized(norm, v)) == 1.0
  {
    var n := norm(v);
    var k := 1.0 / n;
    ScaleSquaredLength(v, k);
    assert k * k * (n * n) == (k * n) * (k * n);
    assert k * n == 1.0;
  }

  lemma SquareMonotone(a: real, b: real)
    requires 0.0 <= a < b
    ensures a * a < b * b
  {
    var aa, ab, bb := a * a, a * b, b * b;
    assert aa <= ab;
    assert ab < bb;
  }

  lemma ScaleNeg(u: Vec3, k: real)
    ensures Scale(Neg(u), k) == Neg(Scale(u, k))
  {
  }

  /** Two non-negative reals with the same square are equal. */
  lemma SquareInjective(a: real, b: real)
    requires 0.0 <= a && 0.0 <= b && a * a == b * b
    ensures a == b
  {
    if a < b {
      SquareMonotone(a, b);
    } else if b < a {
      SquareMonotone(b, a);
    }
  }

  /** The length of a vector does not depend on its orientation. */
  lemma NormOfNeg(norm: Vec3 -> real, v: Vec3)
    requires IsNorm(norm)
    ensures norm(Neg(v)) == norm(v)
  {
    assert NormAt(norm, v) && NormAt(norm, Neg(v));
    assert SquaredLength(Neg(v)) == SquaredLength(v);
    SquareInjective(norm(Neg(v)), norm(v));
  }

  /** Only the zero vector has length zero; in particular the norm of `Zero` is 0. */
  lemma NormOfZero(norm: Vec3 -> real)
    requires IsNorm(norm)
    ensures norm(Zero) == 0.0
  {
    assert NormAt(norm, Zero);
    SquareInjective(norm(Zero), 0.0);
  }
}
