/** Exact-arithmetic stand-ins for the host library's point, vector and 2D point types
    (MPoint, MVector, Point2d) and the tolerance shared by the geometric tests. */
module Vectors {

  /** A 3D position or direction. */
  datatype Vec3 = Vec3(x: real, y: real, z: real)

  /** A point in a 2D projection plane. */
  datatype Point2d = Point2d(x: real, y: real)

  /** The tolerance used to compare coordinates and cosines (1e-5). */
  const EPSILON: real := 0.00001

  const Zero := Vec3(0.0, 0.0, 0.0)

  function Abs(r: real): real {
    if r < 0.0 then -r else r
  }

  function Add(a: Vec3, b: Vec3): Vec3 { Vec3(a.x + b.x, a.y + b.y, a.z + b.z) }

  function Sub(a: Vec3, b: Vec3): Vec3 { Vec3(a.x - b.x, a.y - b.y, a.z - b.z) }

  function Neg(a: Vec3): Vec3 { Vec3(-a.x, -a.y, -a.z) }

  function Scale(a: Vec3, k: real): Vec3 { Vec3(a.x * k, a.y * k, a.z * k) }

  /** Division of every component by a non-zero scalar (MVector's `/`). */
  function DivBy(a: Vec3, d: real): Vec3
    requires d != 0.0
  {
    Vec3(a.x / d, a.y / d, a.z / d)
  }

  function Dot(a: Vec3, b: Vec3): real { a.x * b.x + a.y * b.y + a.z * b.z }

  /** The cross product (MVector's `^`). */
  function Cross(a: Vec3, b: Vec3): Vec3 {
    Vec3(a.y * b.z - a.z * b.y, a.z * b.x - a.x * b.z, a.x * b.y - a.y * b.x)
  }

  /** The host's vector length. Its square root is not modelled: every operation that
      needs a length takes the length function as a parameter. */
  type Norm = Vec3 -> real

  /** `norm` is the Euclidean length at `v`. */
  ghost predicate EuclideanAt(norm: Norm, v: Vec3) {
    norm(v) >= 0.0 && norm(v) * norm(v) == Dot(v, v)
  }

  /** Two non-negative reals with equal squares are equal. */
  lemma SquareRootUnique(l: real, m: real)
    requires l >= 0.0 && m >= 0.0 && l * l == m * m
    ensures l == m
  {
    assert (l - m) * (l + m) == l * l - m * m;
    if l + m == 0.0 {
      assert l == 0.0 && m == 0.0;
    }
  }

  /** A Euclidean length gives a vector and its negation the same length. */
  lemma NormOfNegation(norm: Norm, v: Vec3)
    requires EuclideanAt(norm, v) && EuclideanAt(norm, Neg(v))
    ensures norm(Neg(v)) == norm(v)
  {
    assert Dot(Neg(v), Neg(v)) == Dot(v, v);
    SquareRootUnique(norm(Neg(v)), norm(v));
  }

  /** A Euclidean length of the zero vector is zero. */
  lemma NormOfZero(norm: Norm)
    requires EuclideanAt(norm, Zero)
    ensures norm(Zero) == 0.0
  {
    SquareRootUnique(norm(Zero), 0.0);
  }
}
