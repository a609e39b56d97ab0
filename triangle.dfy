/** Weighted vertices and weighted triangles (weightedMesh.cpp: `WeightedVertex`,
    `WeightedTriangle`). Vertices live in an arena (`seq<Vertex>`); a triangle refers to
    its three vertices by their indices in that arena. */
module Triangles {
  import opened Vectors
  import opened EdgeTest

  /** Exactly four weight channels, whatever the arity of the attribute they came from. */
  type Weights4 = s: seq<real> | |s| == 4 witness [0.0, 0.0, 0.0, 0.0]

  /** `WeightedVertex`: a world-space position and its four weight channels. */
  datatype Vertex = Vertex(position: Vec3, weights: Weights4)

  /** `WeightedVertex::equals_position`: every coordinate differs by less than EPSILON. */
  function EqualsPosition(v: Vertex, p: Vec3): (r: bool)
    ensures r ==> Abs(p.x - v.position.x) < EPSILON
    ensures r ==> Abs(p.y - v.position.y) < EPSILON
    ensures r ==> Abs(p.z - v.position.z) < EPSILON
  {
    var delta := Sub(p, v.position);
    Abs(delta.x) < EPSILON && Abs(delta.y) < EPSILON && Abs(delta.z) < EPSILON
  }

  /** A vertex matches its own position, and the tolerance test is symmetric. */
  lemma EqualsPositionReflexiveSymmetric(v: Vertex, w: Vertex)
    ensures EqualsPosition(v, v.position)
    ensures EqualsPosition(v, w.position) == EqualsPosition(w, v.position)
  {
  }

  /** `WeightedVertex::copy_weights`: copies the four channels into caller storage. */
  method CopyWeights(v: Vertex, out: array<real>)
    requires out.Length == 4
    modifies out
    ensures out[..] == v.weights
  {
    out[0] := v.weights[0];
    out[1] := v.weights[1];
    out[2] := v.weights[2];
    out[3] := v.weights[3];
  }

  /** `MajorAxis`: the coordinate axis a triangle is projected along. */
  datatype Axis = XAxis | YAxis | ZAxis

  function Component(v: Vec3, a: Axis): real {
    match a
    case XAxis => v.x
    case YAxis => v.y
    case ZAxis => v.z
  }

  /** The major axis of a normal, as chosen at weightedMesh.cpp:367-385: X only when its
      magnitude beats both others strictly, else Y when it beats Z strictly, else Z (so
      full ties go to Z). The chosen component always has the largest magnitude. */
  function MajorAxisOf(n: Vec3): (a: Axis)
  {
    var ax, ay, az := Abs(n.x), Abs(n.y), Abs(n.z);
    if ax > ay then
      if ax > az then XAxis
      else if ay > az then YAxis
      else ZAxis
    else
      if ay > az then YAxis
      else ZAxis
  }

  /** The chosen axis is X exactly when |x| beats both others, Y exactly when X is not
      chosen and |y| beats |z|; its component has the largest magnitude of the three. */
  lemma MajorAxisIsLargest(n: Vec3)
    ensures var a := MajorAxisOf(n);
      && (a == XAxis <==> Abs(n.x) > Abs(n.y) && Abs(n.x) > Abs(n.z))
      && (a == YAxis <==> !(Abs(n.x) > Abs(n.y) && Abs(n.x) > Abs(n.z)) && Abs(n.y) > Abs(n.z))
      && forall b :: Abs(Component(n, a)) >= Abs(Component(n, b))
  {
  }

  lemma AbsDiv(r: real, d: real)
    requires d > 0.0
    ensures Abs(r / d) == Abs(r) / d
  {
    if r < 0.0 {
      assert r / d < 0.0;
      assert -(r / d) == (-r) / d;
    } else {
      assert r / d >= 0.0;
    }
  }

  lemma DivMonotone(a: real, b: real, d: real)
    requires d > 0.0
    ensures a / d > b / d <==> a > b
  {
    assert a / d - b / d == (a - b) / d;
    DivSign(a - b, d);
    DivSign(b - a, d);
    assert (b - a) / d == -((a - b) / d);
  }

  /** Dividing the normal by a positive length (its normalisation at
      weightedMesh.cpp:361) does not change the major axis. */
  lemma MajorAxisScaleInvariant(n: Vec3, d: real)
    requires d > 0.0
    ensures MajorAxisOf(DivBy(n, d)) == MajorAxisOf(n)
  {
    AbsDiv(n.x, d);
    AbsDiv(n.y, d);
    AbsDiv(n.z, d);
    DivMonotone(Abs(n.x), Abs(n.y), d);
    DivMonotone(Abs(n.x), Abs(n.z), d);
    DivMonotone(Abs(n.y), Abs(n.z), d);
  }

  /** `WeightedTriangle::project_to_2d`: drop the major-axis coordinate. */
  function ProjectTo2d(a: Axis, p: Vec3): Point2d {
    match a
    case XAxis => Point2d(p.y, p.z)
    case YAxis => Point2d(p.x, p.z)
    case ZAxis => Point2d(p.x, p.y)
  }

  /** Two points project to the same 2D point exactly when they agree on every
      coordinate other than the major axis: projection drops that coordinate and no other. */
  lemma ProjectionDropsOnlyMajorAxis(a: Axis, p: Vec3, q: Vec3)
    ensures ProjectTo2d(a, p) == ProjectTo2d(a, q) <==>
      forall b :: b != a ==> Component(p, b) == Component(q, b)
  {
    if ProjectTo2d(a, p) != ProjectTo2d(a, q) {
      match a
      case XAxis =>
        assert Component(p, YAxis) != Component(q, YAxis) || Component(p, ZAxis) != Component(q, ZAxis);
      case YAxis =>
        assert Component(p, XAxis) != Component(q, XAxis) || Component(p, ZAxis) != Component(q, ZAxis);
      case ZAxis =>
        assert Component(p, XAxis) != Component(q, XAxis) || Component(p, YAxis) != Component(q, YAxis);
    }
  }

  /** `a - s` in the projection plane: the translation at weightedMesh.cpp:415-417. */
  function Translate(a: Point2d, s: Point2d): Point2d {
    Point2d(a.x - s.x, a.y - s.y)
  }

  /** `WeightedTriangle` after `set_vertices`: arena indices of its vertices and the
      derived centroid, unit normal, major axis, doubled area and 2D projections. */
  datatype Triangle = Triangle(
    v0: nat, v1: nat, v2: nat,
    centroid: Vec3, normal: Vec3, axis: Axis, areaTimes2: real,
    v0Proj: Point2d, v1Proj: Point2d, v2Proj: Point2d)
  {
    /** The vertex indices are inside an arena of `n` vertices and the area is positive. */
    predicate InArena(n: nat) {
      v0 < n && v1 < n && v2 < n && areaTimes2 > 0.0
    }
  }

  /** The un-normalised normal `(p1 - p0) ^ (p2 - p0)`. */
  function RawNormal(p0: Vec3, p1: Vec3, p2: Vec3): Vec3 {
    Cross(Sub(p1, p0), Sub(p2, p0))
  }

  /** The triangle on arena vertices `i0, i1, i2` has a positive doubled area, so the
      divisions by it at weightedMesh.cpp:361 and 470-484 are defined. */
  predicate NonDegenerate(arena: seq<Vertex>, i0: nat, i1: nat, i2: nat, norm: Norm)
    requires i0 < |arena| && i1 < |arena| && i2 < |arena|
  {
    norm(RawNormal(arena[i0].position, arena[i1].position, arena[i2].position)) > 0.0
  }

  /** `WeightedTriangle::set_vertices`: the triangle keeps the three vertex indices;
      its derived fields are described by SetVerticesGeometry and SetVerticesNormal. */
  function SetVertices(arena: seq<Vertex>, i0: nat, i1: nat, i2: nat, norm: Norm): (t: Triangle)
    requires i0 < |arena| && i1 < |arena| && i2 < |arena|
    requires NonDegenerate(arena, i0, i1, i2, norm)
    ensures t.InArena(|arena|) && t.v0 == i0 && t.v1 == i1 && t.v2 == i2
  {
    var p0, p1, p2 := arena[i0].position, arena[i1].position, arena[i2].position;
    var centroid := DivBy(Add(Add(Add(Zero, p0), p1), p2), 3.0);
    var raw := Cross(Sub(p1, p0), Sub(p2, p0));
    var area := norm(raw);
    var normal := DivBy(raw, area);
    var axis := MajorAxisOf(normal);
    Triangle(i0, i1, i2, centroid, normal, axis, area,
             ProjectTo2d(axis, p0), ProjectTo2d(axis, p1), ProjectTo2d(axis, p2))
  }

  /** The projection axis, doubled area, centroid and projected corners that
      `set_vertices` stores, in terms of the corner positions: the axis is the major
      axis of the raw cross product although it is taken from the normalised one. */
  lemma SetVerticesGeometry(arena: seq<Vertex>, i0: nat, i1: nat, i2: nat, norm: Norm)
    requires i0 < |arena| && i1 < |arena| && i2 < |arena|
    requires NonDegenerate(arena, i0, i1, i2, norm)
    ensures var t := SetVertices(arena, i0, i1, i2, norm);
      var p0, p1, p2 := arena[i0].position, arena[i1].position, arena[i2].position;
      && t.axis == MajorAxisOf(RawNormal(p0, p1, p2))
      && t.areaTimes2 == norm(RawNormal(p0, p1, p2))
      && Scale(t.centroid, 3.0) == Add(Add(p0, p1), p2)
      && t.v0Proj == ProjectTo2d(t.axis, p0)
      && t.v1Proj == ProjectTo2d(t.axis, p1)
      && t.v2Proj == ProjectTo2d(t.axis, p2)
  {
    var p0, p1, p2 := arena[i0].position, arena[i1].position, arena[i2].position;
    var raw := RawNormal(p0, p1, p2);
    MajorAxisScaleInvariant(raw, norm(raw));
  }

  /** The stored unit normal times the doubled area gives back the cross product. */
  lemma SetVerticesNormal(arena: seq<Vertex>, i0: nat, i1: nat, i2: nat, norm: Norm)
    requires i0 < |arena| && i1 < |arena| && i2 < |arena|
    requires NonDegenerate(arena, i0, i1, i2, norm)
    ensures var t := SetVertices(arena, i0, i1, i2, norm);
      Scale(t.normal, t.areaTimes2) == RawNormal(arena[i0].position, arena[i1].position, arena[i2].position)
  {
    var t := SetVertices(arena, i0, i1, i2, norm);
    ScaleDivBy(RawNormal(arena[i0].position, arena[i1].position, arena[i2].position), t.areaTimes2);
  }

  lemma ScaleDivBy(v: Vec3, d: real)
    requires d != 0.0
    ensures Scale(DivBy(v, d), d) == v
  {
    assert (v.x / d) * d == v.x;
    assert (v.y / d) * d == v.y;
    assert (v.z / d) * d == v.z;
  }

  /** `MVector::normalize`: a zero-length vector is left as it is. */
  function Normalize(v: Vec3, norm: Norm): Vec3 {
    if norm(v) == 0.0 then v else DivBy(v, norm(v))
  }

  /** `WeightedTriangle::point_is_on_plane`: the direction from the centroid to the point
      is within EPSILON (as a cosine) of orthogonal to the normal. */
  predicate PointIsOnPlane(t: Triangle, p: Vec3, norm: Norm) {
    var direction := Normalize(Sub(p, t.centroid), norm);
    Abs(Dot(direction, t.normal)) < EPSILON
  }

  /** `WeightedTriangle::point_is_inside`: false off the plane; otherwise the point is
      inside exactly when an odd number of the translated projected edges cross the
      positive X half-axis. */
  function PointIsInside(t: Triangle, p: Vec3, norm: Norm): (r: bool)
    ensures !PointIsOnPlane(t, p, norm) ==> !r
  {
    if !PointIsOnPlane(t, p, norm) then
      false
    else
      CrossingsFrom(t, p) % 2 == 1
  }

  /** The number of edges of the projected triangle, translated so that the projection
      of `p` is the origin, that cross the positive X half-axis. */
  function CrossingsFrom(t: Triangle, p: Vec3): nat {
    var s := ProjectTo2d(t.axis, p);
    CrossingCount(Translate(t.v0Proj, s), Translate(t.v1Proj, s), Translate(t.v2Proj, s))
  }

  /** `WeightedTriangle::get_bary_coords`: the sub-triangle areas opposite v0 and v1 over
      the doubled area, and for the third coordinate either `1 - (y + x)` (normalised) or
      the area opposite v2 over the doubled area. Normalised coordinates sum to exactly 1. */
  function BaryCoords(t: Triangle, arena: seq<Vertex>, p: Vec3, normalized: bool, norm: Norm): (b: Vec3)
    requires t.InArena(|arena|)
    ensures normalized ==> b.x + b.y + b.z == 1.0
  {
    var e0 := Sub(arena[t.v0].position, p);
    var e1 := Sub(arena[t.v1].position, p);
    var e2 := Sub(arena[t.v2].position, p);
    var x := norm(Cross(e2, e1)) / t.areaTimes2;
    var y := norm(Cross(e0, e2)) / t.areaTimes2;
    if normalized then
      Vec3(x, y, 1.0 - (y + x))
    else
      Vec3(x, y, norm(Cross(e0, e1)) / t.areaTimes2)
  }

  /** `WeightedTriangle::point_is_inside_bary`: the raw coordinates sum to 1 within EPSILON. */
  predicate PointIsInsideBary(t: Triangle, arena: seq<Vertex>, p: Vec3, norm: Norm)
    requires t.InArena(|arena|)
  {
    var b := BaryCoords(t, arena, p, false, norm);
    Abs(1.0 - (b.x + b.y + b.z)) < EPSILON
  }

  /** The blend written by `sample_weights`: channel i is `w0[i]*b.x + w1[i]*b.y + w2[i]*b.z`.
      With coordinates that sum to 1, a channel value the three weights share is kept. */
  function Blend(w0: Weights4, w1: Weights4, w2: Weights4, b: Vec3): (r: Weights4)
    ensures b.x + b.y + b.z == 1.0 ==>
      forall i :: 0 <= i < 4 && w0[i] == w1[i] == w2[i] ==> r[i] == w0[i]
  {
    seq(4, i requires 0 <= i < 4 => w0[i] * b.x + w1[i] * b.y + w2[i] * b.z)
  }

  /** The weights `sample_weights` produces for `p`. */
  function SampledWeights(t: Triangle, arena: seq<Vertex>, p: Vec3, norm: Norm): Weights4
    requires t.InArena(|arena|)
  {
    Blend(arena[t.v0].weights, arena[t.v1].weights, arena[t.v2].weights,
          BaryCoords(t, arena, p, true, norm))
  }

  /** `WeightedTriangle::sample_weights`: the channel loop at weightedMesh.cpp:398-404. */
  method SampleWeights(t: Triangle, arena: seq<Vertex>, p: Vec3, norm: Norm, out: array<real>)
    requires t.InArena(|arena|)
    requires out.Length == 4
    modifies out
    ensures out[..] == SampledWeights(t, arena, p, norm)
  {
    var bary := BaryCoords(t, arena, p, true, norm);
    var a, b, c := arena[t.v0].weights, arena[t.v1].weights, arena[t.v2].weights;
    for i := 0 to 4
      invariant forall k :: 0 <= k < i ==> out[k] == a[k] * bary.x + b[k] * bary.y + c[k] * bary.z
    {
      var w0 := a[i] * bary.x;
      var w1 := b[i] * bary.y;
      var w2 := c[i] * bary.z;
      out[i] := w0 + w1 + w2;
    }
    assert forall k :: 0 <= k < 4 ==> out[..][k] == SampledWeights(t, arena, p, norm)[k];
  }

  /** A channel value shared by all three vertices is reproduced exactly at every point,
      because the normalised coordinates sum to 1. */
  lemma SampleReproducesSharedChannel(t: Triangle, arena: seq<Vertex>, p: Vec3, norm: Norm, i: nat)
    requires t.InArena(|arena|) && i < 4
    requires arena[t.v0].weights[i] == arena[t.v1].weights[i] == arena[t.v2].weights[i]
    ensures SampledWeights(t, arena, p, norm)[i] == arena[t.v0].weights[i]
  {
    var b := BaryCoords(t, arena, p, true, norm);
    var c := arena[t.v0].weights[i];
    assert c * b.x + c * b.y + c * b.z == c * (b.x + b.y + b.z);
  }

  /** The length facts about the triangle on `p0, p1, p2` that its own vertices need:
      the length of the zero vector and of its raw normal and the negation. */
  ghost predicate LengthsAtVertices(norm: Norm, p0: Vec3, p1: Vec3, p2: Vec3) {
    EuclideanAt(norm, Zero)
    && EuclideanAt(norm, RawNormal(p0, p1, p2))
    && EuclideanAt(norm, Neg(RawNormal(p0, p1, p2)))
  }

  lemma DivSelf(a: real)
    requires a > 0.0
    ensures a / a == 1.0
  {
  }

  /** The raw barycentric coordinates of the triangle's first vertex are (1, 0, 0). */
  lemma BaryAtVertex0(arena: seq<Vertex>, i0: nat, i1: nat, i2: nat, norm: Norm)
    requires i0 < |arena| && i1 < |arena| && i2 < |arena|
    requires NonDegenerate(arena, i0, i1, i2, norm)
    requires LengthsAtVertices(norm, arena[i0].position, arena[i1].position, arena[i2].position)
    ensures BaryCoords(SetVertices(arena, i0, i1, i2, norm), arena, arena[i0].position, false, norm)
      == Vec3(1.0, 0.0, 0.0)
  {
    var p0, p1, p2 := arena[i0].position, arena[i1].position, arena[i2].position;
    var raw := RawNormal(p0, p1, p2);
    NormOfZero(norm);
    NormOfNegation(norm, raw);
    var u, w := Sub(p1, p0), Sub(p2, p0);
    assert Sub(p0, p0) == Zero;
    assert Cross(Zero, w) == Zero && Cross(Zero, u) == Zero;
    assert Cross(w, u) == Neg(raw);
    var area := norm(raw);
    DivSelf(area);
  }

  /** The raw barycentric coordinates of the triangle's second vertex are (0, 1, 0). */
  lemma BaryAtVertex1(arena: seq<Vertex>, i0: nat, i1: nat, i2: nat, norm: Norm)
    requires i0 < |arena| && i1 < |arena| && i2 < |arena|
    requires NonDegenerate(arena, i0, i1, i2, norm)
    requires LengthsAtVertices(norm, arena[i0].position, arena[i1].position, arena[i2].position)
    ensures BaryCoords(SetVertices(arena, i0, i1, i2, norm), arena, arena[i1].position, false, norm)
      == Vec3(0.0, 1.0, 0.0)
  {
    var p0, p1, p2 := arena[i0].position, arena[i1].position, arena[i2].position;
    var raw := RawNormal(p0, p1, p2);
    NormOfZero(norm);
    NormOfNegation(norm, raw);
    assert Sub(p1, p1) == Zero;
    var a, c := Sub(p0, p1), Sub(p2, p1);
    assert Cross(c, Zero) == Zero && Cross(a, Zero) == Zero;
    assert Cross(a, c).x == Neg(raw).x;
    assert Cross(a, c).y == Neg(raw).y;
    assert Cross(a, c).z == Neg(raw).z;
    assert Cross(a, c) == Neg(raw);
    var area := norm(raw);
    DivSelf(area);
  }

  /** The raw barycentric coordinates of the triangle's third vertex are (0, 0, 1). */
  lemma BaryAtVertex2(arena: seq<Vertex>, i0: nat, i1: nat, i2: nat, norm: Norm)
    requires i0 < |arena| && i1 < |arena| && i2 < |arena|
    requires NonDegenerate(arena, i0, i1, i2, norm)
    requires LengthsAtVertices(norm, arena[i0].position, arena[i1].position, arena[i2].position)
    ensures BaryCoords(SetVertices(arena, i0, i1, i2, norm), arena, arena[i2].position, false, norm)
      == Vec3(0.0, 0.0, 1.0)
  {
    var p0, p1, p2 := arena[i0].position, arena[i1].position, arena[i2].position;
    var raw := RawNormal(p0, p1, p2);
    NormOfZero(norm);
    assert Sub(p2, p2) == Zero;
    var f, g := Sub(p0, p2), Sub(p1, p2);
    assert Cross(Zero, g) == Zero && Cross(f, Zero) == Zero;
    assert Cross(f, g).x == raw.x;
    assert Cross(f, g).y == raw.y;
    assert Cross(f, g).z == raw.z;
    assert Cross(f, g) == raw;
    var area := norm(raw);
    DivSelf(area);
  }

  /** The normalised coordinates share the raw ones' first two components. */
  lemma NormalizedFromRaw(t: Triangle, arena: seq<Vertex>, p: Vec3, norm: Norm)
    requires t.InArena(|arena|)
    ensures var r, n := BaryCoords(t, arena, p, false, norm), BaryCoords(t, arena, p, true, norm);
      n == Vec3(r.x, r.y, 1.0 - (r.y + r.x))
  {
  }

  /** At each of its own vertices a triangle's raw barycentric coordinates are the
      corresponding unit vector, so the barycentric test accepts the vertex and sampling
      there reproduces that vertex's weights. */
  lemma {:induction false} OwnVerticesByBarycentrics(arena: seq<Vertex>, i0: nat, i1: nat, i2: nat, norm: Norm)
    requires i0 < |arena| && i1 < |arena| && i2 < |arena|
    requires NonDegenerate(arena, i0, i1, i2, norm)
    requires LengthsAtVertices(norm, arena[i0].position, arena[i1].position, arena[i2].position)
    ensures var t := SetVertices(arena, i0, i1, i2, norm);
      && PointIsInsideBary(t, arena, arena[i0].position, norm)
      && PointIsInsideBary(t, arena, arena[i1].position, norm)
      && PointIsInsideBary(t, arena, arena[i2].position, norm)
      && SampledWeights(t, arena, arena[i0].position, norm) == arena[i0].weights
      && SampledWeights(t, arena, arena[i1].position, norm) == arena[i1].weights
      && SampledWeights(t, arena, arena[i2].position, norm) == arena[i2].weights
  {
    var t := SetVertices(arena, i0, i1, i2, norm);
    var p0, p1, p2 := arena[i0].position, arena[i1].position, arena[i2].position;
    BaryAtVertex0(arena, i0, i1, i2, norm);
    BaryAtVertex1(arena, i0, i1, i2, norm);
    BaryAtVertex2(arena, i0, i1, i2, norm);
    NormalizedFromRaw(t, arena, p0, norm);
    NormalizedFromRaw(t, arena, p1, norm);
    NormalizedFromRaw(t, arena, p2, norm);
    BlendAtUnit(arena[i0].weights, arena[i1].weights, arena[i2].weights);
  }

  /** Blending with a unit coordinate vector selects that vertex's weights. */
  lemma BlendAtUnit(w0: Weights4, w1: Weights4, w2: Weights4)
    ensures Blend(w0, w1, w2, Vec3(1.0, 0.0, 0.0)) == w0
    ensures Blend(w0, w1, w2, Vec3(0.0, 1.0, 0.0)) == w1
    ensures Blend(w0, w1, w2, Vec3(0.0, 0.0, 1.0)) == w2
  {
    assert forall i :: 0 <= i < 4 ==> Blend(w0, w1, w2, Vec3(1.0, 0.0, 0.0))[i] == w0[i];
    assert forall i :: 0 <= i < 4 ==> Blend(w0, w1, w2, Vec3(0.0, 1.0, 0.0))[i] == w1[i];
    assert forall i :: 0 <= i < 4 ==> Blend(w0, w1, w2, Vec3(0.0, 0.0, 1.0))[i] == w2[i];
  }

  /** The projected triangle's doubled signed area is the raw normal's major-axis
      component (negated for the Y projection, whose 2D axes are (x, z)). */
  lemma ProjectedArea(a: Axis, p0: Vec3, p1: Vec3, p2: Vec3)
    ensures Cross2(Translate(ProjectTo2d(a, p1), ProjectTo2d(a, p0)),
                   Translate(ProjectTo2d(a, p2), ProjectTo2d(a, p0)))
      == (if a == YAxis then -1.0 else 1.0) * Component(RawNormal(p0, p1, p2), a)
  {
  }

  /** A Euclidean length is positive only on a vector with some non-zero component along
      the major axis. */
  lemma MajorComponentNonZero(norm: Norm, n: Vec3)
    requires EuclideanAt(norm, n) && norm(n) > 0.0
    ensures Component(n, MajorAxisOf(n)) != 0.0
  {
    var a := MajorAxisOf(n);
    assert Abs(Component(n, a)) >= Abs(n.x) by { assert Abs(Component(n, a)) >= Abs(Component(n, XAxis)); }
    assert Abs(Component(n, a)) >= Abs(n.y) by { assert Abs(Component(n, a)) >= Abs(Component(n, YAxis)); }
    assert Abs(Component(n, a)) >= Abs(n.z) by { assert Abs(Component(n, a)) >= Abs(Component(n, ZAxis)); }
    if Component(n, a) == 0.0 {
      assert n == Zero;
      SquareRootUnique(norm(n), 0.0);
    }
  }

  /** A triangle built by `set_vertices` contains its own centroid by the fast test:
      the centroid is on the plane, and after translation the three projected vertices
      sum to zero and span a non-zero area, so exactly one edge crosses. */
  lemma {:induction false} CentroidIsInside(arena: seq<Vertex>, i0: nat, i1: nat, i2: nat, norm: Norm)
    requires i0 < |arena| && i1 < |arena| && i2 < |arena|
    requires NonDegenerate(arena, i0, i1, i2, norm)
    requires EuclideanAt(norm, RawNormal(arena[i0].position, arena[i1].position, arena[i2].position))
    ensures var t := SetVertices(arena, i0, i1, i2, norm); PointIsInside(t, t.centroid, norm)
  {
    var t := SetVertices(arena, i0, i1, i2, norm);
    var p0, p1, p2 := arena[i0].position, arena[i1].position, arena[i2].position;
    SetVerticesGeometry(arena, i0, i1, i2, norm);
    var c := t.centroid;
    assert Sub(c, c) == Zero;
    assert Normalize(Zero, norm) == Zero;
    assert PointIsOnPlane(t, c, norm);
    var s := ProjectTo2d(t.axis, c);
    CentroidProjection(t.axis, p0, p1, p2, c);
    MajorComponentNonZero(norm, RawNormal(p0, p1, p2));
    CentroidCrossesOnce(Translate(t.v0Proj, s), Translate(t.v1Proj, s), Translate(t.v2Proj, s));
  }

  /** Seen from the centroid `c`, the projected vertices sum to zero, and the doubled
      signed area they span is (up to sign) the raw normal's component on the dropped
      axis. */
  lemma CentroidProjection(a: Axis, p0: Vec3, p1: Vec3, p2: Vec3, c: Vec3)
    requires Scale(c, 3.0) == Add(Add(p0, p1), p2)
    ensures var s := ProjectTo2d(a, c);
      var q0, q1, q2 := Translate(ProjectTo2d(a, p0), s), Translate(ProjectTo2d(a, p1), s), Translate(ProjectTo2d(a, p2), s);
      && q0.x + q1.x + q2.x == 0.0 && q0.y + q1.y + q2.y == 0.0
      && Cross2(Point2d(q1.x - q0.x, q1.y - q0.y), Point2d(q2.x - q0.x, q2.y - q0.y))
         == (if a == YAxis then -1.0 else 1.0) * Component(RawNormal(p0, p1, p2), a)
  {
    var s := ProjectTo2d(a, c);
    var q0, q1, q2 := Translate(ProjectTo2d(a, p0), s), Translate(ProjectTo2d(a, p1), s), Translate(ProjectTo2d(a, p2), s);
    ProjectedArea(a, p0, p1, p2);
    assert Point2d(q1.x - q0.x, q1.y - q0.y) == Translate(ProjectTo2d(a, p1), ProjectTo2d(a, p0));
    assert Point2d(q2.x - q0.x, q2.y - q0.y) == Translate(ProjectTo2d(a, p2), ProjectTo2d(a, p0));
  }

  /** The fast test need not accept a triangle's own vertex. For the arena
      (0,0,0), (1,1,0), (-1,1,0) the major axis is Z (ExampleMajorAxis), so by
      SetVerticesGeometry `set_vertices` stores the projections (0,0), (1,1), (-1,1); seen from the first vertex every
      translated edge then lies on the upper side of the X-axis and none crosses. The
      barycentric fallback accepts every own vertex: OwnVerticesByBarycentrics. */
  lemma FastTestCanMissOwnVertex(t: Triangle, norm: Norm)
    requires t.axis == ZAxis
    requires t.v0Proj == Point2d(0.0, 0.0) && t.v1Proj == Point2d(1.0, 1.0) && t.v2Proj == Point2d(-1.0, 1.0)
    ensures CrossingsFrom(t, Vec3(0.0, 0.0, 0.0)) == 0
    ensures !PointIsInside(t, Vec3(0.0, 0.0, 0.0), norm)
  {
    var s := ProjectTo2d(t.axis, Vec3(0.0, 0.0, 0.0));
    assert s == Point2d(0.0, 0.0);
    assert Translate(t.v1Proj, s) == t.v1Proj;
    assert Translate(t.v2Proj, s) == t.v2Proj;
    NoCrossingAbove();
    EvenCrossingsRejected(t, Vec3(0.0, 0.0, 0.0), norm);
  }

  /** The arena (0,0,0), (1,1,0), (-1,1,0). */
  predicate ExampleArena(arena: seq<Vertex>) {
    && |arena| == 3
    && arena[0].position == Vec3(0.0, 0.0, 0.0)
    && arena[1].position == Vec3(1.0, 1.0, 0.0)
    && arena[2].position == Vec3(-1.0, 1.0, 0.0)
  }

  /** The example's raw normal is (0, 0, 2). */
  lemma ExampleRawNormal(arena: seq<Vertex>)
    requires ExampleArena(arena)
    ensures RawNormal(arena[0].position, arena[1].position, arena[2].position) == Vec3(0.0, 0.0, 2.0)
  {
    var p0, p1, p2 := arena[0].position, arena[1].position, arena[2].position;
    assert Sub(p1, p0) == Vec3(1.0, 1.0, 0.0);
    assert Sub(p2, p0) == Vec3(-1.0, 1.0, 0.0);
  }

  lemma ExampleMajorAxis(arena: seq<Vertex>)
    requires ExampleArena(arena)
    ensures MajorAxisOf(RawNormal(arena[0].position, arena[1].position, arena[2].position)) == ZAxis
  {
    ExampleRawNormal(arena);
    UpwardNormalAxis();
  }

  lemma UpwardNormalAxis()
    ensures MajorAxisOf(Vec3(0.0, 0.0, 2.0)) == ZAxis
  {
  }

  /** The example triangle has twice-area 2 under a Euclidean length. */
  lemma ExampleIsNonDegenerate(arena: seq<Vertex>, norm: Norm)
    requires ExampleArena(arena)
    requires EuclideanAt(norm, Vec3(0.0, 0.0, 2.0))
    ensures NonDegenerate(arena, 0, 1, 2, norm)
  {
    var v := Vec3(0.0, 0.0, 2.0);
    assert Dot(v, v) == 4.0;
    SquareRootUnique(norm(v), 2.0);
    ExampleRawNormal(arena);
  }

  /** An even crossing count (none or two) rejects the point whatever the plane test says. */
  lemma EvenCrossingsRejected(t: Triangle, p: Vec3, norm: Norm)
    requires CrossingsFrom(t, p) == 0 || CrossingsFrom(t, p) == 2
    ensures !PointIsInside(t, p, norm)
  {
  }

  lemma NoCrossingAbove()
    ensures CrossingCount(Point2d(0.0, 0.0), Point2d(1.0, 1.0), Point2d(-1.0, 1.0)) == 0
  {
  }
}
