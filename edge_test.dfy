/** The crossing decision of the fast point-in-triangle test: does a 2D segment cross
    the positive X half-axis? (weightedMesh.cpp, `edge_crosses_x_axis`, `simple_sign`.) */
module EdgeTest {
  import opened Vectors

  /** `simple_sign`: true for zero and positive numbers. */
  predicate SimpleSign(n: real) {
    n >= 0.0
  }

  /** `edge_crosses_x_axis`, case by case in the source's order. The division is only
      reached when the two `y` signs differ, so its denominator is never zero. */
  function EdgeCrossesXAxis(p0: Point2d, p1: Point2d): (r: bool)
    ensures p0.y == 0.0 && p1.y == 0.0 ==> (r <==> p0.x > 0.0 || p1.x > 0.0)
    ensures !(p0.y == 0.0 && p1.y == 0.0) && SimpleSign(p0.y) == SimpleSign(p1.y) ==> !r
  {
    if p0.y == 0.0 && p1.y == 0.0 then
      p0.x > 0.0 || p1.x > 0.0
    else if SimpleSign(p0.y) == SimpleSign(p1.y) then
      false
    else if SimpleSign(p0.x) && SimpleSign(p1.x) then
      true
    else if !SimpleSign(p0.x) && !SimpleSign(p1.x) then
      false
    else
      var invSlope := (p1.x - p0.x) / (p1.y - p0.y);
      var xInt := p0.x - invSlope * p0.y;
      SimpleSign(xInt)
  }

  /** Reference definition: the x-coordinate where the line through `p0` and `p1` meets
      the X-axis, in the form that treats both endpoints alike. */
  function XIntercept(p0: Point2d, p1: Point2d): real
    requires p0.y != p1.y
  {
    (p0.x * p1.y - p1.x * p0.y) / (p1.y - p0.y)
  }

  /** Reference definition of a crossing for an edge that does not lie on the X-axis:
      the endpoints are on opposite sides (a zero `y` counting as the upper side) and the
      line meets the axis at a non-negative x. */
  predicate StraddlesAtNonNegativeX(p0: Point2d, p1: Point2d) {
    SimpleSign(p0.y) != SimpleSign(p1.y) && XIntercept(p0, p1) >= 0.0
  }

  lemma DivSign(n: real, d: real)
    requires d != 0.0
    ensures n / d >= 0.0 <==> (d > 0.0 && n >= 0.0) || (d < 0.0 && n <= 0.0)
  {
    var q := n / d;
    assert q * d == n;
    if d > 0.0 {
      if q < 0.0 { assert q * d < 0.0; }
      if n < 0.0 { assert q < 0.0; }
    } else {
      if q < 0.0 { assert q * d > 0.0; }
      if n > 0.0 { assert q * d > 0.0; assert q < 0.0; }
    }
  }

  /** The source's x-intercept `p0.x - inv_slope * p0.y` equals the reference intercept. */
  lemma InterceptForms(p0: Point2d, p1: Point2d)
    requires p0.y != p1.y
    ensures p0.x - ((p1.x - p0.x) / (p1.y - p0.y)) * p0.y == XIntercept(p0, p1)
  {
    var d := p1.y - p0.y;
    var s := (p1.x - p0.x) / d;
    assert s * d == p1.x - p0.x;
    var lhs := p0.x - s * p0.y;
    assert lhs * d == p0.x * d - (s * d) * p0.y;
    assert lhs * d == p0.x * p1.y - p1.x * p0.y;
    assert XIntercept(p0, p1) * d == p0.x * p1.y - p1.x * p0.y;
  }

  /** The early exits at weightedMesh.cpp:17-24 agree with the intercept test, so the
      whole decision procedure is the reference crossing rule. */
  lemma {:induction false} EdgeCrossingIsInterceptTest(p0: Point2d, p1: Point2d)
    requires !(p0.y == 0.0 && p1.y == 0.0)
    ensures EdgeCrossesXAxis(p0, p1) == StraddlesAtNonNegativeX(p0, p1)
  {
    if SimpleSign(p0.y) != SimpleSign(p1.y) {
      var num := p0.x * p1.y - p1.x * p0.y;
      var d := p1.y - p0.y;
      DivSign(num, d);
      InterceptForms(p0, p1);
      if SimpleSign(p0.y) {
        // p0 above (or on), p1 strictly below: d < 0
        if SimpleSign(p0.x) && SimpleSign(p1.x) {
          assert p0.x * p1.y <= 0.0;
          assert p1.x * p0.y >= 0.0;
        } else if !SimpleSign(p0.x) && !SimpleSign(p1.x) {
          assert p0.x * p1.y > 0.0;
          assert p1.x * p0.y <= 0.0;
        }
      } else {
        // p0 strictly below, p1 above (or on): d > 0
        if SimpleSign(p0.x) && SimpleSign(p1.x) {
          assert p0.x * p1.y >= 0.0;
          assert p1.x * p0.y <= 0.0;
        } else if !SimpleSign(p0.x) && !SimpleSign(p1.x) {
          assert p0.x * p1.y <= 0.0;
          assert p1.x * p0.y > 0.0;
        }
      }
    }
  }

  /** The order of an edge's endpoints does not matter, so testing the edge (v0, v2)
      rather than (v2, v0) in the triangle test changes nothing. */
  lemma {:induction false} EdgeCrossingSymmetric(p0: Point2d, p1: Point2d)
    ensures EdgeCrossesXAxis(p0, p1) == EdgeCrossesXAxis(p1, p0)
  {
    if !(p0.y == 0.0 && p1.y == 0.0) {
      EdgeCrossingIsInterceptTest(p0, p1);
      EdgeCrossingIsInterceptTest(p1, p0);
      if p0.y != p1.y {
        var d := p1.y - p0.y;
        var num := p0.x * p1.y - p1.x * p0.y;
        assert XIntercept(p1, p0) * (-d) == -num;
        assert XIntercept(p0, p1) * d == num;
        assert XIntercept(p1, p0) == XIntercept(p0, p1);
      }
    }
  }

  /** The number of the three edges (a0, a1), (a1, a2), (a0, a2) of a translated 2D
      triangle that cross the positive X half-axis (weightedMesh.cpp:420-426). */
  function CrossingCount(a0: Point2d, a1: Point2d, a2: Point2d): nat {
    (if EdgeCrossesXAxis(a0, a1) then 1 else 0)
    + (if EdgeCrossesXAxis(a1, a2) then 1 else 0)
    + (if EdgeCrossesXAxis(a0, a2) then 1 else 0)
  }

  /** The 2D cross product. */
  function Cross2(a: Point2d, b: Point2d): real {
    a.x * b.y - a.y * b.x
  }

  /** Crossing edge whose endpoints straddle the X-axis: the intercept's sign is that of
      the numerator `Cross2(p0, p1)` read against the direction of travel in y. */
  lemma StraddlingEdge(p0: Point2d, p1: Point2d)
    requires SimpleSign(p0.y) != SimpleSign(p1.y)
    ensures EdgeCrossesXAxis(p0, p1) <==>
      (p1.y > p0.y && Cross2(p0, p1) >= 0.0) || (p1.y < p0.y && Cross2(p0, p1) <= 0.0)
  {
    EdgeCrossingIsInterceptTest(p0, p1);
    DivSign(Cross2(p0, p1), p1.y - p0.y);
  }

  /** When the origin is the centroid of a non-degenerate 2D triangle (the translated
      vertices sum to zero and span a non-zero area), exactly one of the three edges
      crosses the positive X half-axis, so the crossing count is odd. */
  lemma {:induction false} CentroidCrossesOnce(a0: Point2d, a1: Point2d, a2: Point2d)
    requires a0.x + a1.x + a2.x == 0.0 && a0.y + a1.y + a2.y == 0.0
    requires Cross2(Point2d(a1.x - a0.x, a1.y - a0.y), Point2d(a2.x - a0.x, a2.y - a0.y)) != 0.0
    ensures CrossingCount(a0, a1, a2) == 1
  {
    var d := Cross2(a1, a2);
    assert Cross2(Point2d(a1.x - a0.x, a1.y - a0.y), Point2d(a2.x - a0.x, a2.y - a0.y)) == 3.0 * d;
    assert d != 0.0;
    assert Cross2(a0, a1) == d;
    assert Cross2(a0, a2) == -d;
    var s0, s1, s2 := SimpleSign(a0.y), SimpleSign(a1.y), SimpleSign(a2.y);
    if s0 == s1 && s1 == s2 {
      // all on the upper side would force every y to zero and the area to vanish
      assert false;
    }
    if s1 == s2 {
      StraddlingEdge(a0, a1);
      StraddlingEdge(a0, a2);
      assert !(a1.y == 0.0 && a2.y == 0.0);
    } else if s0 == s2 {
      StraddlingEdge(a0, a1);
      StraddlingEdge(a1, a2);
      assert !(a0.y == 0.0 && a2.y == 0.0);
      assert Cross2(a1, a2) == d;
    } else {
      StraddlingEdge(a1, a2);
      StraddlingEdge(a0, a2);
      assert !(a0.y == 0.0 && a1.y == 0.0);
    }
  }
}
