/** Weighted polygons (weightedMesh.cpp: `append_if_unique`, `WeightedPolygon`): a face
    split into triangles over the shared vertex arena, with the list of distinct vertex
    indices it uses, and the two first-match scans run against a sample point. */
module Polygons {
  import opened Vectors
  import opened Triangles

  datatype Option<T> = None | Some(value: T)

  // ---------------------------------------------------------------------------------
  // Duplicate-free vertex lists

  /** `append_if_unique`: scans for `v` and appends it only when it is absent; the flag
      says whether it was appended. */
  method AppendIfUnique(s: seq<nat>, v: nat) returns (r: seq<nat>, appended: bool)
    ensures appended <==> v !in s
    ensures r == WithUnique(s, v)
  {
    var i := 0;
    while i < |s|
      invariant 0 <= i <= |s|
      invariant v !in s[..i]
    {
      if s[i] == v {
        return s, false;
      }
      i := i + 1;
    }
    assert s[..i] == s;
    return s + [v], true;
  }

  /** The list after offering `v`: unchanged when `v` is present, else `v` appended. */
  function WithUnique(s: seq<nat>, v: nat): (r: seq<nat>)
    ensures v in r
  {
    if v in s then s else s + [v]
  }

  /** Reference definition of the list `append_if_unique` builds from `s`, one element
      at a time: the distinct elements of `s` in the order they first occur. */
  function Dedup(s: seq<nat>): (d: seq<nat>)
    ensures |d| <= |s|
  {
    if |s| == 0 then []
    else WithUnique(Dedup(s[..|s| - 1]), s[|s| - 1])
  }

  /** The list holds exactly the elements of `s`. */
  lemma {:induction false} DedupMembers(s: seq<nat>)
    ensures forall x :: x in Dedup(s) <==> x in s
  {
    if |s| > 0 {
      var init, v := s[..|s| - 1], s[|s| - 1];
      DedupMembers(init);
      assert s == init + [v];
      forall x
        ensures x in Dedup(s) <==> x in s
      {
        assert x in s <==> x in init || x == v;
      }
    }
  }

  /** No index occurs twice in the list. */
  lemma {:induction false} DedupDistinct(s: seq<nat>)
    ensures forall i, j :: 0 <= i < j < |Dedup(s)| ==> Dedup(s)[i] != Dedup(s)[j]
  {
    if |s| > 0 {
      var init, v := s[..|s| - 1], s[|s| - 1];
      DedupDistinct(init);
      var p := Dedup(init);
      if v !in p {
        var d := p + [v];
        forall i, j | 0 <= i < j < |d|
          ensures d[i] != d[j]
        {
          assert d[i] == p[i] && p[i] in p;
          if j < |p| {
            assert d[j] == p[j];
            assert p[i] != p[j];
          } else {
            assert d[j] == v;
          }
        }
        assert Dedup(s) == d;
      }
    }
  }

  /** The position of the first occurrence of `x` in `s`. */
  function FirstIndex(s: seq<nat>, x: nat): (k: nat)
    requires x in s
    ensures k < |s| && s[k] == x && x !in s[..k]
  {
    if s[0] == x then 0
    else
      var k := 1 + FirstIndex(s[1..], x);
      assert s[..k] == [s[0]] + s[1..][..k - 1];
      k
  }

  /** Appending an element does not move the first occurrence of one already present. */
  lemma FirstIndexSnoc(s: seq<nat>, v: nat, x: nat)
    requires x in s
    ensures FirstIndex(s + [v], x) == FirstIndex(s, x)
  {
    var k, k' := FirstIndex(s, x), FirstIndex(s + [v], x);
    assert forall m :: 0 <= m < |s| ==> (s + [v])[m] == s[m];
  }

  /** First-seen order: earlier entries of the list first occur earlier in `s`. */
  lemma {:induction false} DedupFirstSeen(s: seq<nat>)
    ensures forall x :: x in Dedup(s) ==> x in s
    ensures forall i, j :: 0 <= i < j < |Dedup(s)| ==> FirstIndex(s, Dedup(s)[i]) < FirstIndex(s, Dedup(s)[j])
  {
    DedupMembers(s);
    if |s| > 0 {
      var init, v := s[..|s| - 1], s[|s| - 1];
      assert s == init + [v];
      DedupFirstSeen(init);
      DedupMembers(init);
      var p := Dedup(init);
      forall i | 0 <= i < |p|
        ensures FirstIndex(s, p[i]) == FirstIndex(init, p[i])
      {
        FirstIndexSnoc(init, v, p[i]);
      }
      if v !in p {
        assert v !in init;
        assert forall m :: 0 <= m < |init| ==> s[m] == init[m];
        assert FirstIndex(s, v) == |init|;
      }
    }
  }

  // ---------------------------------------------------------------------------------
  // Splitting the triangle-index stream

  /** The list `update_triangles` has built once the stream entries `start .. end - 1`
      have been offered to `append_if_unique`, in stream order. */
  function Gathered(stream: seq<nat>, start: nat, end: nat): seq<nat>
    requires start <= end <= |stream|
    decreases end - start
  {
    if end == start then [] else WithUnique(Gathered(stream, start, end - 1), stream[end - 1])
  }

  /** Offering the entries one by one builds the first-seen list of the consumed range. */
  lemma {:induction false} GatheredIsDedup(stream: seq<nat>, start: nat, end: nat)
    requires start <= end <= |stream|
    ensures Gathered(stream, start, end) == Dedup(stream[start..end])
    decreases end - start
  {
    if end > start {
      GatheredIsDedup(stream, start, end - 1);
      var used := stream[start..end];
      assert used[..|used| - 1] == stream[start..end - 1];
      assert used[|used| - 1] == stream[end - 1];
      assert Dedup(used) == WithUnique(Dedup(used[..|used| - 1]), used[|used| - 1]);
    }
  }

  /** Triangle `i` of a polygon whose stream starts at `start` reads stream entries
      `start + 3i`, `start + 3i + 1` and `start + 3i + 2`: they exist, index the arena
      and span a non-degenerate triangle. */
  predicate StreamTriangleOk(arena: seq<Vertex>, stream: seq<nat>, start: nat, i: nat, norm: Norm) {
    var k := start + 3 * i;
    && k + 2 < |stream|
    && stream[k] < |arena| && stream[k + 1] < |arena| && stream[k + 2] < |arena|
    && NonDegenerate(arena, stream[k], stream[k + 1], stream[k + 2], norm)
  }

  /** The triangle `set_vertices` builds from those three entries. */
  function StreamTriangle(arena: seq<Vertex>, stream: seq<nat>, start: nat, i: nat, norm: Norm): (t: Triangle)
    requires StreamTriangleOk(arena, stream, start, i, norm)
    ensures t.InArena(|arena|)
    ensures t.v0 == stream[start + 3 * i] && t.v1 == stream[start + 3 * i + 1] && t.v2 == stream[start + 3 * i + 2]
  {
    var k := start + 3 * i;
    SetVertices(arena, stream[k], stream[k + 1], stream[k + 2], norm)
  }

  /** The `3 * count` entries from `start` lie inside the stream, and every one of the
      first `count` triangles they describe is well formed. */
  predicate StreamOk(arena: seq<Vertex>, stream: seq<nat>, start: nat, count: nat, norm: Norm) {
    && start + 3 * count <= |stream|
    && forall i :: 0 <= i < count ==> StreamTriangleOk(arena, stream, start, i, norm)
  }

  /** The triangles of a polygon, in stream order. */
  function TrianglesOf(arena: seq<Vertex>, stream: seq<nat>, start: nat, count: nat, norm: Norm): (r: seq<Triangle>)
    requires StreamOk(arena, stream, start, count, norm)
    ensures |r| == count
  {
    if count == 0 then []
    else TrianglesOf(arena, stream, start, count - 1, norm) + [StreamTriangle(arena, stream, start, count - 1, norm)]
  }

  /** Triangle `i` of the polygon is the one built from its `i`-th group of three entries. */
  lemma {:induction false} TrianglesOfIndex(arena: seq<Vertex>, stream: seq<nat>, start: nat, count: nat, norm: Norm)
    requires StreamOk(arena, stream, start, count, norm)
    ensures forall i :: 0 <= i < count ==>
      TrianglesOf(arena, stream, start, count, norm)[i] == StreamTriangle(arena, stream, start, i, norm)
  {
    if count > 0 {
      TrianglesOfIndex(arena, stream, start, count - 1, norm);
    }
  }

  /** `WeightedPolygon` after `update_triangles`: its face index, its triangles and the
      arena indices of its distinct vertices. */
  datatype Polygon = Polygon(faceIndex: nat, tris: seq<Triangle>, verts: seq<nat>)

  /** Reference definition of the polygon `update_triangles` builds. */
  function PolygonOf(faceIndex: nat, count: nat, start: nat, stream: seq<nat>, arena: seq<Vertex>, norm: Norm): (p: Polygon)
    requires StreamOk(arena, stream, start, count, norm)
    ensures p.faceIndex == faceIndex && |p.tris| == count
  {
    Polygon(faceIndex, TrianglesOf(arena, stream, start, count, norm), Dedup(stream[start..start + 3 * count]))
  }

  /** `WeightedPolygon::update_triangles`: the triangle loop, then the vertex list is
      filled from the unique indices it gathered. */
  method UpdateTriangles(faceIndex: nat, count: nat, start: nat, stream: seq<nat>, arena: seq<Vertex>, norm: Norm)
    returns (poly: Polygon)
    requires StreamOk(arena, stream, start, count, norm)
    ensures poly == PolygonOf(faceIndex, count, start, stream, arena, norm)
  {
    var tris, unique := SplitTriangles(count, start, stream, arena, norm);
    var verts := ListVertices(unique);
    GatheredIsDedup(stream, start, start + 3 * count);
    poly := Polygon(faceIndex, tris, verts);
  }

  /** The triangle loop of `update_triangles`: one triangle per three stream entries
      while `start_index` advances by 3, each index offered to `append_if_unique`. */
  method SplitTriangles(count: nat, start: nat, stream: seq<nat>, arena: seq<Vertex>, norm: Norm)
    returns (tris: seq<Triangle>, unique: seq<nat>)
    requires StreamOk(arena, stream, start, count, norm)
    ensures tris == TrianglesOf(arena, stream, start, count, norm)
    ensures unique == Gathered(stream, start, start + 3 * count)
  {
    ghost var all := TrianglesOf(arena, stream, start, count, norm);
    tris := [];
    unique := [];
    var startIndex := start;
    for i := 0 to count
      invariant startIndex == start + 3 * i
      invariant tris == all[..i]
      invariant unique == Gathered(stream, start, startIndex)
    {
      unique := OfferCorners(stream, start, startIndex, unique);
      tris := NextTriangle(count, start, stream, arena, norm, i, tris);
      startIndex := startIndex + 3;
    }
    assert tris == all;
  }

  /** The three `append_if_unique` calls of one pass, on the entries at `start_index`. */
  method OfferCorners(stream: seq<nat>, start: nat, startIndex: nat, unique: seq<nat>)
    returns (unique': seq<nat>)
    requires start <= startIndex && startIndex + 3 <= |stream|
    requires unique == Gathered(stream, start, startIndex)
    ensures unique' == Gathered(stream, start, startIndex + 3)
  {
    var appended;
    unique', appended := AppendIfUnique(unique, stream[startIndex]);
    assert unique' == Gathered(stream, start, startIndex + 1);
    unique', appended := AppendIfUnique(unique', stream[startIndex + 1]);
    assert unique' == Gathered(stream, start, startIndex + 2);
    unique', appended := AppendIfUnique(unique', stream[startIndex + 2]);
  }

  /** `set_vertices` on the three entries of pass `i`, appended to the triangles so far. */
  method NextTriangle(count: nat, start: nat, stream: seq<nat>, arena: seq<Vertex>, norm: Norm,
                      i: nat, tris: seq<Triangle>)
    returns (tris': seq<Triangle>)
    requires StreamOk(arena, stream, start, count, norm) && i < count
    requires tris == TrianglesOf(arena, stream, start, count, norm)[..i]
    ensures tris' == TrianglesOf(arena, stream, start, count, norm)[..i + 1]
  {
    assert StreamTriangleOk(arena, stream, start, i, norm);
    tris' := tris + [StreamTriangle(arena, stream, start, i, norm)];
    TrianglesOfIndex(arena, stream, start, count, norm);
    assert TrianglesOf(arena, stream, start, count, norm)[..i + 1]
      == TrianglesOf(arena, stream, start, count, norm)[..i] + [StreamTriangle(arena, stream, start, i, norm)];
  }

  /** The loop at the end of `update_triangles` that fills `verts` from the unique
      indices, keeping their order (the arena index stands for the vertex pointer). */
  method ListVertices(unique: seq<nat>) returns (verts: seq<nat>)
    ensures verts == unique
  {
    verts := [];
    var j := 0;
    while j < |unique|
      invariant 0 <= j <= |unique|
      invariant verts == unique[..j]
    {
      verts := verts + [unique[j]];
      j := j + 1;
    }
  }

  /** At most `3 * count` vertices, none listed twice. */
  lemma PolygonVertsDistinct(faceIndex: nat, count: nat, start: nat, stream: seq<nat>, arena: seq<Vertex>, norm: Norm)
    requires StreamOk(arena, stream, start, count, norm)
    ensures var p := PolygonOf(faceIndex, count, start, stream, arena, norm);
      && |p.verts| <= 3 * count
      && (forall i, j :: 0 <= i < j < |p.verts| ==> p.verts[i] != p.verts[j])
  {
    var used := stream[start..start + 3 * count];
    DedupDistinct(used);
    assert PolygonOf(faceIndex, count, start, stream, arena, norm).verts == Dedup(used);
  }

  /** Every vertex index of every triangle is in the polygon's vertex list. */
  lemma {:induction false} PolygonVertsCoverTriangles(faceIndex: nat, count: nat, start: nat, stream: seq<nat>, arena: seq<Vertex>, norm: Norm)
    requires StreamOk(arena, stream, start, count, norm)
    ensures var p := PolygonOf(faceIndex, count, start, stream, arena, norm);
      forall i :: 0 <= i < count ==> p.tris[i].v0 in p.verts && p.tris[i].v1 in p.verts && p.tris[i].v2 in p.verts
  {
    var p := PolygonOf(faceIndex, count, start, stream, arena, norm);
    var used := stream[start..start + 3 * count];
    DedupMembers(used);
    TrianglesOfIndex(arena, stream, start, count, norm);
    forall i | 0 <= i < count
      ensures p.tris[i].v0 in p.verts && p.tris[i].v1 in p.verts && p.tris[i].v2 in p.verts
    {
      assert StreamTriangleOk(arena, stream, start, i, norm);
      assert used[3 * i] == p.tris[i].v0;
      assert used[3 * i + 1] == p.tris[i].v1;
      assert used[3 * i + 2] == p.tris[i].v2;
    }
  }

  /** Every listed vertex is one of the `3 * count` stream entries the polygon consumed. */
  lemma {:induction false} PolygonVertsFromStream(faceIndex: nat, count: nat, start: nat, stream: seq<nat>, arena: seq<Vertex>, norm: Norm)
    requires StreamOk(arena, stream, start, count, norm)
    ensures var p := PolygonOf(faceIndex, count, start, stream, arena, norm);
      forall x :: x in p.verts ==> exists k :: start <= k < start + 3 * count && stream[k] == x
  {
    var p := PolygonOf(faceIndex, count, start, stream, arena, norm);
    var used := stream[start..start + 3 * count];
    DedupMembers(used);
    forall x | x in p.verts
      ensures exists k :: start <= k < start + 3 * count && stream[k] == x
    {
      var m :| 0 <= m < |used| && used[m] == x;
      assert stream[start + m] == x;
    }
  }

  /** The vertex list of a polygon lists its stream indices in first-seen order. */
  lemma PolygonVertsFirstSeen(faceIndex: nat, count: nat, start: nat, stream: seq<nat>, arena: seq<Vertex>, norm: Norm)
    requires StreamOk(arena, stream, start, count, norm)
    ensures var p := PolygonOf(faceIndex, count, start, stream, arena, norm);
      var used := stream[start..start + 3 * count];
      && (forall x :: x in p.verts ==> x in used)
      && (forall i, j :: 0 <= i < j < |p.verts| ==> FirstIndex(used, p.verts[i]) < FirstIndex(used, p.verts[j]))
  {
    DedupFirstSeen(stream[start..start + 3 * count]);
  }

  // ---------------------------------------------------------------------------------
  // First-match scans against a sample point

  /** Every listed vertex index points into the arena. */
  predicate VertsInArena(arena: seq<Vertex>, verts: seq<nat>) {
    forall i :: 0 <= i < |verts| ==> verts[i] < |arena|
  }

  /** Every triangle refers to arena vertices and has a positive area. */
  predicate TrisInArena(arena: seq<Vertex>, tris: seq<Triangle>) {
    forall i :: 0 <= i < |tris| ==> tris[i].InArena(|arena|)
  }

  /** A polygon built from a well-formed stream refers only to arena vertices. */
  lemma {:induction false} PolygonInArena(faceIndex: nat, count: nat, start: nat, stream: seq<nat>, arena: seq<Vertex>, norm: Norm)
    requires StreamOk(arena, stream, start, count, norm)
    ensures VertsInArena(arena, PolygonOf(faceIndex, count, start, stream, arena, norm).verts)
    ensures TrisInArena(arena, PolygonOf(faceIndex, count, start, stream, arena, norm).tris)
  {
    var p := PolygonOf(faceIndex, count, start, stream, arena, norm);
    PolygonVertsFromStream(faceIndex, count, start, stream, arena, norm);
    TrianglesOfIndex(arena, stream, start, count, norm);
    forall n | 0 <= n < |p.verts|
      ensures p.verts[n] < |arena|
    {
      assert p.verts[n] in p.verts;
      var k :| start <= k < start + 3 * count && stream[k] == p.verts[n];
      var i := (k - start) / 3;
      assert start + 3 * i <= k <= start + 3 * i + 2;
      assert StreamTriangleOk(arena, stream, start, i, norm);
    }
  }

  /** Reference definition of the scan in `get_matching_vertex`, from position `from` on:
      the first listed vertex whose position equals `p` within EPSILON, or none. */
  function MatchingVertexFrom(arena: seq<Vertex>, verts: seq<nat>, p: Vec3, from: nat): (r: Option<nat>)
    requires VertsInArena(arena, verts) && from <= |verts|
    ensures r.Some? ==> from <= r.value < |verts| && EqualsPosition(arena[verts[r.value]], p)
    ensures r.Some? ==> forall j :: from <= j < r.value ==> !EqualsPosition(arena[verts[j]], p)
    ensures r.None? ==> forall j :: from <= j < |verts| ==> !EqualsPosition(arena[verts[j]], p)
    decreases |verts| - from
  {
    if from == |verts| then None
    else if EqualsPosition(arena[verts[from]], p) then Some(from)
    else MatchingVertexFrom(arena, verts, p, from + 1)
  }

  /** `get_matching_vertex` as a value: the position in the vertex list of the first
      match, or None where the source returns NULL. */
  function MatchingVertex(arena: seq<Vertex>, verts: seq<nat>, p: Vec3): (r: Option<nat>)
    requires VertsInArena(arena, verts)
    ensures r.Some? ==> r.value < |verts| && EqualsPosition(arena[verts[r.value]], p)
    ensures r.Some? ==> forall j :: 0 <= j < r.value ==> !EqualsPosition(arena[verts[j]], p)
    ensures r.None? <==> forall j :: 0 <= j < |verts| ==> !EqualsPosition(arena[verts[j]], p)
  {
    MatchingVertexFrom(arena, verts, p, 0)
  }

  /** `WeightedPolygon::get_matching_vertex`: the loop with early return. */
  method GetMatchingVertex(poly: Polygon, arena: seq<Vertex>, p: Vec3) returns (r: Option<nat>)
    requires VertsInArena(arena, poly.verts)
    ensures r == MatchingVertex(arena, poly.verts, p)
  {
    var spec := MatchingVertex(arena, poly.verts, p);
    var i := 0;
    while i < |poly.verts|
      invariant 0 <= i <= |poly.verts|
      invariant forall j :: 0 <= j < i ==> !EqualsPosition(arena[poly.verts[j]], p)
    {
      if EqualsPosition(arena[poly.verts[i]], p) {
        assert spec.Some? && spec.value == i;
        return Some(i);
      }
      i := i + 1;
    }
    return None;
  }

  /** The two containment tests `get_intersected_triangle` tries, in this order. */
  datatype Test = FastTest | BaryTest

  predicate Passes(test: Test, t: Triangle, arena: seq<Vertex>, p: Vec3, norm: Norm)
    requires t.InArena(|arena|)
  {
    match test
    case FastTest => PointIsInside(t, p, norm)
    case BaryTest => PointIsInsideBary(t, arena, p, norm)
  }

  /** Reference definition of one pass of `get_intersected_triangle`, from `from` on:
      the first triangle passing `test`, or none. */
  function FirstPassingFrom(test: Test, tris: seq<Triangle>, arena: seq<Vertex>, p: Vec3, norm: Norm, from: nat): (r: Option<nat>)
    requires TrisInArena(arena, tris) && from <= |tris|
    ensures r.Some? ==> from <= r.value < |tris| && Passes(test, tris[r.value], arena, p, norm)
    ensures r.Some? ==> forall j :: from <= j < r.value ==> !Passes(test, tris[j], arena, p, norm)
    ensures r.None? ==> forall j :: from <= j < |tris| ==> !Passes(test, tris[j], arena, p, norm)
    decreases |tris| - from
  {
    if from == |tris| then None
    else if Passes(test, tris[from], arena, p, norm) then Some(from)
    else FirstPassingFrom(test, tris, arena, p, norm, from + 1)
  }

  /** The chosen triangle and whether the "no intersected triangle" diagnostic fired. */
  datatype Hit = Hit(index: nat, fallback: bool)

  /** Reference definition of `get_intersected_triangle`: the first triangle passing the
      fast test; failing that, the first passing the barycentric test; failing that,
      triangle 0 with the diagnostic. */
  function IntersectedTriangle(tris: seq<Triangle>, arena: seq<Vertex>, p: Vec3, norm: Norm): (h: Hit)
    requires |tris| >= 1 && TrisInArena(arena, tris)
    ensures h.index < |tris|
  {
    match FirstPassingFrom(FastTest, tris, arena, p, norm, 0)
    case Some(i) => Hit(i, false)
    case None =>
      match FirstPassingFrom(BaryTest, tris, arena, p, norm, 0)
      case Some(i) => Hit(i, false)
      case None => Hit(0, true)
  }

  /** What the two passes promise: the lowest-index triangle passing the fast test wins;
      only when none passes does the lowest-index one passing the barycentric test win;
      the diagnostic fires, with triangle 0, exactly when no triangle passes either. */
  lemma IntersectedTriangleChoice(tris: seq<Triangle>, arena: seq<Vertex>, p: Vec3, norm: Norm)
    requires |tris| >= 1 && TrisInArena(arena, tris)
    ensures var h := IntersectedTriangle(tris, arena, p, norm);
      (exists i :: 0 <= i < |tris| && Passes(FastTest, tris[i], arena, p, norm)) ==>
        && !h.fallback
        && Passes(FastTest, tris[h.index], arena, p, norm)
        && forall j :: 0 <= j < h.index ==> !Passes(FastTest, tris[j], arena, p, norm)
    ensures var h := IntersectedTriangle(tris, arena, p, norm);
      (forall i :: 0 <= i < |tris| ==> !Passes(FastTest, tris[i], arena, p, norm)) &&
      (exists i :: 0 <= i < |tris| && Passes(BaryTest, tris[i], arena, p, norm)) ==>
        && !h.fallback
        && Passes(BaryTest, tris[h.index], arena, p, norm)
        && forall j :: 0 <= j < h.index ==> !Passes(BaryTest, tris[j], arena, p, norm)
    ensures var h := IntersectedTriangle(tris, arena, p, norm);
      h.fallback <==> forall i :: 0 <= i < |tris| ==>
        !Passes(FastTest, tris[i], arena, p, norm) && !Passes(BaryTest, tris[i], arena, p, norm)
    ensures var h := IntersectedTriangle(tris, arena, p, norm);
      h.fallback ==> h.index == 0
  {
  }

  /** `WeightedPolygon::get_intersected_triangle`: two loops with early return and the
      fallback to triangle 0. The source indexes `tris[0]` unconditionally at the end,
      so it needs at least one triangle. */
  method GetIntersectedTriangle(poly: Polygon, arena: seq<Vertex>, p: Vec3, norm: Norm) returns (h: Hit)
    requires |poly.tris| >= 1 && TrisInArena(arena, poly.tris)
    ensures h == IntersectedTriangle(poly.tris, arena, p, norm)
  {
    var tris := poly.tris;
    var fast := FirstPassingFrom(FastTest, tris, arena, p, norm, 0);
    var i := 0;
    while i < |tris|
      invariant 0 <= i <= |tris|
      invariant forall j :: 0 <= j < i ==> !Passes(FastTest, tris[j], arena, p, norm)
    {
      if PointIsInside(tris[i], p, norm) {
        assert fast == Some(i);
        return Hit(i, false);
      }
      i := i + 1;
    }
    var bary := FirstPassingFrom(BaryTest, tris, arena, p, norm, 0);
    i := 0;
    while i < |tris|
      invariant 0 <= i <= |tris|
      invariant forall j :: 0 <= j < i ==> !Passes(BaryTest, tris[j], arena, p, norm)
    {
      if PointIsInsideBary(tris[i], arena, p, norm) {
        assert bary == Some(i);
        return Hit(i, false);
      }
      i := i + 1;
    }
    return Hit(0, true);
  }

  /** The diagnostic never fires for a sample at a vertex of one of the polygon's
      triangles (given a Euclidean length there): the barycentric pass accepts it. */
  lemma {:induction false} NoFallbackAtOwnVertex(tris: seq<Triangle>, arena: seq<Vertex>, norm: Norm, k: nat, i0: nat, i1: nat, i2: nat)
    requires |tris| >= 1 && TrisInArena(arena, tris)
    requires i0 < |arena| && i1 < |arena| && i2 < |arena|
    requires NonDegenerate(arena, i0, i1, i2, norm)
    requires LengthsAtVertices(norm, arena[i0].position, arena[i1].position, arena[i2].position)
    requires k < |tris| && tris[k] == SetVertices(arena, i0, i1, i2, norm)
    ensures !IntersectedTriangle(tris, arena, arena[i0].position, norm).fallback
    ensures !IntersectedTriangle(tris, arena, arena[i1].position, norm).fallback
    ensures !IntersectedTriangle(tris, arena, arena[i2].position, norm).fallback
  {
    OwnVerticesByBarycentrics(arena, i0, i1, i2, norm);
    IntersectedTriangleChoice(tris, arena, arena[i0].position, norm);
    IntersectedTriangleChoice(tris, arena, arena[i1].position, norm);
    IntersectedTriangleChoice(tris, arena, arena[i2].position, norm);
    assert Passes(BaryTest, tris[k], arena, arena[i0].position, norm);
    assert Passes(BaryTest, tris[k], arena, arena[i1].position, norm);
    assert Passes(BaryTest, tris[k], arena, arena[i2].position, norm);
  }
}
