/** The weight source and destination of the transfer command (weightTransfer.cpp,
    `WeightsSource` and `WeightsDestination`). The source builds a vertex arena and one
    polygon per mesh face; the destination samples the source at each of its vertices. */
module Transfer {
  import opened Vectors
  import opened Triangles
  import opened Polygons
  import opened MeshWeights

  // ---------------------------------------------------------------------------------
  // Validation of the source mesh

  /** The four reasons the source constructor gives up, in the order it checks them. */
  datatype SourceError = ZeroVertices | CountMismatch | MeshInvalid | AttributeInvalid

  /** The checks at weightTransfer.cpp:98-119: the first failing one, or none. */
  function SourceCheck(vertexCount: nat, weightCount: nat, meshOk: bool, attrOk: bool): (e: Option<SourceError>)
    ensures e.None? <==> vertexCount != 0 && vertexCount == weightCount && meshOk && attrOk
    ensures e == Some(ZeroVertices) <==> vertexCount == 0
    ensures e == Some(CountMismatch) <==> vertexCount != 0 && vertexCount != weightCount
    ensures e == Some(MeshInvalid) <==> vertexCount != 0 && vertexCount == weightCount && !meshOk
    ensures e == Some(AttributeInvalid) <==> vertexCount != 0 && vertexCount == weightCount && meshOk && !attrOk
  {
    if vertexCount == 0 then Some(ZeroVertices)
    else if vertexCount != weightCount then Some(CountMismatch)
    else if !meshOk then Some(MeshInvalid)
    else if !attrOk then Some(AttributeInvalid)
    else None
  }

  /** The attribute type, plug and status `set_weight_attribute` leaves on a freshly
      constructed mesh. */
  function LookupType(lookup: AttrLookup): AttrType {
    if lookup.Typed? then lookup.attrType else OtherType
  }

  function LookupPlug(lookup: AttrLookup): PlugData {
    if lookup.Typed? then lookup.data else NoData
  }

  predicate LookupOk(lookup: AttrLookup) {
    lookup.Typed? && Supported(lookup.attrType)
  }

  /** The weight count `retrieve_weights` leaves on a freshly constructed mesh. */
  function LookupCount(lookup: AttrLookup): nat
    requires lookup.Typed? ==> Matches(lookup.attrType, lookup.data)
  {
    if Supported(LookupType(lookup)) then ActiveLen(LookupType(lookup), Load(LookupType(lookup), LookupPlug(lookup))) else 0
  }

  /** A weight attribute of an unsupported type, or one that cannot be found, leaves no
      weights, so on a mesh with vertices the count check fires before the attribute
      check: the constructor then reports a count mismatch, never an invalid attribute. */
  lemma UnsupportedAttributeIsCountMismatch(vertexCount: nat, meshOk: bool, lookup: AttrLookup)
    requires lookup.Typed? ==> Matches(lookup.attrType, lookup.data)
    requires !LookupOk(lookup)
    ensures SourceCheck(vertexCount, LookupCount(lookup), meshOk, false) ==
      if vertexCount == 0 then Some(ZeroVertices) else Some(CountMismatch)
  {
  }

  // ---------------------------------------------------------------------------------
  // Layout of the triangle stream

  /** Where polygon `i`'s triangles start in the stream: three entries for every
      triangle of every earlier polygon. */
  function Offset(counts: seq<nat>, i: nat): nat
    requires i <= |counts|
  {
    if i == 0 then 0 else Offset(counts, i - 1) + 3 * counts[i - 1]
  }

  /** Each polygon's entries end where a later polygon's begin: the ranges read by
      different polygons are disjoint and in face order. */
  lemma {:induction false} OffsetsOrdered(counts: seq<nat>, i: nat, j: nat)
    requires i < j <= |counts|
    ensures Offset(counts, i) + 3 * counts[i] <= Offset(counts, j)
    decreases j - i
  {
    if j > i + 1 {
      OffsetsOrdered(counts, i, j - 1);
    }
  }

  /** Every polygon's triangles are well formed in the arena. */
  predicate StreamsOk(arena: seq<Vertex>, counts: seq<nat>, stream: seq<nat>, norm: Norm) {
    forall i {:trigger StreamOk(arena, stream, Offset(counts, i), counts[i], norm)} ::
      0 <= i < |counts| ==> StreamOk(arena, stream, Offset(counts, i), counts[i], norm)
  }

  /** Reference definition of the source's polygons: polygon `i` is built with face index
      `i` from `counts[i]` triangles starting at `Offset(counts, i)`. */
  function SourcePolygons(arena: seq<Vertex>, counts: seq<nat>, stream: seq<nat>, norm: Norm): (r: seq<Polygon>)
    requires StreamsOk(arena, counts, stream, norm)
    ensures |r| == |counts|
  {
    PolygonsUpTo(arena, counts, stream, norm, |counts|)
  }

  /** The first `n` of those polygons. */
  function PolygonsUpTo(arena: seq<Vertex>, counts: seq<nat>, stream: seq<nat>, norm: Norm, n: nat): (r: seq<Polygon>)
    requires StreamsOk(arena, counts, stream, norm) && n <= |counts|
    ensures |r| == n
  {
    if n == 0 then []
    else PolygonsUpTo(arena, counts, stream, norm, n - 1) + [PolygonOf(n - 1, counts[n - 1], Offset(counts, n - 1), stream, arena, norm)]
  }

  /** Polygon `i` of the first `n` is the one `update_triangles` builds at `Offset(counts, i)`. */
  lemma {:induction false} PolygonsUpToIndex(arena: seq<Vertex>, counts: seq<nat>, stream: seq<nat>, norm: Norm, n: nat)
    requires StreamsOk(arena, counts, stream, norm) && n <= |counts|
    ensures forall i {:trigger PolygonsUpTo(arena, counts, stream, norm, n)[i]} :: 0 <= i < n ==>
      PolygonsUpTo(arena, counts, stream, norm, n)[i] == PolygonOf(i, counts[i], Offset(counts, i), stream, arena, norm)
  {
    if n > 0 {
      PolygonsUpToIndex(arena, counts, stream, norm, n - 1);
      var prev := PolygonsUpTo(arena, counts, stream, norm, n - 1);
      assert StreamOk(arena, stream, Offset(counts, n - 1), counts[n - 1], norm);
      assert PolygonsUpTo(arena, counts, stream, norm, n)
        == prev + [PolygonOf(n - 1, counts[n - 1], Offset(counts, n - 1), stream, arena, norm)];
    }
  }

  /** Reference definition of the source's vertex arena: vertex `k` has position `k` and
      the weights `get_weight(k)` reports. */
  function SourceArena(t: AttrType, a: WeightArrays, positions: seq<Vec3>): (r: seq<Vertex>)
    requires Supported(t) && |positions| <= ActiveLen(t, a)
    ensures |r| == |positions|
  {
    seq(|positions|, k requires 0 <= k < |positions| => Vertex(positions[k], WeightOf(t, a, k)))
  }

  // ---------------------------------------------------------------------------------
  // Sampling the source

  /** What the closest-point search reports for a sample position: the face it lies on
      and the closest point, already mapped into world space. */
  datatype ClosestPoint = ClosestPoint(face: nat, point: Vec3)

  /** Every polygon refers only to arena vertices. */
  predicate PolygonsInArena(arena: seq<Vertex>, polys: seq<Polygon>) {
    forall i :: 0 <= i < |polys| ==> VertsInArena(arena, polys[i].verts) && TrisInArena(arena, polys[i].tris)
  }

  /** Reference definition of `sample_mesh` at the closest point `p` on a polygon: the
      weights of the first listed vertex at `p` within EPSILON; failing that, the blend
      of the triangle `get_intersected_triangle` chooses. */
  function SampleAt(arena: seq<Vertex>, poly: Polygon, p: Vec3, norm: Norm): Weights4
    requires VertsInArena(arena, poly.verts) && TrisInArena(arena, poly.tris) && |poly.tris| >= 1
  {
    match MatchingVertex(arena, poly.verts, p)
    case Some(i) => arena[poly.verts[i]].weights
    case None => SampledWeights(poly.tris[IntersectedTriangle(poly.tris, arena, p, norm).index], arena, p, norm)
  }

  /** At the position of one of the polygon's vertices the vertex path is taken: the
      output is the weights of a listed vertex within EPSILON of that position (the
      first such, which is that vertex unless another lies as close), and no triangle
      is consulted. */
  lemma SampleAtListedVertex(arena: seq<Vertex>, poly: Polygon, n: nat, norm: Norm)
    requires VertsInArena(arena, poly.verts) && TrisInArena(arena, poly.tris) && |poly.tris| >= 1
    requires n < |poly.verts|
    ensures var p := arena[poly.verts[n]].position;
      exists j :: 0 <= j <= n && EqualsPosition(arena[poly.verts[j]], p) &&
        SampleAt(arena, poly, p, norm) == arena[poly.verts[j]].weights
  {
    var v := arena[poly.verts[n]];
    EqualsPositionReflexiveSymmetric(v, v);
    var m := MatchingVertex(arena, poly.verts, v.position);
    assert m.Some? && m.value <= n;
  }

  /** A weight channel that is constant over the arena is transferred exactly, whichever
      path the sample takes. */
  lemma SampleReproducesConstantChannel(arena: seq<Vertex>, poly: Polygon, p: Vec3, norm: Norm, ch: nat, c: real)
    requires VertsInArena(arena, poly.verts) && TrisInArena(arena, poly.tris) && |poly.tris| >= 1
    requires ch < 4 && forall k :: 0 <= k < |arena| ==> arena[k].weights[ch] == c
    ensures SampleAt(arena, poly, p, norm)[ch] == c
  {
    if MatchingVertex(arena, poly.verts, p).None? {
      var t := poly.tris[IntersectedTriangle(poly.tris, arena, p, norm).index];
      SampleReproducesSharedChannel(t, arena, p, norm, ch);
    }
  }

  /** `WeightsSource`: the source mesh with its vertex arena and its polygons. */
  class WeightsSource {
    const mesh: WeightedMesh
    var verts: array<Vertex>
    var polys: array<Polygon>

    /** The polygons refer only to arena vertices. */
    predicate Valid()
      reads this, verts, polys
    {
      PolygonsInArena(verts[..], polys[..])
    }

    /** The sample position `hit` can be looked up: its face exists and has triangles. */
    predicate Sampleable(hit: ClosestPoint)
      reads this, polys
    {
      hit.face < polys.Length && |polys[hit.face].tris| >= 1
    }

    /** What `sample_mesh` writes for the closest point `hit`. */
    function Sample(hit: ClosestPoint, norm: Norm): Weights4
      requires Valid() && Sampleable(hit)
      reads this, verts, polys
    {
      SampleAt(verts[..], polys[hit.face], hit.point, norm)
    }

    /** The `WeightsSource` constructor. The mesh is attached, the weight attribute
        looked up and its weights retrieved; then the four checks run in order. Only if
        all pass is the source valid: vertex `k` gets position `k` and `get_weight(k)`,
        and polygon `i` is built from its `Offset(triCounts, i)`-based slice of the
        triangle stream. Otherwise nothing is built. `positions` are the mesh's vertex
        positions in world space and `triCounts`/`triVerts` its triangulation, both
        read from the host. */
    constructor(attached: bool, numVertices: nat, lookup: AttrLookup, positions: seq<Vec3>,
                triCounts: seq<nat>, triVerts: seq<nat>, norm: Norm)
      requires lookup.Typed? ==> Matches(lookup.attrType, lookup.data)
      requires |positions| == numVertices
      requires SourceCheck(numVertices, LookupCount(lookup), attached, LookupOk(lookup)).None? ==>
        StreamsOk(SourceArena(LookupType(lookup), Load(LookupType(lookup), LookupPlug(lookup)), positions),
                  triCounts, triVerts, norm)
      ensures fresh(mesh) && fresh(verts) && fresh(polys)
      ensures Valid() && mesh.Valid()
      ensures mesh.attrType == LookupType(lookup) && mesh.plug == LookupPlug(lookup)
      ensures mesh.vertexCount == numVertices && mesh.weightCount == LookupCount(lookup)
      ensures mesh.Arrays() == Load(LookupType(lookup), LookupPlug(lookup))
      ensures mesh.isValid <==> SourceCheck(numVertices, LookupCount(lookup), attached, LookupOk(lookup)).None?
      ensures mesh.isValid ==>
        && verts[..] == SourceArena(mesh.attrType, mesh.Arrays(), positions)
        && polys[..] == SourcePolygons(verts[..], triCounts, triVerts, norm)
      ensures !mesh.isValid ==> verts.Length == 0 && polys.Length == 0
    {
      var m := new WeightedMesh();
      var meshStatus := m.SetMesh(attached, numVertices);
      var attrStatus := m.SetWeightAttribute(lookup);
      m.RetrieveWeights();
      if SourceCheck(m.vertexCount, m.weightCount, meshStatus, attrStatus).Some? {
        mesh := m;
        verts := new Vertex[0];
        polys := new Polygon[0];
      } else {
        m.isValid := true;
        var t, a := m.attrType, m.Arrays();
        var arena := new Vertex[numVertices](_ => Vertex(Zero, [0.0, 0.0, 0.0, 0.0]));
        FillVertices(arena, t, a, positions);
        var built := new Polygon[|triCounts|](_ => Polygon(0, [], []));
        FillPolygons(built, arena[..], triCounts, triVerts, norm);
        SourcePolygonsInArena(arena[..], triCounts, triVerts, norm);
        mesh := m;
        verts := arena;
        polys := built;
      }
    }

    /** `sample_mesh` at the closest point `hit` the host's search found for a sample
        position: the vertex path when a listed vertex of the face's polygon matches,
        else the triangle path. */
    method SampleMesh(hit: ClosestPoint, norm: Norm, out: array<real>)
      requires Valid() && Sampleable(hit) && out.Length == 4
      modifies out
      ensures out[..] == Sample(hit, norm)
    {
      var arena := verts[..];
      var poly := polys[hit.face];
      assert VertsInArena(arena, poly.verts) && TrisInArena(arena, poly.tris);
      var matching := GetMatchingVertex(poly, arena, hit.point);
      if matching.Some? {
        CopyWeights(arena[poly.verts[matching.value]], out);
        return;
      }
      var h := GetIntersectedTriangle(poly, arena, hit.point, norm);
      SampleWeights(poly.tris[h.index], arena, hit.point, norm, out);
    }
  }

  /** The vertex loop of the source constructor: vertex `k` gets the `k`-th position and
      the `k`-th weight, in iteration order. */
  method FillVertices(arena: array<Vertex>, t: AttrType, a: WeightArrays, positions: seq<Vec3>)
    requires Supported(t) && arena.Length == |positions| <= ActiveLen(t, a)
    modifies arena
    ensures arena[..] == SourceArena(t, a, positions)
  {
    var index := 0;
    while index < arena.Length
      invariant 0 <= index <= arena.Length
      invariant forall k :: 0 <= k < index ==> arena[k] == Vertex(positions[k], WeightOf(t, a, k))
    {
      var weights := WeightOf(t, a, index);
      arena[index] := Vertex(positions[index], weights);
      index := index + 1;
    }
  }

  /** The polygon loop of the source constructor: polygon `i` is built by
      `update_triangles` from `start_index`, which then advances past its entries. */
  method FillPolygons(polys: array<Polygon>, arena: seq<Vertex>, triCounts: seq<nat>, triVerts: seq<nat>, norm: Norm)
    requires polys.Length == |triCounts| && StreamsOk(arena, triCounts, triVerts, norm)
    modifies polys
    ensures polys[..] == SourcePolygons(arena, triCounts, triVerts, norm)
  {
    var startIndex := 0;
    for i := 0 to |triCounts|
      invariant startIndex == Offset(triCounts, i)
      invariant polys[..i] == PolygonsUpTo(arena, triCounts, triVerts, norm, i)
    {
      var poly := SourcePolygon(arena, triCounts, triVerts, norm, i, startIndex);
      polys[i] := poly;
      assert polys[..i + 1] == polys[..i] + [poly];
      startIndex := startIndex + triCounts[i] * 3;
    }
    assert polys[..] == polys[..|triCounts|];
  }

  /** One pass of that loop: `update_triangles` for polygon `i` at its offset. */
  method SourcePolygon(arena: seq<Vertex>, triCounts: seq<nat>, triVerts: seq<nat>, norm: Norm,
                       i: nat, startIndex: nat) returns (poly: Polygon)
    requires StreamsOk(arena, triCounts, triVerts, norm)
    requires i < |triCounts| && startIndex == Offset(triCounts, i)
    ensures poly == PolygonOf(i, triCounts[i], Offset(triCounts, i), triVerts, arena, norm)
  {
    assert StreamOk(arena, triVerts, startIndex, triCounts[i], norm);
    poly := UpdateTriangles(i, triCounts[i], startIndex, triVerts, arena, norm);
  }

  /** The source's polygons refer only to arena vertices. */
  lemma SourcePolygonsInArena(arena: seq<Vertex>, counts: seq<nat>, stream: seq<nat>, norm: Norm)
    requires StreamsOk(arena, counts, stream, norm)
    ensures PolygonsInArena(arena, SourcePolygons(arena, counts, stream, norm))
  {
    PolygonsUpToIndex(arena, counts, stream, norm, |counts|);
    forall i | 0 <= i < |counts|
      ensures VertsInArena(arena, SourcePolygons(arena, counts, stream, norm)[i].verts)
      ensures TrisInArena(arena, SourcePolygons(arena, counts, stream, norm)[i].tris)
    {
      assert StreamOk(arena, stream, Offset(counts, i), counts[i], norm);
      PolygonInArena(i, counts[i], Offset(counts, i), stream, arena, norm);
    }
  }

  /** The length-`n` array the host's `setLength` leaves: the old elements up to `n`,
      then fresh ones (`fill` stands for whatever they hold). */
  function Resize<T>(s: seq<T>, n: nat, fill: T): (r: seq<T>)
    ensures |r| == n
    ensures forall i :: 0 <= i < n && i < |s| ==> r[i] == s[i]
  {
    if n <= |s| then s[..n] else s + seq(n - |s|, _ => fill)
  }

  /** The arrays after the length of the one of the attribute's type is set to `n`. */
  function ResizeActive(t: AttrType, a: WeightArrays, n: nat): (r: WeightArrays)
    requires Supported(t)
    ensures ActiveLen(t, r) == n
    ensures t != DoubleArray ==> r.doubles == a.doubles
    ensures t != VectorArray ==> r.vectors == a.vectors
    ensures t != PointArray ==> r.points == a.points
  {
    match t
    case DoubleArray => a.(doubles := Resize(a.doubles, n, 0.0))
    case VectorArray => a.(vectors := Resize(a.vectors, n, Zero))
    case PointArray => a.(points := Resize(a.points, n, Point4(0.0, 0.0, 0.0, 0.0)))
  }

  /** `WeightsDestination`: the mesh whose weight attribute receives the samples. */
  class WeightsDestination {
    const mesh: WeightedMesh

    /** The `WeightsDestination` constructor: the mesh is attached and the weight
        attribute looked up; the destination is valid exactly when both succeed. Its
        weights are not retrieved. */
    constructor(attached: bool, numVertices: nat, lookup: AttrLookup)
      requires lookup.Typed? ==> Matches(lookup.attrType, lookup.data)
      ensures fresh(mesh) && mesh.Valid()
      ensures mesh.isValid <==> attached && LookupOk(lookup)
      ensures mesh.vertexCount == numVertices && mesh.weightCount == 0
      ensures mesh.attrType == LookupType(lookup) && mesh.plug == LookupPlug(lookup)
      ensures mesh.Arrays() == WeightArrays([], [], [])
    {
      var m := new WeightedMesh();
      var meshStatus := m.SetMesh(attached, numVertices);
      var attrStatus := m.SetWeightAttribute(lookup);
      if meshStatus && attrStatus {
        m.isValid := true;
      }
      mesh := m;
    }

    /** `transfer_weights`. For an unsupported attribute type it fails and writes
        nothing. Otherwise the active array gets length `vertexCount`, destination
        vertex `k` (at `positions[k]`) is sampled through the closest-point search
        `closest` and its sample stored at index `k`, in increasing `k`, and the array
        is written back to the plug. */
    method TransferWeights(source: WeightsSource, positions: seq<Vec3>, closest: Vec3 -> ClosestPoint, norm: Norm)
      returns (ok: bool)
      requires mesh.Valid() && source.Valid() && source.mesh != mesh
      requires |positions| == mesh.vertexCount
      requires forall k :: 0 <= k < |positions| ==> source.Sampleable(closest(positions[k]))
      modifies mesh
      ensures ok <==> Supported(old(mesh.attrType))
      ensures !ok ==> unchanged(mesh)
      ensures mesh.attrType == old(mesh.attrType) && mesh.vertexCount == old(mesh.vertexCount)
      ensures mesh.weightCount == old(mesh.weightCount) && mesh.isValid == old(mesh.isValid)
      ensures ok ==> mesh.Valid() && mesh.ActiveLength() == mesh.vertexCount
      ensures ok ==> forall k :: 0 <= k < mesh.vertexCount ==>
        mesh.GetWeight(k) == Narrow(mesh.attrType, source.Sample(closest(positions[k]), norm))
      ensures ok ==> mesh.plug == Store(mesh.attrType, mesh.Arrays())
      ensures ok && mesh.attrType != DoubleArray ==> mesh.doubleVals == old(mesh.doubleVals)
      ensures ok && mesh.attrType != VectorArray ==> mesh.vectorVals == old(mesh.vectorVals)
      ensures ok && mesh.attrType != PointArray ==> mesh.pointVals == old(mesh.pointVals)
    {
      var t := mesh.attrType;
      if !Supported(t) {
        return false;
      }
      var n := mesh.vertexCount;
      var resized := ResizeActive(t, mesh.Arrays(), n);
      mesh.doubleVals, mesh.vectorVals, mesh.pointVals := resized.doubles, resized.vectors, resized.points;
      WriteSamples(mesh, source, positions, closest, norm);
      mesh.AssignWeights();
      ok := true;
    }
  }

  /** The vertex loop of `transfer_weights`: destination vertex `k` is sampled and its
      sample stored at index `k`, in increasing `k`. */
  method WriteSamples(mesh: WeightedMesh, source: WeightsSource, positions: seq<Vec3>, closest: Vec3 -> ClosestPoint, norm: Norm)
    requires Supported(mesh.attrType) && mesh.ActiveLength() == |positions|
    requires source.Valid() && forall k :: 0 <= k < |positions| ==> source.Sampleable(closest(positions[k]))
    modifies mesh
    ensures mesh.attrType == old(mesh.attrType) && mesh.plug == old(mesh.plug)
    ensures mesh.vertexCount == old(mesh.vertexCount) && mesh.weightCount == old(mesh.weightCount)
    ensures mesh.isValid == old(mesh.isValid)
    ensures mesh.ActiveLength() == |positions|
    ensures forall k :: 0 <= k < |positions| ==>
      WeightOf(mesh.attrType, mesh.Arrays(), k) == Narrow(mesh.attrType, source.Sample(closest(positions[k]), norm))
    ensures mesh.attrType != DoubleArray ==> mesh.doubleVals == old(mesh.doubleVals)
    ensures mesh.attrType != VectorArray ==> mesh.vectorVals == old(mesh.vectorVals)
    ensures mesh.attrType != PointArray ==> mesh.pointVals == old(mesh.pointVals)
  {
    var t, n := mesh.attrType, |positions|;
    var weights := new real[4];
    var index := 0;
    while index < n
      invariant 0 <= index <= n
      invariant mesh.attrType == t && mesh.plug == old(mesh.plug)
      invariant mesh.vertexCount == old(mesh.vertexCount) && mesh.weightCount == old(mesh.weightCount)
      invariant mesh.isValid == old(mesh.isValid)
      invariant mesh.ActiveLength() == n
      invariant forall k :: 0 <= k < index ==>
        WeightOf(t, mesh.Arrays(), k) == Narrow(t, source.Sample(closest(positions[k]), norm))
      invariant t != DoubleArray ==> mesh.doubleVals == old(mesh.doubleVals)
      invariant t != VectorArray ==> mesh.vectorVals == old(mesh.vectorVals)
      invariant t != PointArray ==> mesh.pointVals == old(mesh.pointVals)
    {
      var hit := closest(positions[index]);
      ghost var before := mesh.Arrays();
      WriteSample(mesh, source, hit, index, norm, weights);
      TransferStep(t, before, index, source.Sample(hit, norm));
      index := index + 1;
    }
  }

  /** One iteration of the transfer loop: `sample_mesh` into the scratch weights, then
      `set_weight` at `index`. */
  method WriteSample(mesh: WeightedMesh, source: WeightsSource, hit: ClosestPoint, index: nat, norm: Norm, weights: array<real>)
    requires source.Valid() && source.Sampleable(hit) && weights.Length == 4
    modifies mesh, weights
    ensures mesh.Arrays() == StoreAt(old(mesh.attrType), old(mesh.Arrays()), index, source.Sample(hit, norm))
    ensures mesh.attrType == old(mesh.attrType) && mesh.plug == old(mesh.plug)
    ensures mesh.vertexCount == old(mesh.vertexCount) && mesh.weightCount == old(mesh.weightCount)
    ensures mesh.isValid == old(mesh.isValid)
  {
    source.SampleMesh(hit, norm, weights);
    mesh.SetWeight(index, weights[..]);
  }

  /** One write of the transfer loop: the new index reads back its narrowed sample and
      the indices already written keep theirs. */
  lemma TransferStep(t: AttrType, a: WeightArrays, index: nat, w: Weights4)
    requires Supported(t) && index < ActiveLen(t, a)
    ensures WeightOf(t, StoreAt(t, a, index, w), index) == Narrow(t, w)
    ensures forall k :: 0 <= k < index ==> WeightOf(t, StoreAt(t, a, index, w), k) == WeightOf(t, a, k)
  {
    GetAfterSet(t, a, index, w, index);
    forall k | 0 <= k < index
      ensures WeightOf(t, StoreAt(t, a, index, w), k) == WeightOf(t, a, k)
    {
      GetAfterSet(t, a, index, w, k);
    }
  }
}
