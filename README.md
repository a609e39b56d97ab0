# WeightTransferTool resampling engine in Dafny

WeightTransferTool is a Maya command. It copies a per-vertex weight attribute from a source mesh to a destination mesh. For each destination vertex it finds the closest point on the source surface and samples the source weights there. This project models the geometric engine under the plug-in and proves properties of it:

- **Triangle geometry** (`WeightedTriangle`, module `Triangles`):
  - `set_vertices` derives the centroid, the normal, twice the area, the major axis and the 2D projections;
  - `project_to_2d` drops the major-axis coordinate;
  - point-in-triangle is decided two ways. The crossing-number test `point_is_inside` is built on `edge_crosses_x_axis` and `simple_sign` (module `EdgeTest`). The barycentric test is `point_is_inside_bary` over `get_bary_coords`;
  - `sample_weights` blends four weight channels barycentrically.
- **Polygon dispatch** (`WeightedPolygon`, module `Polygons`):
  - `update_triangles` splits a flat triangle-index stream into triangles and gathers a duplicate-free vertex list with `append_if_unique`;
  - `get_matching_vertex` is a first-match scan with tolerance EPSILON = 1e-5;
  - `get_intersected_triangle` is a two-pass first-match scan that falls back to triangle 0.
- **Weighted mesh** (`WeightedMesh`, module `MeshWeights`):
  - the attribute-type switch;
  - loading and storing the weight array of the attribute's type;
  - `get_weight`/`set_weight`, which convert between 1-, 3- and 4-channel attributes and a uniform 4-slot weight.
- **Source and destination** (`WeightsSource`, `WeightsDestination`, module `Transfer`):
  - the source constructor runs its checks in a fixed order, fills the vertex arena and lays out the per-polygon offsets into the triangle stream;
  - `sample_mesh` dispatches to the vertex path or the triangle path;
  - `transfer_weights` resizes the destination array, writes every vertex in order and writes the array back.

Modelling choices:

- Coordinates are `real`, so the arithmetic is exact.
- Vector length (`MVector::length`, normalisation) is a parameter `norm: Vec3 -> real`. Lemmas that need Euclidean facts require them at the vectors concerned (`Vectors.EuclideanAt`).
- Vertices live in an arena: a `seq<Vertex>`, or an `array<Vertex>` in the source class. Triangles and polygons hold `nat` indices into it where the C++ holds pointers.
- The closest-point search and the world transform are an input: a `ClosestPoint(face, point)`, or a function from sample positions to one.

A triangle's own vertex need not pass `point_is_inside`: the test counts crossings of the positive X half-axis from the sample point, and from a vertex none may cross. `Triangles.FastTestCanMissOwnVertex` and `Triangles.ExampleMajorAxis` show it for the triangle (0,0,0), (1,1,0), (-1,1,0). The barycentric test does accept own vertices (`Triangles.OwnVerticesByBarycentrics`), so `get_intersected_triangle` never reaches its fallback at a vertex of one of its triangles (`Polygons.NoFallbackAtOwnVertex`).

## Model

| member | source | states |
|---|---|---|
| EdgeTest.EdgeCrossesXAxis | weightedMesh.cpp:7-34 | an edge lying on the X-axis crosses iff one endpoint has x > 0; endpoints with the same `simple_sign` of y never cross |
| EdgeTest.SimpleSign | weightedMesh.cpp:37-40 | reference definition: zero and positive numbers; EdgeCrossingIsInterceptTest and StraddlingEdge use it as the side of the X-axis |
| EdgeTest.EdgeCrossingIsInterceptTest | weightedMesh.cpp:7-40 | for an edge not on the X-axis, the case analysis (including the early exits on the signs of x) equals the reference rule "y signs differ and the x-intercept is non-negative" |
| EdgeTest.InterceptForms | weightedMesh.cpp:29-30 | the source's `p0.x - inv_slope * p0.y` is the symmetric x-intercept |
| EdgeTest.EdgeCrossingSymmetric | weightedMesh.cpp:7-34 | swapping the endpoints of an edge does not change the decision |
| EdgeTest.StraddlingEdge | weightedMesh.cpp:12-33 | for endpoints on opposite sides, crossing iff the 2D cross product has the sign of the y-travel (or is zero) |
| EdgeTest.CrossingCount | weightedMesh.cpp:420-426 | reference definition: the number of the edges (v0,v1), (v1,v2), (v0,v2) that cross, in the source's order; its values are fixed by CentroidCrossesOnce and NoCrossingAbove |
| EdgeTest.CentroidCrossesOnce | weightedMesh.cpp:408-430 | from the centroid of a triangle with non-zero projected area exactly one edge crosses |
| Vectors.SquareRootUnique | weightedMesh.cpp:360 | two non-negative reals with equal squares are equal (used for lengths) |
| Vectors.NormOfNegation | weightedMesh.cpp:360-361 | a Euclidean length gives the negated vector the same length |
| Vectors.NormOfZero | weightedMesh.cpp:437 | a Euclidean length is 0 on the zero vector |
| Triangles.EqualsPosition | weightedMesh.cpp:512-520 | a match implies that each coordinate differs by strictly less than EPSILON |
| Triangles.EqualsPositionReflexiveSymmetric | weightedMesh.cpp:512-520 | a vertex matches its own position, and matching is symmetric between two vertices |
| Triangles.CopyWeights | weightedMesh.cpp:523-526 | the four output slots are exactly the vertex's weights |
| Triangles.MajorAxisIsLargest | weightedMesh.cpp:367-385 | the axis is X iff abs nx > abs ny and abs nx > abs nz; Y iff not X and abs ny > abs nz; ties go to Z; the chosen component has the largest magnitude |
| Triangles.MajorAxisOf | weightedMesh.cpp:367-385 | reference definition of the axis choice; MajorAxisIsLargest and MajorAxisScaleInvariant state its properties |
| Triangles.MajorAxisScaleInvariant | weightedMesh.cpp:360-385 | dividing the normal by a positive length does not change the major axis |
| Triangles.ProjectionDropsOnlyMajorAxis | weightedMesh.cpp:490-509 | two points project alike iff they agree on both coordinates other than the major axis |
| Triangles.ProjectTo2d | weightedMesh.cpp:490-509 | reference definition: X keeps (y,z), Y keeps (x,z), Z keeps (x,y); ProjectionDropsOnlyMajorAxis and ProjectedArea state its properties |
| Triangles.SetVertices | weightedMesh.cpp:334-346 | the triangle keeps the three vertex indices, all inside the arena |
| Triangles.SetVerticesGeometry | weightedMesh.cpp:349-390 | three times the centroid is the sum of the vertices; twice the area is the length of the raw normal; the axis is the raw normal's major axis; each vertex is projected onto it |
| Triangles.SetVerticesNormal | weightedMesh.cpp:357-361 | the stored normal times twice the area is the raw cross product |
| Triangles.ScaleDivBy | weightedMesh.cpp:361 | dividing by a non-zero length and multiplying back is the identity |
| Triangles.PointIsInside | weightedMesh.cpp:408-430 | a point that is not on the triangle's plane is never inside |
| Triangles.PointIsOnPlane | weightedMesh.cpp:433-444 | reference definition of the cosine test over `norm`; CentroidIsInside proves the centroid is on the plane |
| Triangles.CrossingsFrom | weightedMesh.cpp:412-426 | reference definition: the crossing count of the projected vertices translated by the projected sample point; EvenCrossingsRejected and FastTestCanMissOwnVertex state its consequences |
| Triangles.EvenCrossingsRejected | weightedMesh.cpp:428-429 | zero or two crossings mean outside |
| Triangles.CentroidIsInside | weightedMesh.cpp:349-430 | the centroid of a non-degenerate triangle passes the fast test |
| Triangles.CentroidProjection | weightedMesh.cpp:349-417 | seen from the centroid the projected vertices sum to zero, and their doubled signed area is the normal's component on the dropped axis (negated for Y) |
| Triangles.FastTestCanMissOwnVertex | weightedMesh.cpp:408-430 | for the triangle (0,0), (1,1), (-1,1) projected on Z, no edge crosses from vertex v0, so the fast test rejects a vertex of its own triangle |
| Triangles.NoCrossingAbove | weightedMesh.cpp:7-34 | the crossing count of that example is 0 |
| Triangles.ExampleRawNormal | weightedMesh.cpp:357-358 | the example triangle's raw normal is (0,0,2) |
| Triangles.ExampleMajorAxis | weightedMesh.cpp:367-385 | the example triangle's major axis is Z |
| Triangles.UpwardNormalAxis | weightedMesh.cpp:367-385 | the normal (0,0,2) has major axis Z |
| Triangles.ExampleIsNonDegenerate | weightedMesh.cpp:357-361 | the example triangle has non-zero area under a Euclidean length |
| Triangles.BaryCoords | weightedMesh.cpp:455-487 | normalised coordinates sum to exactly 1 |
| Triangles.NormalizedFromRaw | weightedMesh.cpp:474-479 | the normalised coordinates keep x and y of the raw ones and set z to 1 - (x + y) |
| Triangles.BaryAtVertex0 | weightedMesh.cpp:455-487 | at vertex v0 the raw coordinates are (1,0,0) |
| Triangles.BaryAtVertex1 | weightedMesh.cpp:455-487 | at vertex v1 the raw coordinates are (0,1,0) |
| Triangles.BaryAtVertex2 | weightedMesh.cpp:455-487 | at vertex v2 the raw coordinates are (0,0,1) |
| Triangles.OwnVerticesByBarycentrics | weightedMesh.cpp:447-452 | each of a non-degenerate triangle's own vertices passes the barycentric test |
| Triangles.PointIsInsideBary | weightedMesh.cpp:447-452 | reference definition: the raw coordinates sum to 1 within EPSILON; OwnVerticesByBarycentrics proves it at the triangle's vertices |
| Triangles.Blend | weightedMesh.cpp:399-404 | with coordinates summing to 1, a channel value shared by the three weights is kept; BlendAtUnit gives the unit coordinates |
| Triangles.SampleWeights | weightedMesh.cpp:394-405 | the four output slots are the blend of the vertex weights at the normalised coordinates of the sample |
| Triangles.SampledWeights | weightedMesh.cpp:394-405 | reference definition of `sample_weights`: the blend at the normalised coordinates; SampleWeights computes it and SampleReproducesSharedChannel states its shared-channel property |
| Triangles.SampleReproducesSharedChannel | weightedMesh.cpp:394-405 | a channel value shared by the three vertices is reproduced exactly |
| Triangles.BlendAtUnit | weightedMesh.cpp:399-404 | blending at a unit coordinate returns that vertex's weights |
| Triangles.ProjectedArea | weightedMesh.cpp:388-390 | the 2D cross product of the projected edges is the normal's component on the dropped axis (negated for Y) |
| Triangles.MajorComponentNonZero | weightedMesh.cpp:367-385 | a normal of non-zero Euclidean length has a non-zero major component |
| Polygons.AppendIfUnique | weightedMesh.cpp:43-50 | appends iff the value is absent, and the result contains the value |
| Polygons.WithUnique | weightedMesh.cpp:43-50 | the value is in the result |
| Polygons.Dedup | weightedMesh.cpp:260-276 | the gathered list is no longer than the stream |
| Polygons.DedupMembers | weightedMesh.cpp:260-276 | the gathered list has exactly the stream's members |
| Polygons.DedupDistinct | weightedMesh.cpp:43-50 | the gathered list has no duplicates |
| Polygons.FirstIndex | weightedMesh.cpp:260-276 | the first position of x in the stream |
| Polygons.FirstIndexSnoc | weightedMesh.cpp:260-276 | extending the stream keeps the first position of a present value |
| Polygons.DedupFirstSeen | weightedMesh.cpp:260-281 | the gathered list is in first-seen order |
| Polygons.GatheredIsDedup | weightedMesh.cpp:260-276 | the loop's gathering over the stream slice equals the first-seen deduplication of the slice |
| Polygons.Gathered | weightedMesh.cpp:260-281 | reference definition of the list `append_if_unique` has built after a stretch of the stream; GatheredIsDedup equates it with Dedup |
| Polygons.StreamTriangle | weightedMesh.cpp:262-274 | triangle i uses stream entries start+3i, start+3i+1 and start+3i+2 |
| Polygons.TrianglesOf | weightedMesh.cpp:260-276 | exactly `triangle_count` triangles |
| Polygons.TrianglesOfIndex | weightedMesh.cpp:260-276 | triangle i is the triangle of the i-th stream triple |
| Polygons.PolygonOf | weightedMesh.cpp:246-282 | the polygon keeps its face index and has `triangle_count` triangles |
| Polygons.UpdateTriangles | weightedMesh.cpp:246-282 | the method builds exactly the polygon `PolygonOf` describes |
| Polygons.SplitTriangles | weightedMesh.cpp:260-276 | the loop builds the triangles of the stream and gathers the distinct indices of its 3·count entries |
| Polygons.OfferCorners | weightedMesh.cpp:266-268 | offering a triangle's three corners extends the gathering by one triple |
| Polygons.NextTriangle | weightedMesh.cpp:262-275 | one iteration extends the triangle list by the next stream triangle |
| Polygons.ListVertices | weightedMesh.cpp:278-281 | the vertex list is the gathered list |
| Polygons.PolygonVertsDistinct | weightedMesh.cpp:278-281 | the polygon's vertex list has no duplicates and at most 3·count entries |
| Polygons.PolygonVertsCoverTriangles | weightedMesh.cpp:260-281 | every vertex of every triangle is in the vertex list |
| Polygons.PolygonVertsFromStream | weightedMesh.cpp:260-281 | every listed vertex occurs in the polygon's stream slice |
| Polygons.PolygonVertsFirstSeen | weightedMesh.cpp:260-281 | the vertex list is in first-seen order of the stream slice |
| Polygons.PolygonInArena | weightedMesh.cpp:246-282 | the polygon's vertices and triangles refer only to arena vertices |
| Polygons.MatchingVertexFrom | weightedMesh.cpp:285-291 | the result is the first listed vertex within EPSILON of the point; none means no listed vertex matches |
| Polygons.MatchingVertex | weightedMesh.cpp:285-291 | the first listed vertex within EPSILON of the point, and none iff no listed vertex matches |
| Polygons.GetMatchingVertex | weightedMesh.cpp:285-291 | the loop returns the first matching vertex, or none |
| Polygons.FirstPassingFrom | weightedMesh.cpp:298-307 | the result is the lowest-index triangle passing the test; none means no triangle passes |
| Polygons.IntersectedTriangle | weightedMesh.cpp:294-313 | the chosen index is always a valid triangle |
| Polygons.IntersectedTriangleChoice | weightedMesh.cpp:294-313 | lowest fast-test pass first; only if there is none, lowest barycentric pass; the fallback is flagged iff neither test passes anywhere, and then the index is 0 |
| Polygons.GetIntersectedTriangle | weightedMesh.cpp:294-313 | the two loops return the choice `IntersectedTriangle` describes |
| Polygons.NoFallbackAtOwnVertex | weightedMesh.cpp:294-313 | at a vertex of one of the polygon's triangles the fallback is never taken |
| MeshWeights.Load | weightedMesh.cpp:172-202 | only the array of the attribute's type is filled |
| MeshWeights.Store | weightedMesh.cpp:205-228 | the plug receives data of the attribute's type |
| MeshWeights.RetrieveAfterAssign | weightedMesh.cpp:172-228 | reading back what was written gives the same arrays |
| MeshWeights.AssignAfterRetrieve | weightedMesh.cpp:172-228 | writing back what was read gives the same plug |
| MeshWeights.Narrow | weightedMesh.cpp:111-169 | reference definition of what `get_weight` reads back after `set_weight`: GetAfterSet proves the round trip, NarrowIdempotent that a read-back weight is stored unchanged |
| MeshWeights.NarrowIdempotent | weightedMesh.cpp:111-169 | narrowing twice is narrowing once |
| MeshWeights.WeightOf | weightedMesh.cpp:111-148 | `get_weight` copies a double into all four slots, a vector as (x, y, z, 0), a point as (x, y, z, w) |
| MeshWeights.StoreAt | weightedMesh.cpp:151-169 | `set_weight` keeps the active length and leaves the other arrays alone |
| MeshWeights.GetAfterSet | weightedMesh.cpp:111-169 | reading the written index gives the narrowed weight; every other index is unchanged |
| MeshWeights.WeightedMesh.constructor | weightedMesh.cpp:53-59 | not valid, no vertices, no weights, empty arrays |
| MeshWeights.WeightedMesh.SetMesh | weightedMesh.cpp:62-69 | returns the attach status and records the vertex count; nothing else changes |
| MeshWeights.WeightedMesh.SetWeightAttribute | weightedMesh.cpp:72-108 | succeeds iff the attribute is typed with one of the three supported array types; a typed attribute sets type and plug |
| MeshWeights.WeightedMesh.RetrieveWeights | weightedMesh.cpp:172-202 | the arrays become the plug's data and the weight count its length |
| MeshWeights.WeightedMesh.AssignWeights | weightedMesh.cpp:205-228 | the plug becomes the active array, or the empty data for an unsupported type |
| MeshWeights.WeightedMesh.SetWeight | weightedMesh.cpp:151-169 | the arrays are updated as `StoreAt` describes; nothing else changes |
| MeshWeights.WeightedMesh.GetWeight | weightedMesh.cpp:111-148 | reference definition: WeightOf on the mesh's arrays; TransferWeights states its values after a transfer |
| Transfer.SourceCheck | weightTransfer.cpp:98-120 | the first failing check of the fixed order is reported, and none iff all four pass |
| Transfer.UnsupportedAttributeIsCountMismatch | weightTransfer.cpp:92-112 | an attribute that is missing or of an unsupported type leaves no weights, so the constructor reports zero vertices or a count mismatch, never an invalid attribute |
| Transfer.OffsetsOrdered | weightTransfer.cpp:157-167 | polygon i's stream slice ends at or before polygon j's starts, for i < j |
| Transfer.Offset | weightTransfer.cpp:157-167 | reference definition: the sum of 3·count over the earlier faces; OffsetsOrdered and PolygonsUpToIndex state its use |
| Transfer.SourcePolygons | weightTransfer.cpp:157-167 | one polygon per face |
| Transfer.PolygonsUpTo | weightTransfer.cpp:157-167 | the first n polygons |
| Transfer.PolygonsUpToIndex | weightTransfer.cpp:157-167 | polygon i is built with face index i from the stream offset that sums 3·count over the earlier faces |
| Transfer.SourceArena | weightTransfer.cpp:141-154 | one vertex per position |
| Transfer.SampleAtListedVertex | weightTransfer.cpp:182-187 | at a listed vertex's position the vertex path returns the weights of a matching listed vertex no later in the list |
| Transfer.SampleReproducesConstantChannel | weightTransfer.cpp:171-192 | a channel constant over the source is sampled exactly on both paths |
| Transfer.SampleAt | weightTransfer.cpp:171-192 | reference definition of `sample_mesh` at a closest point; SampleAtListedVertex and SampleReproducesConstantChannel state its properties |
| Transfer.WeightsSource.constructor | weightTransfer.cpp:88-168 | valid iff all checks pass; then vertex k has position k and weight k, and polygon i is built from its offset; otherwise nothing is built |
| Transfer.WeightsSource.SampleMesh | weightTransfer.cpp:171-192 | the output is the matching vertex's weights, or else the blend in the chosen triangle |
| Transfer.WeightsSource.Sample | weightTransfer.cpp:171-192 | reference definition: SampleAt on the source's arena and the hit face's polygon; SampleMesh writes it |
| Transfer.FillVertices | weightTransfer.cpp:141-154 | the arena is the positions paired with the weights, in order |
| Transfer.FillPolygons | weightTransfer.cpp:157-167 | the polygon array is the one `SourcePolygons` describes |
| Transfer.SourcePolygon | weightTransfer.cpp:161-166 | the polygon built at offset `start_index` is face i's |
| Transfer.SourcePolygonsInArena | weightTransfer.cpp:157-167 | every source polygon refers only to arena vertices |
| Transfer.Resize | weightTransfer.cpp:207-219 | the new length is n and the surviving prefix is kept |
| Transfer.ResizeActive | weightTransfer.cpp:207-219 | only the active array is resized, to n |
| Transfer.WeightsDestination.constructor | weightTransfer.cpp:195-202 | valid iff the mesh and the attribute both succeed |
| Transfer.WeightsDestination.TransferWeights | weightTransfer.cpp:205-241 | fails without writing iff the type is unsupported; otherwise every vertex k holds the narrowed sample at its closest point, and the plug holds the written array; the two inactive arrays keep their values |
| Transfer.WriteSamples | weightTransfer.cpp:227-235 | after the loop every index holds its narrowed sample, and the two inactive arrays are unchanged |
| Transfer.WriteSample | weightTransfer.cpp:229-234 | one vertex's sample is stored at its index |
| Transfer.TransferStep | weightTransfer.cpp:227-235 | storing at index k sets k and leaves the earlier indices alone |

## Left out

- Square roots: vector length and normalisation are the parameter `norm`. Facts about real lengths are required pointwise (`EuclideanAt`) rather than derived.
- Floating point: coordinates are exact reals. Tolerance behaviour is modelled only as the comparisons written against EPSILON.
- `point_is_on_plane`'s cosine test is modelled as written over `norm`. The only fact proved about it is that the centroid lies on the plane (CentroidIsInside). No geometric characterisation of the test is proved.
- Degenerate triangles: building a triangle requires non-zero area (`NonDegenerate`), because the source divides by `area_times_2`.
- Maya plumbing (`MFnMesh`, `MPlug`, iterators, `doIt`, selection, plug-in registration) is not part of this model. The plug lookup is the input `AttrLookup`, and the attach status and vertex count are inputs.
- The closest-point search (`MMeshIntersector`) and the world transform are an input: `closest` maps a sample position to a face and a point.
- Pointers are indices into an arena. Memory management (`new[]` without delete, destructors) is not modelled.
- Console output (`display_error`) is not modelled. The fallback of `get_intersected_triangle` is the returned `fallback` flag.
- Integer width: `unsigned` counters and offsets are `nat`. Wrap-around of `start_index` on streams longer than 2^32 is not modelled.
- Transfer.Resize: the fill value for new slots is a parameter. Maya's `setLength` fill value is left unspecified.
- An invalid `WeightsSource` holds empty vertex and polygon arrays. The source leaves its pointers unset.
- MeshWeights.WeightedMesh.constructor: the attribute type starts as `OtherType`, an unsupported type. The source leaves it uninitialised.
- MeshWeights.WeightOf: requires a supported attribute type. For other types the source returns a pointer to uninitialised memory.
- MeshWeights.WeightedMesh.GetWeight: carries no contract of its own. It is `WeightOf` on the mesh's arrays.
- MeshWeights.WeightedMesh.SetWeightAttribute: when the lookup fails (no such plug, or an untyped attribute), the plug keeps its old data. The source replaces the plug with the failed lookup's result. Both callers start from an empty plug, so nothing they observe differs.
- Triangles.EqualsPosition: its ensures states only that a match implies closeness. The converse holds by its body but is not stated.
- Transfer.WeightsSource.SampleMesh: requires the face to exist and to have at least one triangle, because the fallback reads triangle 0.
- Triangles.FastTestCanMissOwnVertex: stated on a triangle whose axis and projections are given. `ExampleMajorAxis` and `SetVerticesGeometry` tie those to the concrete arena.
- Transfer.WeightsDestination.TransferWeights: the order of the writes is captured only through the final state and the per-step lemma `TransferStep`.
- Status values (`MStatus`, `MCHECK_ERROR`) of host calls are booleans or inputs. Failure paths inside host calls are not modelled.
