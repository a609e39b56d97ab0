/** A mesh and its per-vertex weight attribute (weightedMesh.cpp, `WeightedMesh`). The
    host's mesh node and attribute plug are reduced to what the class reads from them:
    the vertex count, the attribute's data type and the array stored on the plug. */
module MeshWeights {
  import opened Vectors
  import opened Triangles

  /** The attribute data types the class distinguishes (MFnData::Type). */
  datatype AttrType = DoubleArray | VectorArray | PointArray | OtherType

  /** The three array types the class can read and write weights from. */
  predicate Supported(t: AttrType) {
    t != OtherType
  }

  /** A homogeneous point (MPoint): four channels. */
  datatype Point4 = Point4(x: real, y: real, z: real, w: real)

  /** The array stored on the weight plug. */
  datatype PlugData =
    | DoubleData(doubles: seq<real>)
    | VectorData(vectors: seq<Vec3>)
    | PointData(points: seq<Point4>)
    | NoData

  /** A typed attribute holds data of its own type. */
  predicate Matches(t: AttrType, plug: PlugData) {
    match t
    case DoubleArray => plug.DoubleData?
    case VectorArray => plug.VectorData?
    case PointArray => plug.PointData?
    case OtherType => true
  }

  /** The outcome of looking up the weight attribute by name on the mesh node. */
  datatype AttrLookup =
    | NotFound
    | Untyped
    | Typed(attrType: AttrType, data: PlugData)

  /** The class's three weight arrays taken together. */
  datatype WeightArrays = WeightArrays(doubles: seq<real>, vectors: seq<Vec3>, points: seq<Point4>)

  /** The arrays `retrieve_weights` leaves: all three cleared, then the one of the
      attribute's type loaded from the plug. */
  function Load(t: AttrType, plug: PlugData): (a: WeightArrays)
    requires Matches(t, plug)
    ensures t != DoubleArray ==> a.doubles == []
    ensures t != VectorArray ==> a.vectors == []
    ensures t != PointArray ==> a.points == []
  {
    match t
    case DoubleArray => WeightArrays(plug.doubles, [], [])
    case VectorArray => WeightArrays([], plug.vectors, [])
    case PointArray => WeightArrays([], [], plug.points)
    case OtherType => WeightArrays([], [], [])
  }

  /** The plug data `assign_weights` creates from the array of the attribute's type. */
  function Store(t: AttrType, a: WeightArrays): (plug: PlugData)
    requires Supported(t)
    ensures Matches(t, plug)
  {
    match t
    case DoubleArray => DoubleData(a.doubles)
    case VectorArray => VectorData(a.vectors)
    case PointArray => PointData(a.points)
  }

  /** Only the array of the attribute's type is in use. */
  predicate OnlyActive(t: AttrType, a: WeightArrays) {
    && (t != DoubleArray ==> a.doubles == [])
    && (t != VectorArray ==> a.vectors == [])
    && (t != PointArray ==> a.points == [])
  }

  /** Writing the arrays back and reading them again gives the same arrays. */
  lemma RetrieveAfterAssign(t: AttrType, a: WeightArrays)
    requires Supported(t) && OnlyActive(t, a)
    ensures Load(t, Store(t, a)) == a
  {
  }

  /** Reading the plug and writing it straight back leaves the plug as it was. */
  lemma AssignAfterRetrieve(t: AttrType, plug: PlugData)
    requires Supported(t) && Matches(t, plug)
    ensures Store(t, Load(t, plug)) == plug
  {
  }

  /** The four channels `get_weight` reports after `set_weight` stored `w`: a double
      array keeps channel 0 and `get_weight` broadcasts it, a vector array keeps three
      channels and reads the fourth back as 0, a point array keeps all four. */
  function Narrow(t: AttrType, w: Weights4): Weights4
    requires Supported(t)
  {
    match t
    case DoubleArray => [w[0], w[0], w[0], w[0]]
    case VectorArray => [w[0], w[1], w[2], 0.0]
    case PointArray => w
  }

  /** Storing what was read back changes nothing more. */
  lemma NarrowIdempotent(t: AttrType, w: Weights4)
    requires Supported(t)
    ensures Narrow(t, Narrow(t, w)) == Narrow(t, w)
  {
  }

  /** The length of the array of the attribute's type (none for an unsupported type). */
  function ActiveLen(t: AttrType, a: WeightArrays): nat {
    match t
    case DoubleArray => |a.doubles|
    case VectorArray => |a.vectors|
    case PointArray => |a.points|
    case OtherType => 0
  }

  /** `get_weight`: the stored value at `index` as four channels: a double is broadcast
      to all four, a vector gives (x, y, z, 0), a point (x, y, z, w). The source returns
      unset channels for any other type, so a supported type is required. */
  function WeightOf(t: AttrType, a: WeightArrays, index: nat): (w: Weights4)
    requires Supported(t) && index < ActiveLen(t, a)
    ensures w == Narrow(t, w)
    ensures t == DoubleArray ==> w[0] == a.doubles[index]
    ensures t == VectorArray ==>
      w[0] == a.vectors[index].x && w[1] == a.vectors[index].y && w[2] == a.vectors[index].z
    ensures t == PointArray ==>
      w[0] == a.points[index].x && w[1] == a.points[index].y &&
      w[2] == a.points[index].z && w[3] == a.points[index].w
  {
    match t
    case DoubleArray =>
      var d := a.doubles[index];
      [d, d, d, d]
    case VectorArray =>
      var v := a.vectors[index];
      [v.x, v.y, v.z, 0.0]
    case PointArray =>
      var p := a.points[index];
      [p.x, p.y, p.z, p.w]
  }

  /** The arrays after `set_weight` stores `w` at `index`: channel 0 into a double array,
      channels 0-2 into a vector array, all four into a point array. The host array's
      `set` refuses an index past its end, and nothing is stored for an unsupported
      type. */
  function StoreAt(t: AttrType, a: WeightArrays, index: nat, w: Weights4): (r: WeightArrays)
    ensures ActiveLen(t, r) == ActiveLen(t, a)
    ensures t != DoubleArray ==> r.doubles == a.doubles
    ensures t != VectorArray ==> r.vectors == a.vectors
    ensures t != PointArray ==> r.points == a.points
  {
    match t
    case DoubleArray =>
      if index < |a.doubles| then a.(doubles := a.doubles[index := w[0]]) else a
    case VectorArray =>
      if index < |a.vectors| then a.(vectors := a.vectors[index := Vec3(w[0], w[1], w[2])]) else a
    case PointArray =>
      if index < |a.points| then a.(points := a.points[index := Point4(w[0], w[1], w[2], w[3])]) else a
    case OtherType => a
  }

  /** The arity round trip: after `set_weight(index, w)`, `get_weight(index)` reads back
      `w` narrowed to the attribute's arity (the identity for a point array), and every
      other index reads back what it held before. */
  lemma GetAfterSet(t: AttrType, a: WeightArrays, index: nat, w: Weights4, j: nat)
    requires Supported(t) && j < ActiveLen(t, a)
    ensures j == index ==> WeightOf(t, StoreAt(t, a, index, w), j) == Narrow(t, w)
    ensures j != index ==> WeightOf(t, StoreAt(t, a, index, w), j) == WeightOf(t, a, j)
  {
  }

  /** `WeightedMesh`: the mesh's vertex count, the weight attribute's type and plug,
      and the three weight arrays of which the one of the attribute's type is used. */
  class WeightedMesh {
    var attrType: AttrType
    var plug: PlugData
    var vertexCount: nat
    var weightCount: nat
    var isValid: bool
    var doubleVals: seq<real>
    var vectorVals: seq<Vec3>
    var pointVals: seq<Point4>

    /** The plug holds data of the attribute's type. */
    predicate Valid()
      reads this
    {
      Matches(attrType, plug)
    }

    function Arrays(): WeightArrays
      reads this
    {
      WeightArrays(doubleVals, vectorVals, pointVals)
    }

    function ActiveLength(): nat
      reads this
    {
      ActiveLen(attrType, Arrays())
    }

    /** `WeightedMesh()`: not valid, no vertices, no weights. The source leaves the
        attribute type unset; here it starts as a type the class does not support. */
    constructor()
      ensures Valid()
      ensures !isValid && vertexCount == 0 && weightCount == 0
      ensures attrType == OtherType && plug == NoData && Arrays() == WeightArrays([], [], [])
    {
      attrType := OtherType;
      plug := NoData;
      vertexCount := 0;
      weightCount := 0;
      isValid := false;
      doubleVals, vectorVals, pointVals := [], [], [];
    }

    /** `set_mesh`: the vertex count is read from the mesh function set whether or not
        attaching it succeeded; the status is returned. */
    method SetMesh(attached: bool, numVertices: nat) returns (ok: bool)
      modifies this
      ensures ok == attached
      ensures vertexCount == numVertices
      ensures attrType == old(attrType) && plug == old(plug) && weightCount == old(weightCount)
      ensures isValid == old(isValid) && Arrays() == old(Arrays())
    {
      vertexCount := numVertices;
      ok := attached;
    }

    /** `set_weight_attribute`: a missing plug or an untyped attribute fails and leaves
        the type as it was; a typed attribute sets the type and plug, and succeeds only
        for the three supported array types. */
    method SetWeightAttribute(lookup: AttrLookup) returns (ok: bool)
      requires lookup.Typed? ==> Matches(lookup.attrType, lookup.data)
      requires Valid()
      modifies this
      ensures Valid()
      ensures ok <==> lookup.Typed? && Supported(lookup.attrType)
      ensures lookup.Typed? ==> attrType == lookup.attrType && plug == lookup.data
      ensures !lookup.Typed? ==> attrType == old(attrType) && plug == old(plug)
      ensures ok ==> Supported(attrType)
      ensures vertexCount == old(vertexCount) && weightCount == old(weightCount)
      ensures isValid == old(isValid) && Arrays() == old(Arrays())
    {
      match lookup
      case NotFound =>
        ok := false;
      case Untyped =>
        ok := false;
      case Typed(t, data) =>
        attrType := t;
        plug := data;
        ok := Supported(t);
    }

    /** `retrieve_weights`: clears the three arrays, loads the one of the attribute's
        type from the plug and records its length as the weight count. */
    method RetrieveWeights()
      requires Valid()
      modifies this
      ensures Valid()
      ensures Arrays() == Load(attrType, plug)
      ensures weightCount == if Supported(attrType) then ActiveLength() else old(weightCount)
      ensures attrType == old(attrType) && plug == old(plug)
      ensures vertexCount == old(vertexCount) && isValid == old(isValid)
    {
      doubleVals, vectorVals, pointVals := [], [], [];
      match attrType
      case DoubleArray =>
        doubleVals := plug.doubles;
        weightCount := |doubleVals|;
      case VectorArray =>
        vectorVals := plug.vectors;
        weightCount := |vectorVals|;
      case PointArray =>
        pointVals := plug.points;
        weightCount := |pointVals|;
      case OtherType =>
    }

    /** `assign_weights`: writes the array of the attribute's type back to the plug. For
        an unsupported type no data object is created and the plug is set to the empty
        one. */
    method AssignWeights()
      requires Valid()
      modifies this
      ensures Valid()
      ensures plug == if Supported(attrType) then Store(attrType, Arrays()) else NoData
      ensures attrType == old(attrType) && Arrays() == old(Arrays())
      ensures vertexCount == old(vertexCount) && weightCount == old(weightCount)
      ensures isValid == old(isValid)
    {
      if Supported(attrType) {
        plug := Store(attrType, Arrays());
      } else {
        plug := NoData;
      }
    }

    /** `get_weight`. */
    function GetWeight(index: nat): Weights4
      requires Supported(attrType) && index < ActiveLength()
      reads this
    {
      WeightOf(attrType, Arrays(), index)
    }

    /** `set_weight`: stores channel 0, channels 0-2 or all four channels of `w` at
        `index` in the array of the attribute's type. The host array's `set` refuses an
        index past its end, and nothing is stored for an unsupported type. */
    method SetWeight(index: nat, w: Weights4)
      modifies this
      ensures Arrays() == StoreAt(attrType, old(Arrays()), index, w)
      ensures attrType == old(attrType) && plug == old(plug)
      ensures vertexCount == old(vertexCount) && weightCount == old(weightCount)
      ensures isValid == old(isValid)
    {
      match attrType
      case DoubleArray =>
        if index < |doubleVals| {
          doubleVals := doubleVals[index := w[0]];
        }
      case VectorArray =>
        if index < |vectorVals| {
          vectorVals := vectorVals[index := Vec3(w[0], w[1], w[2])];
        }
      case PointArray =>
        if index < |pointVals| {
          pointVals := pointVals[index := Point4(w[0], w[1], w[2], w[3])];
        }
      case OtherType =>
    }
  }
}
