/** The Axis actor: three unit line segments through the origin, one along
    each coordinate axis. */
module Axis {
  import opened Results
  import opened JsNumber
  import Meshes
  import opened Actors

  const VertexShader := ShaderStore("axis.vert.wgsl", AxisVert)
  const FragmentShader := ShaderStore("axis.frag.wgsl", AxisFrag)

  /** The six endpoints, three coordinates each: the y, x and z segments. */
  const Positions: seq<Number> := [
    Finite(0.0), Finite(-0.5), Finite(0.0),
    Finite(0.0), Finite(0.5), Finite(0.0),
    Finite(-0.5), Finite(0.0), Finite(0.0),
    Finite(0.5), Finite(0.0), Finite(0.0),
    Finite(0.0), Finite(0.0), Finite(-0.5),
    Finite(0.0), Finite(0.0), Finite(0.5)]

  const Indices: seq<U16> := [0, 1, 2, 3, 4, 5]

  /** The axis look every factory sets: axis shaders, a line list, back-face
      culling. */
  predicate AxisLook(a: Actor) {
    && a.vertexShader == VertexShader && a.fragmentShader == FragmentShader
    && a.topology == LineList && a.cullMode == CullBack
  }

  /** Coordinate c of vertex v of a mesh. */
  function Coord(m: Meshes.Mesh, v: nat, c: nat): Number
    requires 3 * v + c < |m.positions|
  {
    m.positions[3 * v + c]
  }

  /** Two finite numbers of opposite sign (or both zero). */
  predicate Negates(x: Number, y: Number) {
    x.Finite? && y.Finite? && y.value == -x.value
  }

  /** Line segment s of a line-list mesh runs from vertex `indices[2s]` to
      vertex `indices[2s + 1]`.  It is symmetric about the origin and lies on
      coordinate axis `axis` when its endpoints are negatives of each other
      and the first endpoint is nonzero in exactly that coordinate. */
  predicate SymmetricOnAxis(m: Meshes.Mesh, s: nat, axis: nat)
    requires 2 * s + 1 < |m.indices|
    requires 3 * m.indices[2 * s] + 2 < |m.positions| && 3 * m.indices[2 * s + 1] + 2 < |m.positions|
  {
    var p, q := m.indices[2 * s], m.indices[2 * s + 1];
    && Negates(Coord(m, p, 0), Coord(m, q, 0))
    && Negates(Coord(m, p, 1), Coord(m, q, 1))
    && Negates(Coord(m, p, 2), Coord(m, q, 2))
    && (Coord(m, p, 0).value != 0.0 <==> axis == 0)
    && (Coord(m, p, 1).value != 0.0 <==> axis == 1)
    && (Coord(m, p, 2).value != 0.0 <==> axis == 2)
  }

  /** The axis of segment s: y, then x, then z. */
  function SegmentAxis(s: nat): nat {
    if s == 0 then 1 else if s == 1 then 0 else 2
  }

  /** The mesh `Axis.new()` builds. */
  const AxisMesh: Meshes.Mesh := Meshes.NewMesh(Positions, [], [], Indices)

  lemma AxisMeshShape()
    ensures |AxisMesh.positions| == 18 && |AxisMesh.indices| == 6
    ensures forall k :: 0 <= k < |AxisMesh.indices| ==> AxisMesh.indices[k] < 6
    ensures forall s :: 0 <= s < 3 ==> SymmetricOnAxis(AxisMesh, s, SegmentAxis(s))
  {
    AxisMeshData();
    forall s | 0 <= s < 3 ensures SymmetricOnAxis(AxisMesh, s, SegmentAxis(s)) {
      if s == 0 {
        SegmentY();
      } else if s == 1 {
        SegmentX();
      } else {
        SegmentZ();
      }
    }
  }

  lemma AxisMeshData()
    ensures AxisMesh.positions == Positions && AxisMesh.indices == Indices
  {
  }

  lemma SegmentY()
    ensures SymmetricOnAxis(AxisMesh, 0, 1)
  {
    AxisMeshData();
  }

  lemma SegmentX()
    ensures SymmetricOnAxis(AxisMesh, 1, 0)
  {
    AxisMeshData();
  }

  lemma SegmentZ()
    ensures SymmetricOnAxis(AxisMesh, 2, 2)
  {
    AxisMeshData();
  }

  /** `Axis.new()`: the fixed six-vertex line mesh with identity model
      matrix and no transform.  Every index names one of the six vertices,
      the index count is even so the indices pair up into three segments,
      and segment s is the symmetric unit segment on axis SegmentAxis(s), so
      each axis is drawn once. */
  function New(): (a: Actor)
    ensures Fresh(a) && AxisLook(a) && a.mesh.Some?
    ensures var m := a.mesh.value;
      && |m.positions| == 18 && Meshes.VertexCount(m) == 6 && |m.indices| == 6
      && |m.indices| % 2 == 0
      && (forall k :: 0 <= k < |m.indices| ==> m.indices[k] < 6)
      && Meshes.WellFormed(m)
      && (forall s :: 0 <= s < 3 ==> SymmetricOnAxis(m, s, SegmentAxis(s)))
      && m.uvs == [] && m.normals == []
  {
    AxisMeshShape();
    Actor(Some(AxisMesh), Identity, None, VertexShader, FragmentShader, LineList, CullBack)
  }

  /** `newShared()`: a fresh axis over this axis's very mesh. */
  function NewShared(a: Actor): (r: SharedActor)
    ensures r.actor.mesh == a.mesh && Fresh(r.actor) && AxisLook(r.actor)
  {
    SharedActor(Actor(a.mesh, Identity, None, VertexShader, FragmentShader, LineList, CullBack))
  }

  /** `duplicate()`: a fresh axis over `mesh.duplicate()`, whose arrays are
      this axis's. */
  function Duplicate(a: Actor): (r: Actor)
    requires a.mesh.Some?
    ensures r.mesh.Some? && Fresh(r) && AxisLook(r)
    ensures r.mesh.value.positions == a.mesh.value.positions && r.mesh.value.indices == a.mesh.value.indices
    ensures r.mesh.value.uvs == a.mesh.value.uvs && r.mesh.value.normals == a.mesh.value.normals
  {
    Actor(Some(Meshes.Duplicate(a.mesh.value)), Identity, None, VertexShader, FragmentShader, LineList, CullBack)
  }
}
