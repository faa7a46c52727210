/** The Mesh container: flat vertex-attribute arrays (`Float32Array`s holding
    three position, two uv and three normal components per vertex) and a
    `Uint16Array` of indices into the vertices. */
module Meshes {
  import opened JsNumber

  datatype Mesh = Mesh(positions: seq<Number>, uvs: seq<Number>, normals: seq<Number>, indices: seq<U16>)

  /** The constructor: every array left out defaults to an empty one. */
  function NewMesh(positions: seq<Number> := [], uvs: seq<Number> := [],
                   normals: seq<Number> := [], indices: seq<U16> := []): Mesh
  {
    Mesh(positions, uvs, normals, indices)
  }

  /** `new Uint16Array(values)`: each value wrapped modulo 2^16. */
  function Uint16ArrayOf(values: seq<int>): (r: seq<U16>)
    ensures |r| == |values|
    ensures forall k :: 0 <= k < |r| ==> r[k] == ToUint16(values[k])
  {
    seq(|values|, k requires 0 <= k < |values| => ToUint16(values[k]))
  }

  /** `duplicate()`: a new Mesh built from `copyWithin(-1, -1)` of each array.
      That call moves nothing and returns the very array it was called on, so
      the copy holds the original's four arrays. */
  function Duplicate(m: Mesh): (d: Mesh)
    ensures d.positions == m.positions && d.uvs == m.uvs
    ensures d.normals == m.normals && d.indices == m.indices
  {
    NewMesh(CopyWithinLast(m.positions), CopyWithinLast(m.uvs),
            CopyWithinLast(m.normals), CopyWithinLast(m.indices))
  }

  /** `a.copyWithin(-1, -1)`: copies the slice starting at the last element onto
      itself, starting at the last element. */
  function CopyWithinLast<T>(a: seq<T>): (r: seq<T>)
    ensures r == a
  {
    if |a| == 0 then a else a[..|a| - 1] + a[|a| - 1..]
  }

  /** Number of whole vertices in the position array. */
  function VertexCount(m: Mesh): nat {
    |m.positions| / 3
  }

  /** The data-model invariant: whole vertices, and every index names one. */
  predicate WellFormed(m: Mesh) {
    && |m.positions| % 3 == 0
    && forall k :: 0 <= k < |m.indices| ==> m.indices[k] < VertexCount(m)
  }

  /** The defaults give empty arrays, and an explicit argument is kept as given. */
  lemma ConstructorDefaults(p: seq<Number>, i: seq<U16>)
    ensures NewMesh() == Mesh([], [], [], [])
    ensures NewMesh(p) == Mesh(p, [], [], [])
    ensures NewMesh(p, indices := i) == Mesh(p, [], [], i)
    ensures WellFormed(NewMesh())
  {
  }
}
