/** The Actor data model: a mesh together with how the renderer should draw
    it — a model matrix, an optional transform callback, two named shaders,
    a primitive topology and a cull mode.  `SharedActor` wraps an actor built
    from another actor's mesh. */
module Actors {
  import opened Results
  import Meshes

  /** `GPUPrimitiveTopology`. */
  datatype Topology = PointList | LineList | LineStrip | TriangleList | TriangleStrip

  /** `GPUCullMode`. */
  datatype CullMode = CullNone | CullFront | CullBack

  /** The built-in shader texts, known to the model only by identity. */
  datatype ShaderText =
    | DefaultVert | DefaultFrag | AxisVert | AxisFrag
    | SurfaceVert | SurfaceFrag | WireVert | WireFrag

  /** A shader's file name and the text its `get()` returns. */
  datatype ShaderStore = ShaderStore(name: string, code: ShaderText)

  /** A 4x4 matrix in column-major order, as 16 numbers. */
  type Mat4 = seq<real>

  const Identity: Mat4 :=
    [1.0, 0.0, 0.0, 0.0,
     0.0, 1.0, 0.0, 0.0,
     0.0, 0.0, 1.0, 0.0,
     0.0, 0.0, 0.0, 1.0]

  /** A transform callback `(m: Mat4) => Mat4`, known by identity; what it
      computes is supplied by whoever evaluates it. */
  datatype Transform = Transform(id: nat)

  /** An actor.  `mesh` is optional in the abstract class; `transform` is
      `undefined` (None) until a caller installs one. */
  datatype Actor = Actor(
    mesh: Option<Meshes.Mesh>,
    modelMatrix: Mat4,
    transform: Option<Transform>,
    vertexShader: ShaderStore,
    fragmentShader: ShaderStore,
    topology: Topology,
    cullMode: CullMode)

  datatype SharedActor = SharedActor(actor: Actor)

  /** The state every factory leaves an actor in: identity model matrix and
      no transform. */
  predicate Fresh(a: Actor) {
    a.modelMatrix == Identity && a.transform.None?
  }

  /** The mesh an actor draws, or the empty mesh when it has none. */
  function MeshOf(a: Actor): Meshes.Mesh {
    if a.mesh.Some? then a.mesh.value else Meshes.NewMesh()
  }
}
