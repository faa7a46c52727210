/** The Surface actor: a height field `y = fn(x, z)` sampled on a square
    lattice and triangulated two triangles per lattice cell. */
module Surface {
  import opened Results
  import opened JsNumber
  import Meshes
  import opened Actors

  /** `SurfaceFunction`: any function of two numbers.  Only the structure of
      the mesh is modelled; the heights are whatever `fn` returns. */
  type SurfaceFunction = (real, real) -> Number

  /** The lattice spacing `s` and the stretch factor `m` of `createMesh`. */
  const Spacing: real := 0.05
  const Stretch: real := 30.0

  /** `n * k` for a positive constant k: NaN and the infinities are kept. */
  function TimesPositive(n: Number, k: real): (r: Number)
    requires k > 0.0
    ensures n.Finite? <==> r.Finite?
    ensures n.Finite? ==> r.value == n.value * k
    ensures n.NaN? ==> r.NaN?
    ensures n.PosInfinity? ==> r.PosInfinity?
    ensures n.NegInfinity? ==> r.NegInfinity?
  {
    match n
    case Finite(v) => Finite(v * k)
    case _ => n
  }

  // ---------------------------------------------------------------------
  // The lattice

  /** The number of samples per side, `r = high - low`, when positive. */
  function Side(low: int, high: int): (r: nat)
    ensures low < high ==> r == high - low
    ensures high <= low ==> r == 0
  {
    if low < high then high - low else 0
  }

  /** The number of cells per side, `r - 1`, when positive. */
  function Cells(r: nat): (q: nat)
    ensures r >= 1 ==> q + 1 == r
    ensures r == 0 ==> q == 0
  {
    if r >= 1 then r - 1 else 0
  }

  /** Coordinate c (0 = x, 1 = height, 2 = z) of the sample in row i,
      column j: the sample point is `((low + i) s, (low + j) s)` and every
      coordinate is stretched by m. */
  function VertexCoord(fn: SurfaceFunction, low: int, i: int, j: int, c: int): Number
    requires 0 <= c < 3
  {
    var x := (low + i) as real * Spacing;
    var y := (low + j) as real * Spacing;
    if c == 0 then Finite(x * Stretch)
    else if c == 1 then TimesPositive(fn(x, y), Stretch)
    else Finite(y * Stretch)
  }

  /** Where the sample in row i, column j sits in row-major order. */
  function Flat(r: int, i: int, j: int): int {
    i * r + j
  }

  /** Where element c of cell (i, j) sits when every cell has n elements
      and a row has w cells. */
  function Pos(n: int, w: int, i: int, j: int, c: int): int {
    n * Flat(w, i, j) + c
  }

  /** The c-th of the six indices cell (i, j) emits: top left, bottom left,
      bottom right, then bottom right, top left, top right. */
  function Corner(r: int, i: int, j: int, c: int): int
    requires 0 <= c < 6
  {
    match c
    case 0 => i * r + j + 1
    case 1 => i * r + j
    case 2 => i * r + r + j
    case 3 => i * r + r + j
    case 4 => i * r + j + 1
    case 5 => i * r + r + j + 1
  }

  /** The lattice step (row, column) from a cell's own sample to its c-th corner. */
  function RowStep(c: int): int
    requires 0 <= c < 6
  {
    if c == 2 || c == 3 || c == 5 then 1 else 0
  }

  function ColumnStep(c: int): int
    requires 0 <= c < 6
  {
    if c == 0 || c == 4 || c == 5 then 1 else 0
  }

  /** Each emitted index names a lattice neighbour of the cell's sample, and
      for a cell inside the lattice that neighbour is a sample, so the index
      lies in [0, r*r).  The two triangles share the diagonal from the top
      left to the bottom right corner, and together they use all four
      corners of the cell. */
  lemma CellCorners(r: int, i: int, j: int)
    requires 0 <= i < r - 1 && 0 <= j < r - 1
    ensures forall c :: 0 <= c < 6 ==> Corner(r, i, j, c) == Flat(r, i + RowStep(c), j + ColumnStep(c))
    ensures forall c :: 0 <= c < 6 ==> 0 <= Corner(r, i, j, c) < r * r
    ensures Corner(r, i, j, 3) == Corner(r, i, j, 2) && Corner(r, i, j, 4) == Corner(r, i, j, 0)
    ensures {Corner(r, i, j, 0), Corner(r, i, j, 1), Corner(r, i, j, 2), Corner(r, i, j, 5)}
         == {Flat(r, i, j), Flat(r, i, j + 1), Flat(r, i + 1, j), Flat(r, i + 1, j + 1)}
  {
    forall c | 0 <= c < 6 ensures 0 <= Corner(r, i, j, c) < r * r {
      RowMajorBelow(i + RowStep(c), j + ColumnStep(c), r, r);
    }
  }

  /** Row-major positions of an `p`-row prefix stay below `p * r`. */
  lemma RowMajorBelow(a: int, b: int, p: int, r: int)
    requires 0 <= a < p && 0 <= b < r
    ensures 0 <= a * r + b < p * r
  {
    assert a * r <= (p - 1) * r by {
      MulMonotone(a, p - 1, r);
    }
  }

  lemma MulMonotone(a: int, b: int, r: int)
    requires 0 <= a <= b && 0 <= r
    ensures 0 <= a * r <= b * r
  {
  }

  // ---------------------------------------------------------------------
  // Row-major layout

  /** The output of two nested loops that push `cell(a, b)` for every row a
      and, within it, every column b below w: all of rows 0..a-1, then the
      first b cells of row a. */
  function Grid<T>(cell: (int, int) -> seq<T>, w: nat, a: nat, b: nat): seq<T>
    requires b <= w
    decreases a, b
  {
    if b > 0 then Grid(cell, w, a, b - 1) + cell(a, b - 1)
    else if a > 0 then Grid(cell, w, a - 1, w)
    else []
  }

  /** Cell (a', b') comes before cell (a, b) in row-major order. */
  predicate Before(w: nat, a': int, b': int, a: nat, b: nat) {
    0 <= a' && 0 <= b' < w && (a' < a || (a' == a && b' < b))
  }

  /** With n elements per cell, the nested loops have pushed n per cell so far. */
  lemma {:induction false} GridLength<T>(cell: (int, int) -> seq<T>, w: nat, n: nat, a: nat, b: nat)
    requires b <= w
    requires forall i, j :: |cell(i, j)| == n
    ensures |Grid(cell, w, a, b)| == n * Flat(w, a, b)
    decreases a, b
  {
    if b > 0 {
      GridLength(cell, w, n, a, b - 1);
      assert n * Flat(w, a, b) == n * Flat(w, a, b - 1) + n;
    } else if a > 0 {
      GridLength(cell, w, n, a - 1, w);
      assert Flat(w, a - 1, w) == Flat(w, a, 0);
    }
  }

  /** The k-th element pushed for cell (a', b') sits at `n * (a' w + b') + k`. */
  lemma {:induction false} GridElement<T>(cell: (int, int) -> seq<T>, w: nat, n: nat, a: nat, b: nat, a': int, b': int, k: int)
    requires b <= w
    requires forall i, j :: |cell(i, j)| == n
    requires Before(w, a', b', a, b) && 0 <= k < n
    ensures 0 <= n * Flat(w, a', b') + k < |Grid(cell, w, a, b)|
    ensures Grid(cell, w, a, b)[n * Flat(w, a', b') + k] == cell(a', b')[k]
    decreases a, b
  {
    GridLength(cell, w, n, a, b);
    if b > 0 {
      GridLength(cell, w, n, a, b - 1);
      if a' == a && b' == b - 1 {
        assert n * Flat(w, a', b') + k == |Grid(cell, w, a, b - 1)| + k;
      } else {
        GridElement(cell, w, n, a, b - 1, a', b', k);
      }
    } else {
      assert a > 0;
      GridElement(cell, w, n, a - 1, w, a', b', k);
    }
  }

  // ---------------------------------------------------------------------
  // createMesh

  /** The three numbers the first loop pushes for the sample in row i, column j. */
  function Sample(fn: SurfaceFunction, low: int): (int, int) -> seq<Number> {
    (i, j) => seq(3, c requires 0 <= c < 3 => VertexCoord(fn, low, i, j, c))
  }

  /** The six indices the second loop pushes for cell (i, j). */
  function Cell(r: int): (int, int) -> seq<int> {
    (i, j) => seq(6, c requires 0 <= c < 6 => Corner(r, i, j, c))
  }

  /** The vertex layout of a lattice of r by r samples: coordinate c of
      sample (i, j) at `Pos(3, r, i, j, c)`. */
  predicate SamplesAt(positions: seq<Number>, fn: SurfaceFunction, low: int, r: nat) {
    forall i, j, c :: 0 <= i < r && 0 <= j < r && 0 <= c < 3 ==>
      Pos(3, r, i, j, c) < |positions| && positions[Pos(3, r, i, j, c)] == VertexCoord(fn, low, i, j, c)
  }

  /** The index layout of a lattice of r by r samples: corner c of cell
      (i, j), as a 16-bit integer, at `Pos(6, Cells(r), i, j, c)`. */
  predicate CornersAt(indices: seq<U16>, r: nat) {
    var q := Cells(r);
    forall i, j, c :: 0 <= i < q && 0 <= j < q && 0 <= c < 6 ==>
      Pos(6, q, i, j, c) < |indices| && indices[Pos(6, q, i, j, c)] == ToUint16(Corner(r, i, j, c))
  }

  /** `createMesh(range, fn)`: the samples row by row (i, then j), three
      numbers each, and six indices per cell, stored as a `Uint16Array`; the
      uv and normal arrays are left empty.  While the lattice has at most
      2^16 samples every index names one. */
  method CreateMesh(low: int, high: int, fn: SurfaceFunction) returns (m: Meshes.Mesh)
    ensures var r := Side(low, high); |m.positions| == 3 * (r * r) && SamplesAt(m.positions, fn, low, r)
    ensures var q := Cells(Side(low, high)); |m.indices| == 6 * (q * q) && CornersAt(m.indices, Side(low, high))
    ensures Side(low, high) * Side(low, high) <= 0x1_0000 ==> Meshes.WellFormed(m)
    ensures m.uvs == [] && m.normals == []
  {
    var r := Side(low, high);
    var vertices := Vertices(low, high, fn);
    var indices := CellIndices(r);
    m := Meshes.NewMesh(vertices, [], [], Meshes.Uint16ArrayOf(indices));
    assert SamplesAt(m.positions, fn, low, r);
    CornersConverted(indices, r);
    if r * r <= 0x1_0000 {
      forall k | 0 <= k < |m.indices| ensures m.indices[k] < Meshes.VertexCount(m) {
        assert m.indices[k] == indices[k];
      }
    }
  }

  /** Converting the second loop's output to 16-bit integers keeps each
      corner in its place. */
  lemma CornersConverted(indices: seq<int>, r: nat)
    requires var q := Cells(r);
      forall i, j, c :: 0 <= i < q && 0 <= j < q && 0 <= c < 6 ==>
        Pos(6, q, i, j, c) < |indices| && indices[Pos(6, q, i, j, c)] == Corner(r, i, j, c)
    ensures CornersAt(Meshes.Uint16ArrayOf(indices), r)
  {
  }

  /** The first loop of `createMesh`. */
  method Vertices(low: int, high: int, fn: SurfaceFunction) returns (vertices: seq<Number>)
    ensures var r := Side(low, high);
      && |vertices| == 3 * (r * r)
      && forall i, j, c :: 0 <= i < r && 0 <= j < r && 0 <= c < 3 ==>
           Pos(3, r, i, j, c) < |vertices| && vertices[Pos(3, r, i, j, c)] == VertexCoord(fn, low, i, j, c)
  {
    var r := Side(low, high);
    var cell := Sample(fn, low);
    vertices := [];
    var i := low;
    while i < high
      invariant low < high ==> low <= i <= high
      invariant high <= low ==> i == low
      invariant vertices == Grid(cell, r, i - low, 0)
    {
      var j := low;
      while j < high
        invariant low <= j <= high
        invariant vertices == Grid(cell, r, i - low, j - low)
      {
        var x, y := i as real * Spacing, j as real * Spacing;
        vertices := vertices + [Finite(x * Stretch), TimesPositive(fn(x, y), Stretch), Finite(y * Stretch)];
        j := j + 1;
      }
      i := i + 1;
    }
    SampleLayout(fn, low, r);
  }

  /** The second loop of `createMesh`, before the `Uint16Array` conversion. */
  method CellIndices(r: nat) returns (indices: seq<int>)
    ensures var q := Cells(r);
      && |indices| == 6 * (q * q)
      && (forall i, j, c :: 0 <= i < q && 0 <= j < q && 0 <= c < 6 ==>
           Pos(6, q, i, j, c) < |indices| && indices[Pos(6, q, i, j, c)] == Corner(r, i, j, c))
      && (forall k :: 0 <= k < |indices| ==> 0 <= indices[k] < r * r)
  {
    var q := Cells(r);
    var cell := Cell(r);
    indices := [];
    var i := 0;
    while i < r - 1
      invariant 0 <= i <= q
      invariant indices == Grid(cell, q, i, 0)
      invariant forall k :: 0 <= k < |indices| ==> 0 <= indices[k] < r * r
    {
      var j := 0;
      while j < r - 1
        invariant 0 <= j <= q
        invariant indices == Grid(cell, q, i, j)
        invariant forall k :: 0 <= k < |indices| ==> 0 <= indices[k] < r * r
      {
        CellCorners(r, i, j);
        indices := indices + [
          i * r + j + 1, i * r + j, i * r + r + j,
          i * r + r + j, i * r + j + 1, i * r + r + j + 1];
        j := j + 1;
      }
      i := i + 1;
    }
    CellLayout(r, q);
  }

  /** Where the first loop puts each sample's coordinates. */
  lemma SampleLayout(fn: SurfaceFunction, low: int, r: nat)
    ensures var g := Grid(Sample(fn, low), r, r, 0);
      && |g| == 3 * (r * r)
      && forall i, j, c :: 0 <= i < r && 0 <= j < r && 0 <= c < 3 ==>
           Pos(3, r, i, j, c) < |g| && g[Pos(3, r, i, j, c)] == VertexCoord(fn, low, i, j, c)
  {
    var cell := Sample(fn, low);
    GridLength(cell, r, 3, r, 0);
    forall i, j, c | 0 <= i < r && 0 <= j < r && 0 <= c < 3
      ensures Pos(3, r, i, j, c) < |Grid(cell, r, r, 0)|
      ensures Grid(cell, r, r, 0)[Pos(3, r, i, j, c)] == VertexCoord(fn, low, i, j, c)
    {
      GridElement(cell, r, 3, r, 0, i, j, c);
      assert cell(i, j)[c] == VertexCoord(fn, low, i, j, c);
    }
  }

  /** Where the second loop puts each cell's six indices. */
  lemma CellLayout(r: nat, q: nat)
    ensures var g := Grid(Cell(r), q, q, 0);
      && |g| == 6 * (q * q)
      && forall i, j, c :: 0 <= i < q && 0 <= j < q && 0 <= c < 6 ==>
           Pos(6, q, i, j, c) < |g| && g[Pos(6, q, i, j, c)] == Corner(r, i, j, c)
  {
    var cell := Cell(r);
    GridLength(cell, q, 6, q, 0);
    forall i, j, c | 0 <= i < q && 0 <= j < q && 0 <= c < 6
      ensures Pos(6, q, i, j, c) < |Grid(cell, q, q, 0)|
      ensures Grid(cell, q, q, 0)[Pos(6, q, i, j, c)] == Corner(r, i, j, c)
    {
      GridElement(cell, q, 6, q, 0, i, j, c);
      assert cell(i, j)[c] == Corner(r, i, j, c);
    }
  }

  // ---------------------------------------------------------------------
  // The Surface actor

  const VertexShader := ShaderStore("surface.vert.wgsl", SurfaceVert)
  const FragmentShader := ShaderStore("surface.frag.wgsl", SurfaceFrag)
  const WireVertexShader := ShaderStore("wire.vert.wgsl", WireVert)
  const WireFragmentShader := ShaderStore("wire.frag.wgsl", WireFrag)

  /** How `new`, `newShared` and `duplicate` configure a surface: the
      surface shaders, a triangle list, no culling. */
  predicate SurfaceLook(a: Actor) {
    && a.vertexShader == VertexShader && a.fragmentShader == FragmentShader
    && a.topology == TriangleList && a.cullMode == CullNone
  }

  /** How `newWire` configures the copy: the wire shaders and a line list;
      the cull mode stays the surface's. */
  predicate WireLook(a: Actor) {
    && a.vertexShader == WireVertexShader && a.fragmentShader == WireFragmentShader
    && a.topology == LineList && a.cullMode == CullNone
  }

  /** The private constructor as every factory calls it. */
  function Build(mesh: Meshes.Mesh): (a: Actor)
    ensures a.mesh == Some(mesh) && Fresh(a) && SurfaceLook(a)
  {
    Actor(Some(mesh), Identity, None, VertexShader, FragmentShader, TriangleList, CullNone)
  }

  /** `Surface.new({range, fn})`: the lattice mesh of `createMesh`, identity
      model matrix, no transform. */
  method New(low: int, high: int, fn: SurfaceFunction) returns (a: Actor)
    ensures Fresh(a) && SurfaceLook(a) && a.mesh.Some?
    ensures var r := Side(low, high); var m := a.mesh.value;
      && |m.positions| == 3 * (r * r) && |m.indices| == 6 * (Cells(r) * Cells(r))
      && m.uvs == [] && m.normals == []
      && (r * r <= 0x1_0000 ==> Meshes.WellFormed(m))
    ensures SamplesAt(a.mesh.value.positions, fn, low, Side(low, high))
    ensures CornersAt(a.mesh.value.indices, Side(low, high))
  {
    var m := CreateMesh(low, high, fn);
    a := Build(m);
    assert a.mesh.value == m;
  }

  /** `newShared()`: a fresh surface over this surface's very mesh. */
  function NewShared(a: Actor): (r: SharedActor)
    ensures r.actor.mesh == a.mesh
    ensures Fresh(r.actor) && SurfaceLook(r.actor)
  {
    SharedActor(Actor(a.mesh, Identity, None, VertexShader, FragmentShader, TriangleList, CullNone))
  }

  /** `newWire()`: `newShared()` switched to a line list and the wire
      shaders, carrying this surface's transform. */
  function NewWire(a: Actor): (r: SharedActor)
    ensures r.actor.mesh == a.mesh && r.actor.transform == a.transform
    ensures r.actor.modelMatrix == Identity && WireLook(r.actor)
  {
    var wire := NewShared(a);
    SharedActor(wire.actor.(topology := LineList,
                            vertexShader := WireVertexShader,
                            fragmentShader := WireFragmentShader,
                            transform := a.transform))
  }

  /** `duplicate()`: a fresh surface over `mesh.duplicate()`. */
  function Duplicate(a: Actor): (r: Actor)
    requires a.mesh.Some?
    ensures r.mesh.Some? && Fresh(r) && SurfaceLook(r)
    ensures r.mesh.value.positions == a.mesh.value.positions && r.mesh.value.indices == a.mesh.value.indices
    ensures r.mesh.value.uvs == a.mesh.value.uvs && r.mesh.value.normals == a.mesh.value.normals
  {
    Build(Meshes.Duplicate(a.mesh.value))
  }

  /** A surface and its wire draw the same vertices and indices, and differ
      only in topology, shaders and transform; a duplicate draws the same
      geometry as the shared copy. */
  lemma WireSharesGeometry(a: Actor)
    requires a.mesh.Some?
    ensures NewWire(a).actor == NewShared(a).actor.(topology := LineList,
      vertexShader := WireVertexShader, fragmentShader := WireFragmentShader, transform := a.transform)
    ensures Duplicate(a) == NewShared(a).actor
  {
  }
}
