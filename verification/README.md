# PolyPlot3D rendering core in Dafny

PolyPlot3D draws interactive 3D scenes in the browser through WebGPU. The
scenes are parametric surfaces, imported OBJ meshes and coordinate axes.
This project models its rendering core as immutable values and pure
functions, and proves what each operation does:

- the `Mesh` container and its `duplicate`;
- the OBJ importer, which routes lines into buckets and de-duplicates face
  references. It rests on a model of the JavaScript string and number
  conversions the importer calls (`trim`, `split`, `Number`, `parseFloat`,
  `Uint16Array`);
- the `Surface` height-field sampler with its lattice triangulation, and the
  `Surface` and `Axis` actor factories;
- the free-look `Camera`, the `InputHandler`, and the key and mouse bindings
  `render()` installs;
- the WebGPU renderer: the shader-module cache, per-actor GPU resources,
  `addActor` and `removeActor`;
- `render()` itself: the one-time setup, the canvas-resize test, and one
  run of the frame callback over the actor table.

Two operations are modelled as written and with a correction, chosen by a
parameter (see "## Findings"). `Renderer.AddActor` takes a `Gpu.Sizing`:
`Exact` is the program's `mapBuffer`, which throws for an odd number of
indices, and `Aligned` rounds the buffer size up. `RenderLoop.Frame` takes
a `RenderLoop.ResizeTest`: `Unconverted` is the program's resize test, and
`Converted` compares the size the canvas would actually store.

The GPU is an abstract device. Every created object gets a fresh handle,
and the device records destructions, buffer writes and submitted command
lists. Host computations become parameters:

- transform callbacks;
- `mat4.lookAt` and `mat4.perspective`;
- the camera's normalised movement directions (`Cameras.Basis`);
- `devicePixelRatio`, the client size of the canvas, and whether the
  pointer is locked (`RenderLoop.Env`, the `locked` arguments).

Modules, one per file:

| module | file |
|---|---|
| `Results` | `results.dfy` |
| `JsText` | `js_text.dfy` |
| `JsNumber` | `js_number.dfy` |
| `Meshes` | `mesh.dfy` |
| `ObjImport` | `obj_import.dfy` |
| `Actors` | `actor.dfy` |
| `Surface` | `surface.dfy` |
| `Axis` | `axis.dfy` |
| `Cameras` | `camera.dfy` |
| `Input` | `input_handler.dfy` |
| `Controls` | `controls.dfy` |
| `Gpu` | `gpu.dfy` |
| `Renderer` | `renderer.dfy` |
| `RenderPass` | `render_pass.dfy` |
| `RenderLoop` | `render_loop.dfy` |

## Model

| member | source | states |
|---|---|---|
| JsText.Trim | src/gfx/mesh.ts:58 | `line.trim()` is the slice between the maximal leading and the maximal trailing run of ECMAScript white space. Everything cut off is white space, and a nonempty result neither starts nor ends with white space. |
| JsText.Split | src/gfx/mesh.ts:59 | `split` with a one-character separator always gives at least one piece, and no piece contains the separator. |
| JsText.JoinSplit | src/gfx/mesh.ts:59 | Joining the pieces of a split with the separator gives back the original string. |
| JsText.SplitJoin | src/gfx/mesh.ts:59 | Splitting the join of separator-free pieces gives back exactly those pieces. |
| JsText.SplitCount | src/gfx/mesh.ts:94 | A split has one more piece than the string has separators. |
| JsText.SplitAtFirst | src/gfx/mesh.ts:59 | The first piece is the text before the first separator, and the other pieces are the split of what follows it. A string without the separator splits into itself alone. |
| JsNumber.ToUint16 | src/gfx/mesh.ts:106 | Storing into a `Uint16Array` yields a value in [0, 2^16) congruent to the input modulo 2^16. In-range values are kept. |
| JsNumber.LongestDecimalPrefix | src/gfx/mesh.ts:63 | The prefix `parseFloat` reads is a decimal literal, and no longer prefix is one. When there is none, no prefix at all is a literal. |
| JsNumber.NumberOfDecimal | src/gfx/mesh.ts:94 | `+s` (and `Number(s)`) of the decimal numeral of n is n. |
| JsNumber.ParseFloatOfDecimal | src/gfx/mesh.ts:63 | `parseFloat` of the decimal numeral of n is n. |
| JsNumber.EmptyStrings | src/gfx/mesh.ts:94 | `Number` of the empty or blank string is 0, while `parseFloat("")` is NaN. |
| Meshes.CopyWithinLast | src/gfx/mesh.ts:26 | `copyWithin(-1, -1)` leaves the array exactly as it was. |
| Meshes.Duplicate | src/gfx/mesh.ts:24-31 | The duplicate holds the original's four arrays unchanged. |
| Meshes.Uint16ArrayOf | src/gfx/mesh.ts:106 | `new Uint16Array(values)` keeps the length and wraps each element modulo 2^16. |
| Meshes.ConstructorDefaults | src/gfx/mesh.ts:12-22 | Arrays left out of the constructor are empty, given ones are kept, and the empty mesh is well formed. |
| ObjImport.ParseAll | src/gfx/mesh.ts:63 | `data.map(conv)` keeps the length and converts each token in place. |
| ObjImport.FirstToken | src/gfx/mesh.ts:59-61 | The first space-separated token of a trimmed line is `word` exactly when the line is `word` alone or `word` and a space. The remaining tokens are then the line's fields. |
| ObjImport.ClassifyByPrefix | src/gfx/mesh.ts:57-75 | A line lands in the `v`, `vt`, `vn` or `f` bucket exactly when its trimmed text is a record of that type. `v` and `vn` fields are read with `parseFloat`, `vt` fields with `Number`, and `f` fields are kept as strings. |
| ObjImport.RouteAppend | src/gfx/mesh.ts:57-75 | Routing works line by line in file order: the buckets of two concatenated texts are the first text's buckets followed by the second's. |
| ObjImport.RouteSkipsOther | src/gfx/mesh.ts:61-74 | A line of any other type (comment, blank, `o`, `s`, ...) changes no bucket, wherever it stands. |
| ObjImport.SlotOf | src/gfx/mesh.ts:94-97 | After `+s - 1` and the `> -1` guard, a piece names entry n exactly when it converts to the whole number n+1 > 0. It names nothing when the guard fails (NaN, zero, negatives). Any other value (a fraction, +Infinity) passes the guard without naming an entry. |
| ObjImport.Fetch | src/gfx/mesh.ts:95-97 | A missing or guarded-out piece appends nothing. An in-range index appends that bucket entry. An out-of-range or non-integral index is the TypeError of spreading `undefined`. |
| ObjImport.RefData | src/gfx/mesh.ts:94-97 | A new reference appends the position, uv and normal its three pieces name. It succeeds exactly when all three lookups do, and adds no uv or normal when it has no `/`. It fails with the reference's TypeError when a piece names no entry. |
| ObjImport.Dedup | src/gfx/mesh.ts:87-93 | The reference description: the distinct reference strings, each once, and exactly those present. |
| ObjImport.StepSeen | src/gfx/mesh.ts:87-88 | A reference met before appends its cached index and changes nothing else. The loop invariant is kept. |
| ObjImport.StepNew | src/gfx/mesh.ts:89-98 | A new reference succeeds exactly when its data resolves. It then gets the next index, is cached, and appends its attributes, keeping the loop invariant. |
| ObjImport.FlattenMatchesDedup | src/gfx/mesh.ts:85-100 | The flattening loop fails exactly when some reference does not resolve. Otherwise its cache and indices map every reference to its first-occurrence rank among the distinct references, and its output arrays are their attributes in that order. |
| ObjImport.IndexAssignment | src/gfx/mesh.ts:87-92 | There is one output index per reference, each below the counter, and the counter is the number of distinct references. Two references get the same index exactly when they are the same string. A reference's first occurrence gets the number of distinct references before it. |
| ObjImport.GatherPositions | src/gfx/mesh.ts:95 | When every distinct reference names a 3-coordinate position, there are three position values per distinct reference. |
| ObjImport.SubIndexOfNumeral | src/gfx/mesh.ts:94 | The piece "n+1" names entry n, while "0" and "" name nothing. |
| ObjImport.MeshOfReferences | src/gfx/mesh.ts:84-107 | The mesh is built exactly when every reference resolves. Its indices are the first-occurrence ranks wrapped to 16 bits, and its arrays are the distinct references' attributes. |
| ObjImport.MeshShape | src/gfx/mesh.ts:84-107 | When every reference has a 3-coordinate position, the vertex count is the number of distinct references. With at most 2^16 of them, every index names a vertex. |
| ObjImport.ImportObj | src/gfx/mesh.ts:47-108 | `importOBJ` succeeds exactly when every face reference of the file resolves, and then emits one index per reference. |
| ObjImport.ImportedMeshShape | src/gfx/mesh.ts:47-108 | On a file whose references all name a position and whose `v` lines all have three coordinates, the vertex count is the number of distinct references. With at most 2^16 of them, the mesh is well formed. |
| Surface.TimesPositive | src/gfx/actors/surface.ts:17 | Scaling by the positive stretch factor keeps NaN and the infinities and multiplies finite values. |
| Surface.Side | src/gfx/actors/surface.ts:12 | The samples per side are `high - low`, or none for an empty range. |
| Surface.CellCorners | src/gfx/actors/surface.ts:21-30 | Each of a cell's six indices is the row-major position of the cell's sample or of a lattice neighbour, below r*r. The two triangles share the diagonal and together cover the cell's four corners. |
| Surface.SampleLayout | src/gfx/actors/surface.ts:14-19 | The nested sample loops put coordinate c of sample (i, j) at 3(i r + j) + c. |
| Surface.CellLayout | src/gfx/actors/surface.ts:21-30 | The nested index loops put corner c of cell (i, j) at 6(i q + j) + c. |
| Surface.Vertices | src/gfx/actors/surface.ts:14-19 | There are three numbers per sample of the r-by-r lattice: x*m, fn(x, y)*m and y*m at (i s, j s). |
| Surface.CellIndices | src/gfx/actors/surface.ts:21-30 | There are 6(r-1)^2 indices, cell by cell in row-major order. Each names a sample of the lattice. |
| Surface.CreateMesh | src/gfx/actors/surface.ts:7-40 | `createMesh` gives the lattice samples and the triangulation with indices wrapped to 16 bits, and no uvs or normals. With at most 2^16 samples, the mesh is well formed. |
| Surface.Build | src/gfx/actors/surface.ts:53-70 | The constructor as the factories call it holds the given mesh, the identity model matrix and no transform, and has the surface look. |
| Surface.New | src/gfx/actors/surface.ts:72-91 | `Surface.new` gives a fresh triangle-list actor over a `createMesh` mesh of 3r^2 position values and 6(r-1)^2 indices. Each sample's coordinates and each cell's six corners sit where `createMesh` puts them. |
| Surface.NewShared | src/gfx/actors/surface.ts:93-109 | `newShared` gives a fresh surface over the very same mesh. |
| Surface.NewWire | src/gfx/actors/surface.ts:111-124 | `newWire` gives the same mesh with the wire shaders and a line list. It keeps this surface's transform and resets the model matrix to identity. |
| Surface.Duplicate | src/gfx/actors/surface.ts:126-142 | `duplicate` gives a fresh surface whose mesh has the original's arrays. |
| Surface.WireSharesGeometry | src/gfx/actors/surface.ts:93-142 | A wire differs from a shared copy only in topology, shaders and transform, and a duplicate equals a shared copy. |
| Axis.AxisMeshShape | src/gfx/actors/axis.ts:37-53 | The axis mesh has six vertices and six indices, every index names a vertex, and segment s runs symmetrically through the origin along one axis: y, then x, then z. |
| Axis.New | src/gfx/actors/axis.ts:35-67 | `Axis.new` gives a fresh line-list actor with the axis shaders and back culling. It draws three segments, one on each coordinate axis, over a well-formed mesh. |
| Axis.NewShared | src/gfx/actors/axis.ts:69-85 | `newShared` gives a fresh axis over the very same mesh. |
| Axis.Duplicate | src/gfx/actors/axis.ts:87-103 | `duplicate` gives a fresh axis whose mesh has the original's arrays. |
| Cameras.TranslateForward | src/gfx/camera.ts:33-37 | Only the position moves, along the horizontal forward direction, so the height is kept. |
| Cameras.TranslateBackward | src/gfx/camera.ts:39-43 | Only the position moves, against the horizontal forward direction, so the height is kept. |
| Cameras.TranslateRight | src/gfx/camera.ts:45-49 | Only the position moves, along front x up, so the height is kept. |
| Cameras.TranslateLeft | src/gfx/camera.ts:51-55 | Only the position moves, against front x up, so the height is kept. |
| Cameras.TranslateUp | src/gfx/camera.ts:57-59 | Only the height changes, by exactly s. |
| Cameras.TranslateDown | src/gfx/camera.ts:61-63 | Only the height changes, by exactly -s. |
| Cameras.ClampPitch | src/gfx/camera.ts:74 | The pitch is clamped to [-89, 89]: kept inside, saturated outside. |
| Cameras.LookAround | src/gfx/camera.ts:66-82 | Yaw grows by 0.1 dx. Pitch grows by 0.1 dy and is then clamped to [-89, 89] in every case. The facing direction follows the new angles, and nothing else changes. |
| Cameras.New | src/gfx/camera.ts:15-31 | The constructor ends at height 10 with yaw 130, pitch -10, fov 45 and up (0, 1, 0). |
| Cameras.LookAroundStill | src/gfx/camera.ts:26 | `lookAround(0, 0)` keeps both angles when the pitch is in range. |
| Cameras.UpDownInverse | src/gfx/camera.ts:57-63 | Up and down by the same amount undo each other, in either order. |
| Cameras.HorizontalInverse | src/gfx/camera.ts:33-55 | Forward then backward, and right then left, by the same amount return to the start. |
| Cameras.ZeroMoves | src/gfx/camera.ts:33-63 | Every move by zero leaves the camera unchanged. |
| Input.New | src/events/input-handler.ts:17-18 | A new handler has no key bindings and no mouse binding. |
| Input.BindMouse | src/events/input-handler.ts:20-22 | The mouse binding is replaced, and the key bindings are untouched. |
| Input.BindKey | src/events/input-handler.ts:24-26 | The key gets the callback, released. Other keys keep their bindings. A new key is added last in visiting order, and a re-bound key keeps its place. |
| Input.BindNewKey | src/events/input-handler.ts:24-26 | Binding an unbound key appends it, released, after the others. |
| Input.BindKeyTwice | src/events/input-handler.ts:24-26 | Binding a key twice is the same as binding it once to the second callback. |
| Input.SetState | src/events/input-handler.ts:30-31 | A bound key's state is set and nothing else changes. An unbound key leaves the handler as it was. |
| Input.KeyDown | src/events/input-handler.ts:29-33 | A bound key becomes held, and an unbound key changes nothing. |
| Input.KeyUp | src/events/input-handler.ts:35-39 | A bound key becomes released, and an unbound key changes nothing. |
| Input.KeyDownUp | src/events/input-handler.ts:29-39 | Pressing and releasing a released key restores the handler. |
| Input.MouseMove | src/events/input-handler.ts:41-45 | The mouse callback is called exactly when the pointer is locked and one is bound. It receives (movementX, -movementY). |
| Input.Visit | src/events/input-handler.ts:50-52 | The `forEach` calls the held bindings, in key order, each once with `dt`. |
| Input.LoopCallbacks | src/events/input-handler.ts:48-54 | Nothing is called unless the pointer is locked. Otherwise the i-th call is the i-th held key's callback with `dt`. |
| Input.CalledWhileHeld | src/events/input-handler.ts:48-54 | A bound key is among those called back exactly when it is held. |
| Input.BindThenPress | src/events/input-handler.ts:24-33 | A freshly bound key is not called back until a keydown arrives, and is called back after one. |
| Controls.RunMove | src/gfx/webgpu-renderer.ts:168-173 | A key callback moves only the camera's position, and with dt = 0 it does nothing. |
| Controls.RunMoves | src/gfx/webgpu-renderer.ts:200 | Running the callbacks of `loopCallbacks(0)` leaves the camera exactly as it was. |
| Controls.NewControls | src/gfx/webgpu-renderer.ts:166-174 | `render()` binds w, a, s, d, q, e in that order, all released, plus the mouse look. |
| Controls.NewControlsBound | src/gfx/webgpu-renderer.ts:166-174 | These are exactly the bindings the six `bindKey` calls and the `bindMouse` call produce. |
| Gpu.ByteLength | src/gfx/webgpu-renderer.ts:230 | `byteLength` is four bytes per float element and two per 16-bit index. |
| Gpu.CreateBuffer | src/gfx/webgpu-renderer.ts:229-233 | `createBuffer` throws a RangeError exactly when the buffer is mapped at creation and its size is not a multiple of 4. Otherwise it appends the buffer under a fresh handle. |
| Gpu.MapBufferAsWritten | src/gfx/webgpu-renderer.ts:228-241 | `mapBuffer` as written fails exactly when the data's byte length is not a multiple of 4. Otherwise it gives a buffer of that size holding the data, with `COPY_DST` added to the usage. |
| Gpu.OddIndexCountRefused | src/gfx/webgpu-renderer.ts:228-233 | Three 16-bit indices (one triangle) make a RangeError. |
| Gpu.MapBuffer | src/gfx/webgpu-renderer.ts:228-241 | The corrected `mapBuffer` always succeeds with a fresh buffer. The buffer holds the data, has room for all of it within 3 spare bytes at a multiple of 4, and has `COPY_DST` added to the usage. |
| Gpu.MapBufferAgrees | src/gfx/webgpu-renderer.ts:228-241 | On data whose byte length is a multiple of 4, the corrected and the as-written upload coincide. |
| Gpu.BufferSize | src/gfx/webgpu-renderer.ts:229-233 | The buffer size either sizing gives has room for the data with fewer than 4 spare bytes, and is the byte length itself when that is a multiple of 4. |
| Gpu.MapBufferSized | src/gfx/webgpu-renderer.ts:228-241 | `mapBuffer` under either sizing throws exactly when the sizing is the program's and the byte length is not a multiple of 4. Otherwise it appends one buffer holding the data, of the size the sizing gives, and changes nothing else. |
| Gpu.CreateUniform | src/gfx/webgpu-renderer.ts:244-268 | `createUniform` appends an unmapped uniform buffer of the given size and a bind group placing it at the given group and binding of the pipeline. |
| Renderer.NewState | src/gfx/webgpu-renderer.ts:40-44 | A new renderer has no actors, an empty shader cache, and satisfies the table invariant. |
| Renderer.CacheShader | src/gfx/webgpu-renderer.ts:48 | `??=`: a cached name keeps its module and creates nothing. An uncached name gets a new module of that shader's code. |
| Renderer.CacheShaders | src/gfx/webgpu-renderer.ts:48-49 | Both shader names end up cached, every cached entry names a shader module, and new entries hold the right code. |
| Renderer.Upload | src/gfx/webgpu-renderer.ts:50-51 | `actor.mesh && mapBuffer(...)` creates no buffer without a mesh. With one it throws exactly when `mapBuffer` does, and otherwise appends exactly one buffer holding the data and changes nothing else. |
| Renderer.UploadMesh | src/gfx/webgpu-renderer.ts:50-51 | As written, the uploads throw exactly for a mesh with an odd number of indices; by then the vertex buffer has been created. Otherwise an actor with a mesh gets a vertex buffer of its positions and then an index buffer of its indices, and an actor without one gets neither. |
| Renderer.UploadMeshAgrees | src/gfx/webgpu-renderer.ts:50-51 | For a mesh with an even number of indices, or none, both sizings upload identically. |
| Renderer.Attach | src/gfx/webgpu-renderer.ts:52-80 | A pipeline is created over the two modules with the actor's topology and back-face culling, followed by a 64-byte model uniform bound at group 1, binding 0. |
| Renderer.Prepare | src/gfx/webgpu-renderer.ts:48-80 | Everything `addActor` creates before it stores the record: only additions to the device and a cache entry for both shaders. It fails exactly when the index upload throws, and then the device holds the cached modules and the vertex buffer but no pipeline. Otherwise it creates a new pipeline and the model uniform. |
| Renderer.PrepareUploadsMesh | src/gfx/webgpu-renderer.ts:50-51 | With a mesh, the stored vertex and index buffers hold the mesh's positions and indices, at the size the sizing gives. |
| Renderer.Commit | src/gfx/webgpu-renderer.ts:82-91 | A prepared record is stored under the next id, last in visiting order, and the id is returned. When preparing threw, the error passes through and the table is unchanged. |
| Renderer.AddActor | src/gfx/webgpu-renderer.ts:47-92 | As written, `addActor` throws exactly for a mesh with an odd number of indices, leaving the table and the id counter unchanged. Otherwise it stores the actor under an id not in use, last in visiting order, and changes no other entry. The table invariant holds either way. |
| Renderer.AddActorPrepares | src/gfx/webgpu-renderer.ts:47-92 | The device, the shader cache and the stored record after `addActor` are those `Prepare` builds. |
| Renderer.AddActorCaches | src/gfx/webgpu-renderer.ts:48-49 | After `addActor`, thrown or not, both shader names are cached and no cached module is replaced. |
| Renderer.AddActorThrowsLate | src/gfx/webgpu-renderer.ts:48-51 | When `addActor` throws, it is a RangeError. The device then holds exactly the modules just cached and the vertex buffer. |
| Renderer.AddActorAgrees | src/gfx/webgpu-renderer.ts:47-92 | For an actor without a mesh, or with an even number of indices, the program and the corrected upload add the actor identically. |
| Renderer.NoPipelineCache | src/gfx/webgpu-renderer.ts:52-79 | Every `addActor` that succeeds compiles its own pipeline: no two actors share one. |
| Renderer.Without | src/gfx/webgpu-renderer.ts:96 | Removing an id from the visiting order keeps every other id, keeps them distinct, and cuts the id out at its position so the others keep their relative order, as `Object.values` does after `delete`. |
| Renderer.RemoveActor | src/gfx/webgpu-renderer.ts:95-97 | `delete` drops exactly that id from the table. The visiting order loses that id at its position and keeps the other actors in their old order. The device, cache, next id, canvas and camera are unchanged, so no GPU object is destroyed. An unknown id changes nothing. |
| Renderer.AddThenRemove | src/gfx/webgpu-renderer.ts:47-97 | Removing an actor just added restores the table and the visiting order. |
| RenderPass.DrawsOfFinish | src/gfx/webgpu-renderer.ts:214-216 | The `&&` guards issue one indexed draw of the mesh's index count when there is a mesh, and none otherwise. |
| RenderPass.DrawsOfActor | src/gfx/webgpu-renderer.ts:206-217 | An actor's turn issues exactly that one draw. |
| RenderPass.DrawsOfAll | src/gfx/webgpu-renderer.ts:206-217 | A pass over the table issues one draw per actor with a mesh, in visiting order, sized to its index count. |
| RenderPass.FirstUnset | src/gfx/webgpu-renderer.ts:211 | The first actor whose transform is `undefined`, if any. None exactly when every actor has one. |
| RenderPass.StepEffect | src/gfx/webgpu-renderer.ts:206-217 | An actor's turn fails exactly when it has no transform. Otherwise it encodes the actor's commands, writes `transform(identity)` into the actor's uniform and stores it as the model matrix, leaving other actors alone. |
| RenderPass.DrawAllKeeps | src/gfx/webgpu-renderer.ts:206-217 | A pass creates and destroys nothing and submits nothing. It changes actors only in their model matrix, and stops at the first actor without a transform. |
| RenderPass.DrawAllCommands | src/gfx/webgpu-renderer.ts:206-217 | When every actor has a transform, the pass encodes the turns of all actors in visiting order. |
| RenderPass.DrawAllLog | src/gfx/webgpu-renderer.ts:211-212 | The pass writes each actor's `transform(identity)` into its uniform, in visiting order. |
| RenderPass.DrawAllModels | src/gfx/webgpu-renderer.ts:211 | Each actor's model matrix becomes its transform of the identity. |
| RenderLoop.Render | src/gfx/webgpu-renderer.ts:100-176 | The setup appends, in order: a canvas-sized depth texture, two fresh default shader modules, a triangle-list pipeline over them, a 128-byte uniform and its group-0 bind group. It writes the initial view and the projection, installs the bindings, and leaves the actor table alone. |
| RenderLoop.KeyDown | src/gfx/webgpu-renderer.ts:175 | The keydown listener only updates the bindings. |
| RenderLoop.KeyUp | src/gfx/webgpu-renderer.ts:175 | The keyup listener only updates the bindings. |
| RenderLoop.MouseMove | src/gfx/webgpu-renderer.ts:174-175 | With the pointer locked, a mouse move turns the camera by `lookAround(movementX, -movementY)`. Unlocked, it does nothing. |
| RenderLoop.Dimension | src/gfx/webgpu-renderer.ts:185 | Assigning to `canvas.width` stores the whole part of a value in [0, 2^31). Anything else gives a value in range or the default. |
| RenderLoop.DimensionOfWhole | src/gfx/webgpu-renderer.ts:185 | A whole number in range is stored as is. |
| RenderLoop.Target | src/gfx/webgpu-renderer.ts:178-185 | The size the canvas ends up with is the stored value of client size x `devicePixelRatio`, with defaults 300 and 150. |
| RenderLoop.Reallocate | src/gfx/webgpu-renderer.ts:184-193 | The resize branch destroys the old depth texture, stores the new size, recomputes the projection, and creates a depth texture of the stored size. |
| RenderLoop.ReallocatesEveryFrame | src/gfx/webgpu-renderer.ts:178-194 | At client width 801 and ratio 1.25, the as-written test fires on every frame. The canvas stays 1001 by 750, yet each frame destroys and recreates the depth texture. The corrected test leaves the loop alone. |
| RenderLoop.Resize | src/gfx/webgpu-renderer.ts:183-194 | The branch runs exactly when the chosen test fires, and otherwise nothing changes. As written, the test fires whenever the unrounded product differs from the stored size. The converted test always leaves the canvas at the target size. |
| RenderLoop.ResizeSettles | src/gfx/webgpu-renderer.ts:183-194 | A second resize with the same environment changes nothing. |
| RenderLoop.ResizeTestsAgree | src/gfx/webgpu-renderer.ts:183 | When the products are whole numbers in range, both tests agree. |
| RenderLoop.Prologue | src/gfx/webgpu-renderer.ts:178-204 | Before the actors: reallocate exactly when the chosen resize test fires, run `loopCallbacks(0)` (the camera is left unchanged), apply the camera to the view, and write view and projection into the shared uniform. |
| RenderLoop.DrawActors | src/gfx/webgpu-renderer.ts:206-220 | The pass over the table is submitted exactly when every actor has a transform, and then holds all actors' turns in visiting order. An actor without one throws, and nothing is submitted. |
| RenderLoop.Frame | src/gfx/webgpu-renderer.ts:177-223 | One `frame()`: the depth texture is replaced, and the canvas given the target size, exactly when the resize test fires. As written that is whenever the unrounded product differs from the stored size. The view-projection and model writes and the submitted pass are as above, and the ids, the shader cache and the camera are unchanged. |
| RenderLoop.FrameDraws | src/gfx/webgpu-renderer.ts:206-220 | The submitted command list issues one draw per actor with a mesh, sized to its index count. |
| RenderLoop.SecondFrameKeepsDepth | src/gfx/webgpu-renderer.ts:183-194 | With the converted resize test and an unchanged environment, the second frame keeps the depth texture. |
| RenderLoop.SecondFrameKeepsDepthWhole | src/gfx/webgpu-renderer.ts:183-194 | As written, the same holds when the window's size in device pixels is whole and in range. |

## Left out

- Floating point: numbers are exact reals. The model leaves out IEEE-754 double rounding in `i * s`, `x * m` and `Number`/`parseFloat`, and float32 rounding when values are stored in a `Float32Array`.
- `Mesh.import` (src/gfx/mesh.ts:33-45) performs a network fetch. It and the server behind it (netlify/functions/import.cjs) are left out; the model starts at `importOBJ`'s text. `Bunny.new` only wraps that fetch and is left out with it.
- Device acquisition and canvas configuration in `WebGPURenderer.new` (src/gfx/webgpu-renderer.ts:23-37) call into the browser. The model starts from a given device (`Renderer.NewState`).
- The contents of pipeline descriptors beyond shaders, topology and cull mode are fixed constants with no effect on the model: vertex layout, entry points, targets, depth-stencil state and layout. Render-pass descriptors, texture views and command encoders are left out too.
- `requestAnimationFrame` scheduling is host behaviour: `RenderLoop.Frame` models one run of `frame`, and callers iterate it.
- Host computations are parameters of `RenderLoop.Host`: trigonometry and normalisation in `lookAround` and the translations, `mat4.lookAt`, `mat4.perspective`, and what a transform callback computes. `Cameras.LookAround` keeps the facing direction as the angles it is computed from.
- `Cameras.Camera` drops the fields `x` and `y`, which nothing reads.
- DOM wiring (`addEventListener`, `document.pointerLockElement`, `clientWidth`, `devicePixelRatio`) becomes function arguments. `console.log` in `createMesh` is left out.
- `Surface.CreateMesh`: the range bounds are integers; a fractional `low` or `high` (allowed by the source's `number`) is not modelled.
- `ObjImport.Step`: a reference string that names an `Object.prototype` property (`"constructor"`, `"__proto__"`) would find an inherited value in the `Record` cache. The model's cache is a plain map.
- `Renderer.CacheShader`: the same holds for shader names that name an `Object.prototype` property.
- `Input.LoopCallbacks`: keys are visited in binding order. `Object.values` visits array-index keys such as `"1"` first, in numeric order; that reordering is not modelled. The keys `render()` binds are all letters.
- `Renderer.AddActor`: the version-1 uuid is replaced by a counter, which is just as unique. The uuid is drawn only after the uploads, so a throwing call uses up no id.
- Aliasing: a shared actor's mesh and a duplicate's arrays are the very same objects in the source. Values have no identity, so the model states that the arrays are equal.
- src/gfx/renderer.ts is only an interface. The base class that supplies `canvas`, `context`, `camera` and `shaderModules` is not part of this model: the cache starts empty and the camera is `new Camera()`. `SharedActor` and `CullMode` are imported from src/gfx/actor.ts, but src/gfx/actor.ts does not declare them; the model takes them as a wrapper of one actor and as `GPUCullMode`.
- The documented design and the code differ in several places; the model follows the code:
  - `duplicate` is documented as a deep copy, but `copyWithin(-1, -1)` returns the same arrays.
  - The documented pipeline cache does not exist: `Renderer.NoPipelineCache` proves that every actor gets its own pipeline.
  - Pipelines always use back-face culling, whatever the actor's `cullMode`.
  - Resources are documented as released on removal, but `removeActor` only deletes the table entry.
  - The documented NaN sentinels for out-of-bound surface samples do not exist in `createMesh`.
  - `newShared` is documented as single-use but can be called any number of times.
  - The frame passes `dt = 0` to `loopCallbacks` rather than an elapsed time.

## Findings

| source | as written | input that shows it | evidently intended | confidence | as-written member | corrected member |
|---|---|---|---|---|---|---|
| src/gfx/webgpu-renderer.ts:178-194 | The resize test compares the unrounded `clientWidth * devicePixelRatio` with `canvas.width`, which stores only the whole part. | Client size 801 x 600 at ratio 1.25: the width product is 1001.25, the canvas holds 1001, and every frame destroys and recreates the depth texture. | Compare against the size the canvas would store, so the texture is rebuilt only when the size really changes. | not executed | RenderLoop.ReallocatesEveryFrame | RenderLoop.ResizeSettles |
| src/gfx/webgpu-renderer.ts:228-241 | `mapBuffer` creates a buffer mapped at creation of exactly `data.byteLength` bytes. WebGPU requires such a size to be a multiple of 4. | A mesh with three 16-bit indices (6 bytes): `createBuffer` throws a RangeError. `addActor` fails after caching the shaders and creating the vertex buffer, and stores nothing. | Round the size up to a multiple of 4 and copy the data into the start of the mapped range. | not executed | Gpu.OddIndexCountRefused | Gpu.MapBufferAgrees |
