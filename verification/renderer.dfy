/** The WebGPU renderer's bookkeeping: the shader-module cache keyed by
    shader name and the actor table keyed by id, with the GPU resources
    each actor owns, over the abstract device of `Gpu`. */
module Renderer {
  import opened Results
  import opened JsNumber
  import Meshes
  import opened Actors
  import opened Gpu
  import Input
  import opened Cameras

  /** Actor ids.  The source draws a version-1 uuid; the model draws the
      next number of a counter, so an id is never handed out twice. */
  type ActorId = nat

  /** What the table stores for an actor: a copy of the actor and the
      resources created for it. */
  datatype ActorRecord = ActorRecord(
    actor: Actor,
    vertexBuffer: Option<Handle>,
    indexBuffer: Option<Handle>,
    uniform: Uniform,
    pipeline: Handle)

  /** The canvas's drawing-buffer size, two WebIDL `unsigned long`s. */
  datatype Canvas = Canvas(width: nat, height: nat)

  /** `actors` is the record of actors and `order` its ids in insertion
      order, the order `Object.values` visits them in (a uuid is never an
      array index, so no id is moved to the front). */
  datatype State = State(
    device: Device,
    shaderModules: map<string, Handle>,
    actors: map<ActorId, ActorRecord>,
    order: seq<ActorId>,
    nextId: nat,
    canvas: Canvas,
    camera: Camera)

  /** The table invariant: `order` lists exactly the table's ids, each once;
      every id was handed out already; every cached module, pipeline and
      buffer handle names an object of the right kind on the device. */
  predicate Valid(s: State) {
    && Distinct(s.order)
    && (forall id :: id in s.order ==> id in s.actors)
    && (forall id :: id in s.actors ==> id in s.order)
    && (forall id :: id in s.actors ==> id < s.nextId)
    && CacheOk(s.device, s.shaderModules)
    && (forall id :: id in s.actors ==> RecordOk(s.device, s.actors[id]))
  }

  /** Every cached handle names a shader module on the device. */
  predicate CacheOk(d: Device, cache: map<string, Handle>) {
    forall n :: n in cache ==> cache[n] < |d.objects| && d.objects[cache[n]].ShaderModule?
  }

  /** No id occurs twice. */
  predicate Distinct(ids: seq<ActorId>) {
    forall i, j :: 0 <= i < j < |ids| ==> ids[i] != ids[j]
  }

  /** The resources of one record exist and have the right kinds. */
  predicate RecordOk(d: Device, rec: ActorRecord) {
    && rec.pipeline < |d.objects| && d.objects[rec.pipeline].RenderPipeline?
    && rec.uniform.buffer < |d.objects| && d.objects[rec.uniform.buffer].Buffer?
    && rec.uniform.bindGroup < |d.objects| && d.objects[rec.uniform.bindGroup].BindGroup?
    && (rec.vertexBuffer.Some? <==> rec.actor.mesh.Some?)
    && (rec.indexBuffer.Some? <==> rec.actor.mesh.Some?)
    && (rec.vertexBuffer.Some? ==> rec.vertexBuffer.value < |d.objects| && d.objects[rec.vertexBuffer.value].Buffer?)
    && (rec.indexBuffer.Some? ==> rec.indexBuffer.value < |d.objects| && d.objects[rec.indexBuffer.value].Buffer?)
  }

  /** `d'` holds every object of `d` under the same handle. */
  predicate Extends(d: Device, d': Device) {
    |d.objects| <= |d'.objects| && forall h: nat :: h < |d.objects| ==> d'.objects[h] == d.objects[h]
  }

  lemma ExtendsPrefix(d: Device, d': Device)
    requires d.objects <= d'.objects
    ensures Extends(d, d')
  {
  }

  /** Cached shader modules stay where they are as the device grows. */
  lemma ShadersSurvive(d: Device, d': Device, cache: map<string, Handle>)
    requires Extends(d, d')
    requires CacheOk(d, cache)
    ensures CacheOk(d', cache)
  {
  }

  lemma ExtendsTransitive(d1: Device, d2: Device, d3: Device)
    requires Extends(d1, d2) && Extends(d2, d3)
    ensures Extends(d1, d3)
  {
  }

  /** Creating objects keeps every existing handle's object. */
  lemma RecordOkGrows(d: Device, d': Device, rec: ActorRecord)
    requires RecordOk(d, rec) && Extends(d, d')
    ensures RecordOk(d', rec)
  {
  }

  /** The renderer before any actor is added. */
  function NewState(canvas: Canvas, basis: Basis): (s: State)
    ensures Valid(s) && s.actors == map[] && s.shaderModules == map[]
  {
    State(EmptyDevice, map[], map[], [], 0, canvas, Cameras.New(basis))
  }

  // ---------------------------------------------------------------------
  // addActor

  /** `shaderModules[name] ??= createShaderModule(code)`: a module is
      created only for a name not cached yet; a cached entry is never
      replaced. */
  function CacheShader(d: Device, cache: map<string, Handle>, store: ShaderStore): (r: (Device, map<string, Handle>))
    ensures store.name in r.1 && r.1.Keys == cache.Keys + {store.name}
    ensures forall n :: n in cache ==> r.1[n] == cache[n]
    ensures store.name in cache ==> r.0 == d
    ensures store.name !in cache ==> r.1[store.name] == |d.objects| && r.0.objects == d.objects + [ShaderModule(store.code)]
    ensures r.0.destroyed == d.destroyed && r.0.writes == d.writes && r.0.submitted == d.submitted
  {
    if store.name in cache then (d, cache)
    else
      var (d', h) := CreateShaderModule(d, store.code);
      (d', cache[store.name := h])
  }

  /** `actor.mesh && mapBuffer(data, usage)`: no buffer without a mesh;
      otherwise the upload, which throws when `mapBuffer` does. */
  function Upload(d: Device, mesh: Option<Meshes.Mesh>, data: Contents, usage: BufferUsage, sizing: Sizing): (r: Result<(Device, Option<Handle>), GpuError>)
    ensures mesh.None? ==> r == Ok((d, None))
    ensures mesh.Some? ==> (r.Err? <==> sizing == Exact && ByteLength(data) % 4 != 0)
    ensures mesh.Some? && r.Ok? ==> r.value.1 == Some(|d.objects|)
    ensures mesh.Some? && r.Ok? ==>
      r.value.0 == d.(objects := d.objects + [Buffer(BufferSize(sizing, ByteLength(data)), {usage, CopyDst}, data)])
  {
    if mesh.None? then Ok((d, None))
    else
      var mapped := MapBufferSized(d, data, usage, sizing);
      if mapped.Err? then Err(mapped.error) else Ok((mapped.value.0, Some(mapped.value.1)))
  }

  /** The vertex buffer `addActor` creates for a mesh: its positions as
      32-bit floats. */
  function VertexBufferOf(m: Meshes.Mesh): GpuObject {
    Buffer(4 * |m.positions|, {VertexUsage, CopyDst}, Floats(m.positions))
  }

  /** The index buffer `addActor` creates for a mesh: its indices as 16-bit
      integers, in a buffer sized by `sizing`. */
  function IndexBufferOf(m: Meshes.Mesh, sizing: Sizing): GpuObject {
    Buffer(BufferSize(sizing, 2 * |m.indices|), {IndexUsage, CopyDst}, Halves(m.indices))
  }
  /** The bytes per actor uniform (one 4x4 float matrix) and its slot. */
  const ModelUniformSize: nat := 16 * 4
  const ModelGroup: nat := 1

  /** The two `??=` lines of `addActor`. */
  function CacheShaders(d: Device, cache: map<string, Handle>, a: Actor): (r: (Device, map<string, Handle>))
    requires CacheOk(d, cache)
    ensures var (d', cache') := r;
      && Extends(d, d') && d'.destroyed == d.destroyed && d'.writes == d.writes && d'.submitted == d.submitted
      && cache'.Keys == cache.Keys + {a.vertexShader.name, a.fragmentShader.name}
      && (forall n :: n in cache ==> cache'[n] == cache[n])
      && CacheOk(d', cache')
      && (a.vertexShader.name !in cache ==> d'.objects[cache'[a.vertexShader.name]] == ShaderModule(a.vertexShader.code))
      && (a.fragmentShader.name !in cache && a.fragmentShader.name != a.vertexShader.name ==>
            d'.objects[cache'[a.fragmentShader.name]] == ShaderModule(a.fragmentShader.code))
  {
    var (d1, cache1) := CacheShader(d, cache, a.vertexShader);
    var (d2, cache2) := CacheShader(d1, cache1, a.fragmentShader);
    (d2, cache2)
  }

  /** The two `actor.mesh && mapBuffer(...)` lines: the positions as a
      float vertex buffer, then the indices as a 16-bit index buffer.  A
      float array's byte length is a multiple of 4, so only the index
      upload can throw, and by then the vertex buffer exists.  The result
      is the device after the uploads and either both handles or the
      error. */
  function UploadMesh(d: Device, a: Actor, sizing: Sizing): (r: (Device, Result<(Option<Handle>, Option<Handle>), GpuError>))
    ensures Extends(d, r.0)
    ensures r.1.Err? <==> sizing == Exact && a.mesh.Some? && |a.mesh.value.indices| % 2 == 1
    ensures a.mesh.None? ==> r == (d, Ok((None, None)))
    ensures a.mesh.Some? && r.1.Ok? ==> r.1.value == (Some(|d.objects|), Some(|d.objects| + 1))
    ensures a.mesh.Some? && r.1.Ok? ==>
      r.0 == d.(objects := d.objects + [VertexBufferOf(a.mesh.value), IndexBufferOf(a.mesh.value, sizing)])
    ensures a.mesh.Some? && r.1.Err? ==> r.0 == d.(objects := d.objects + [VertexBufferOf(a.mesh.value)])
  {
    var mesh := MeshOf(a);
    var vertex := Upload(d, a.mesh, Floats(mesh.positions), VertexUsage, sizing);
    assert ByteLength(Floats(mesh.positions)) % 4 == 0;
    var d1, vertexBuffer := vertex.value.0, vertex.value.1;
    var index := Upload(d1, a.mesh, Halves(mesh.indices), IndexUsage, sizing);
    OddHalves(|mesh.indices|);
    ExtendsPrefix(d, d1);
    if index.Err? then (d1, Err(index.error))
    else
      ExtendsPrefix(d1, index.value.0);
      (index.value.0, Ok((vertexBuffer, index.value.1)))
  }

  /** `n` 16-bit values fill a whole number of 4-byte words exactly when
      `n` is even. */
  lemma OddHalves(n: nat)
    ensures (2 * n) % 4 != 0 <==> n % 2 == 1
  {
  }

  /** For a mesh with an even number of indices the sizing makes no
      difference to the uploads. */
  lemma UploadMeshAgrees(d: Device, a: Actor)
    requires a.mesh.Some? ==> |a.mesh.value.indices| % 2 == 0
    ensures UploadMesh(d, a, Exact) == UploadMesh(d, a, Aligned)
  {
    if a.mesh.Some? {
      assert IndexBufferOf(a.mesh.value, Exact) == IndexBufferOf(a.mesh.value, Aligned);
    }
  }

  /** The resources `addActor` creates for an actor, in order: the shader
      modules missing from the cache, the vertex and index buffers (when
      the actor has a mesh), the pipeline, and the uniform buffer with its
      bind group.  The pipeline culls back faces whatever the actor's cull
      mode, and is new on every call.  When the index upload throws, the
      shader modules are cached and the vertex buffer exists, but nothing
      after it is created. */
  function Prepare(d: Device, cache: map<string, Handle>, a: Actor, sizing: Sizing): (r: (Device, map<string, Handle>, Result<ActorRecord, GpuError>))
    requires CacheOk(d, cache)
    ensures Extends(d, r.0) && r.0.destroyed == d.destroyed && r.0.writes == d.writes && r.0.submitted == d.submitted
    ensures CacheOk(r.0, r.1)
    ensures r.1 == CacheShaders(d, cache, a).1
    ensures r.2.Err? <==> sizing == Exact && a.mesh.Some? && |a.mesh.value.indices| % 2 == 1
    ensures r.2.Err? ==> r.0.objects == CacheShaders(d, cache, a).0.objects + [VertexBufferOf(a.mesh.value)]
    ensures r.2.Ok? ==> var d', cache', rec := r.0, r.1, r.2.value;
      && rec.actor == a && RecordOk(d', rec)
      && |d.objects| <= rec.pipeline
      && d'.objects[rec.pipeline] == RenderPipeline(cache'[a.vertexShader.name], cache'[a.fragmentShader.name], a.topology, CullBack)
      && d'.objects[rec.uniform.buffer] == Buffer(ModelUniformSize, {UniformUsage, CopyDst}, Zeros)
      && d'.objects[rec.uniform.bindGroup] == BindGroup(rec.pipeline, ModelGroup, 0, rec.uniform.buffer)
  {
    var shaders := CacheShaders(d, cache, a);
    var d1, cache1 := shaders.0, shaders.1;
    var upload := UploadMesh(d1, a, sizing);
    var d2 := upload.0;
    ExtendsTransitive(d, d1, d2);
    if upload.1.Err? then
      ShadersSurvive(d1, d2, cache1);
      (d2, cache1, Err(upload.1.error))
    else
      var attached := Attach(d2, cache1[a.vertexShader.name], cache1[a.fragmentShader.name], a, upload.1.value.0, upload.1.value.1);
      var d3, rec := attached.0, attached.1;
      ExtendsTransitive(d, d2, d3);
      ExtendsTransitive(d1, d2, d3);
      ShadersSurvive(d1, d3, cache1);
      (d3, cache1, Ok(rec))
  }

  /** An actor with a mesh gets a vertex buffer holding its positions and
      an index buffer holding its indices, sized by `sizing`. */
  lemma PrepareUploadsMesh(d: Device, cache: map<string, Handle>, a: Actor, sizing: Sizing)
    requires CacheOk(d, cache)
    requires a.mesh.Some?
    ensures var p := Prepare(d, cache, a, sizing);
      p.2.Ok? ==>
        && p.2.value.vertexBuffer.Some? && p.2.value.indexBuffer.Some?
        && p.0.objects[p.2.value.vertexBuffer.value] == Buffer(4 * |a.mesh.value.positions|, {VertexUsage, CopyDst}, Floats(a.mesh.value.positions))
        && p.0.objects[p.2.value.indexBuffer.value] == Buffer(BufferSize(sizing, 2 * |a.mesh.value.indices|), {IndexUsage, CopyDst}, Halves(a.mesh.value.indices))
  {
    var d1, cache1 := CacheShaders(d, cache, a).0, CacheShaders(d, cache, a).1;
    var upload := UploadMesh(d1, a, sizing);
    if upload.1.Ok? {
      var attached := Attach(upload.0, cache1[a.vertexShader.name], cache1[a.fragmentShader.name], a, upload.1.value.0, upload.1.value.1);
      assert Prepare(d, cache, a, sizing) == (attached.0, cache1, Ok(attached.1));
    }
  }
  /** The `createRenderPipeline` and `createUniform` calls of `addActor`,
      and the record they complete. */
  function Attach(d: Device, vertex: Handle, fragment: Handle, a: Actor, vb: Option<Handle>, ib: Option<Handle>): (r: (Device, ActorRecord))
    requires (vb.Some? <==> a.mesh.Some?) && (ib.Some? <==> a.mesh.Some?)
    requires vb.Some? ==> vb.value < |d.objects| && d.objects[vb.value].Buffer?
    requires ib.Some? ==> ib.value < |d.objects| && d.objects[ib.value].Buffer?
    ensures var (d', rec) := r;
      && Extends(d, d') && d'.destroyed == d.destroyed && d'.writes == d.writes && d'.submitted == d.submitted
      && rec == ActorRecord(a, vb, ib, rec.uniform, rec.pipeline) && RecordOk(d', rec)
      && |d.objects| == rec.pipeline
      && d'.objects[rec.pipeline] == RenderPipeline(vertex, fragment, a.topology, CullBack)
      && d'.objects[rec.uniform.buffer] == Buffer(ModelUniformSize, {UniformUsage, CopyDst}, Zeros)
      && d'.objects[rec.uniform.bindGroup] == BindGroup(rec.pipeline, ModelGroup, 0, rec.uniform.buffer)
  {
    var (d1, pipeline) := CreateRenderPipeline(d, vertex, fragment, a.topology, CullBack);
    var (d2, uniform) := CreateUniform(d1, pipeline, ModelUniformSize, ModelGroup, 0);
    (d2, ActorRecord(a, vb, ib, uniform, pipeline))
  }

  /** `addActor(actor)`, with `mapBuffer` sized by `sizing` (`Exact` is the
      program as written).  When nothing throws, the record `Prepare`
      builds is stored under a new id, which is returned, and no other
      table entry changes.  As written, a mesh with an odd number of
      indices makes the index upload throw a `RangeError`: the table and
      the id counter stay as they were, but the shader modules are cached
      and the vertex buffer exists.  Either way no cached shader module is
      replaced and both shader names are cached afterwards. */
  function AddActor(s: State, a: Actor, sizing: Sizing): (r: (State, Result<ActorId, GpuError>))
    requires Valid(s)
    ensures Valid(r.0) && r.0.canvas == s.canvas && r.0.camera == s.camera
    ensures r.1.Err? <==> sizing == Exact && a.mesh.Some? && |a.mesh.value.indices| % 2 == 1
    ensures r.1.Err? ==> r.0.actors == s.actors && r.0.order == s.order && r.0.nextId == s.nextId
    ensures r.1.Ok? ==> var t, id := r.0, r.1.value;
      && id == s.nextId && id !in s.actors && id in t.actors
      && t.actors.Keys == s.actors.Keys + {id} && t.order == s.order + [id]
      && (forall other :: other in s.actors ==> t.actors[other] == s.actors[other])
      && t.actors[id].actor == a
  {
    var p := Prepare(s.device, s.shaderModules, a, sizing);
    Commit(s, p.0, p.1, p.2)
  }

  /** The device, the shader cache and the new record are those `Prepare`
      builds. */
  lemma AddActorPrepares(s: State, a: Actor, sizing: Sizing)
    requires Valid(s)
    ensures var r, p := AddActor(s, a, sizing), Prepare(s.device, s.shaderModules, a, sizing);
      && r.0.device == p.0 && r.0.shaderModules == p.1
      && (r.1.Ok? ==> r.1.value in r.0.actors && r.0.actors[r.1.value] == p.2.value)
  {
  }

  /** Both shader names are cached afterwards, and no cached module is
      replaced, whether or not the upload throws. */
  lemma AddActorCaches(s: State, a: Actor, sizing: Sizing)
    requires Valid(s)
    ensures var t := AddActor(s, a, sizing).0;
      && t.shaderModules.Keys == s.shaderModules.Keys + {a.vertexShader.name, a.fragmentShader.name}
      && forall n :: n in s.shaderModules ==> t.shaderModules[n] == s.shaderModules[n]
  {
    AddActorPrepares(s, a, sizing);
  }

  /** When the index upload throws, the error is a `RangeError` and the
      device holds the shader modules just cached and the vertex buffer,
      but no pipeline and no uniform. */
  lemma AddActorThrowsLate(s: State, a: Actor, sizing: Sizing)
    requires Valid(s)
    ensures var r := AddActor(s, a, sizing);
      r.1.Err? ==>
        && a.mesh.Some? && r.1.error == RangeError
        && r.0.device.objects == CacheShaders(s.device, s.shaderModules, a).0.objects + [VertexBufferOf(a.mesh.value)]
  {
    AddActorPrepares(s, a, sizing);
  }

  /** With no mesh, or an even number of indices, the program as written
      and the corrected one add the actor identically. */
  lemma AddActorAgrees(s: State, a: Actor)
    requires Valid(s)
    requires a.mesh.Some? ==> |a.mesh.value.indices| % 2 == 0
    ensures AddActor(s, a, Exact) == AddActor(s, a, Aligned)
  {
    UploadMeshAgrees(CacheShaders(s.device, s.shaderModules, a).0, a);
    assert Prepare(s.device, s.shaderModules, a, Exact) == Prepare(s.device, s.shaderModules, a, Aligned);
  }

  /** Every call creates a new pipeline, even for an actor added before:
      there is no pipeline cache. */
  lemma NoPipelineCache(s: State, a: Actor, sizing: Sizing)
    requires Valid(s)
    ensures var r := AddActor(s, a, sizing);
      r.1.Ok? ==> forall other :: other in s.actors ==> r.0.actors[r.1.value].pipeline != r.0.actors[other].pipeline
  {
    var r := AddActor(s, a, sizing);
    if r.1.Ok? {
      var rec := Prepare(s.device, s.shaderModules, a, sizing).2.value;
      assert r.0.actors[r.1.value] == rec;
      forall other | other in s.actors ensures rec.pipeline != r.0.actors[other].pipeline {
        assert RecordOk(s.device, s.actors[other]);
      }
    }
  }

  /** The last step of `addActor`: a prepared record is stored under the
      next id, which is returned; when preparing threw, the device and the
      shader cache move on but the table does not. */
  function Commit(s: State, d: Device, cache: map<string, Handle>, prepared: Result<ActorRecord, GpuError>): (r: (State, Result<ActorId, GpuError>))
    requires Valid(s)
    requires Extends(s.device, d)
    requires CacheOk(d, cache)
    requires prepared.Ok? ==> RecordOk(d, prepared.value)
    ensures Valid(r.0) && r.0.device == d && r.0.shaderModules == cache
    ensures r.0.canvas == s.canvas && r.0.camera == s.camera
    ensures r.1.Err? <==> prepared.Err?
    ensures r.1.Err? ==> r.1.error == prepared.error && r.0.actors == s.actors && r.0.order == s.order && r.0.nextId == s.nextId
    ensures r.1.Ok? ==> var t, id := r.0, r.1.value;
      && id == s.nextId && id !in s.actors && t.actors == s.actors[id := prepared.value] && t.order == s.order + [id]
      && t.actors.Keys == s.actors.Keys + {id} && (forall other :: other in s.actors ==> t.actors[other] == s.actors[other])
  {
    if prepared.Err? then
      ValidGrows(s, d);
      (s.(device := d, shaderModules := cache), Err(prepared.error))
    else
      (Store(s, d, cache, prepared.value), Ok(s.nextId))
  }

  /** `this.actors[id] = {...}` for the next id. */
  function Store(s: State, d: Device, cache: map<string, Handle>, rec: ActorRecord): (t: State)
    requires Valid(s)
    requires Extends(s.device, d)
    requires CacheOk(d, cache)
    requires RecordOk(d, rec)
    ensures Valid(t) && t.device == d && t.shaderModules == cache
    ensures t.canvas == s.canvas && t.camera == s.camera && t.nextId == s.nextId + 1
    ensures s.nextId !in s.actors && t.actors == s.actors[s.nextId := rec] && t.order == s.order + [s.nextId]
    ensures t.actors.Keys == s.actors.Keys + {s.nextId}
    ensures forall other :: other in s.actors ==> t.actors[other] == s.actors[other]
  {
    AddActorValid(s, d, cache, rec);
    StoredKeys(s.actors, s.nextId, rec);
    s.(device := d, shaderModules := cache, actors := s.actors[s.nextId := rec], order := s.order + [s.nextId], nextId := s.nextId + 1)
  }

  lemma StoredKeys(actors: map<ActorId, ActorRecord>, id: ActorId, rec: ActorRecord)
    ensures actors[id := rec].Keys == actors.Keys + {id}
    ensures id !in actors ==> forall other :: other in actors ==> actors[id := rec][other] == actors[other]
  {
  }

  /** The new state of `AddActor` satisfies the invariant. */
  lemma AddActorValid(s: State, d: Device, cache: map<string, Handle>, rec: ActorRecord)
    requires Valid(s)
    requires Extends(s.device, d)
    requires CacheOk(d, cache)
    requires RecordOk(d, rec)
    ensures Valid(s.(device := d, shaderModules := cache, actors := s.actors[s.nextId := rec], order := s.order + [s.nextId], nextId := s.nextId + 1))
  {
    ValidGrows(s, d);
    var order := s.order + [s.nextId];
    forall i, j | 0 <= i < j < |order| ensures order[i] != order[j] {
      if j == |s.order| {
        assert order[i] in s.actors;
      }
    }
  }

  // ---------------------------------------------------------------------
  // removeActor

  /** `order` without `id`. */
  function Without(order: seq<ActorId>, id: ActorId): (r: seq<ActorId>)
    ensures forall x :: x in r <==> x in order && x != id
    ensures id !in order ==> r == order
    ensures Distinct(order) ==> Distinct(r)
    ensures Distinct(order) ==> forall k :: 0 <= k < |order| && order[k] == id ==> r == order[..k] + order[k + 1..]
  {
    if |order| == 0 then []
    else
      var front := order[..|order| - 1];
      var rest := Without(front, id);
      var last := order[|order| - 1];
      assert order == front + [last];
      assert last !in front ==> last !in rest;
      WithoutSplits(order, front, rest, id);
      if last == id then rest else rest + [last]
  }

  /** The step of `Without`'s order clause: removing `id` from `front + [last]`
      cuts it out at its one position and keeps the rest in place. */
  lemma WithoutSplits(order: seq<ActorId>, front: seq<ActorId>, rest: seq<ActorId>, id: ActorId)
    requires |order| > 0 && front == order[..|order| - 1]
    requires forall x :: x in rest <==> x in front && x != id
    requires id !in front ==> rest == front
    requires Distinct(front) ==> forall k :: 0 <= k < |front| && front[k] == id ==> rest == front[..k] + front[k + 1..]
    ensures Distinct(order) ==> forall k :: 0 <= k < |order| && order[k] == id ==>
      (if order[|order| - 1] == id then rest else rest + [order[|order| - 1]]) == order[..k] + order[k + 1..]
  {
    if Distinct(order) {
      assert Distinct(front);
      forall k | 0 <= k < |order| && order[k] == id
        ensures (if order[|order| - 1] == id then rest else rest + [order[|order| - 1]]) == order[..k] + order[k + 1..]
      {
        if k == |order| - 1 {
          assert id !in front;
          assert order[..k] == front;
        } else {
          assert front[k] == id;
          assert order[|order| - 1] != id;
          assert order[..k] == front[..k];
          assert order[k + 1..] == front[k + 1..] + [order[|order| - 1]];
        }
      }
    }
  }

  /** `removeActor(id)`: the entry is deleted and nothing else changes; an
      unknown id changes nothing.  The actor's buffers and pipeline are not
      released. */
  function RemoveActor(s: State, id: ActorId): (r: State)
    requires Valid(s)
    ensures Valid(r)
    ensures r.actors == s.actors - {id}
    ensures forall x :: x in r.order <==> x in s.order && x != id
    ensures forall k :: 0 <= k < |s.order| && s.order[k] == id ==> r.order == s.order[..k] + s.order[k + 1..]
    ensures r.device == s.device && r.shaderModules == s.shaderModules && r.nextId == s.nextId
    ensures r.canvas == s.canvas && r.camera == s.camera
    ensures id !in s.actors ==> r == s
  {
    RemoveValid(s, id);
    RemoveAbsent(s.actors, id);
    s.(actors := s.actors - {id}, order := Without(s.order, id))
  }

  lemma RemoveValid(s: State, id: ActorId)
    requires Valid(s)
    ensures Valid(s.(actors := s.actors - {id}, order := Without(s.order, id)))
  {
    var actors, order := s.actors - {id}, Without(s.order, id);
    forall x | x in order ensures x in actors {
      assert x in s.order;
    }
    forall x | x in actors ensures x in order && x < s.nextId && RecordOk(s.device, actors[x]) {
      assert x in s.actors && actors[x] == s.actors[x];
    }
  }

  lemma RemoveAbsent(actors: map<ActorId, ActorRecord>, id: ActorId)
    ensures id !in actors ==> actors - {id} == actors
  {
  }

  /** An added actor can be removed again, leaving the table as it was;
      only the device keeps the resources created for it. */
  lemma AddThenRemove(s: State, a: Actor, sizing: Sizing)
    requires Valid(s)
    ensures var r := AddActor(s, a, sizing);
      r.1.Ok? ==> RemoveActor(r.0, r.1.value).actors == s.actors && RemoveActor(r.0, r.1.value).order == s.order
  {
    var r := AddActor(s, a, sizing);
    if r.1.Ok? {
      var t, id := r.0, r.1.value;
      assert t.order == s.order + [id];
      assert id !in s.order;
      assert Without(s.order, id) == s.order;
      assert (s.order + [id])[..|s.order + [id]| - 1] == s.order;
      RemoveAdded(s.actors, id, t.actors[id]);
    }
  }

  lemma RemoveAdded(actors: map<ActorId, ActorRecord>, id: ActorId, rec: ActorRecord)
    requires id !in actors
    ensures actors[id := rec] - {id} == actors
  {
  }

  /** Growing the device keeps the table invariant. */
  lemma ValidGrows(s: State, d: Device)
    requires Valid(s) && Extends(s.device, d)
    ensures Valid(s.(device := d))
  {
    forall id | id in s.actors ensures RecordOk(d, s.actors[id]) {
      RecordOkGrows(s.device, d, s.actors[id]);
    }
  }
}
