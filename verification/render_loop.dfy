/** `render()` and its frame loop: the setup before the first frame, the
    DOM listeners, and one run of `frame`, over the abstract device of `Gpu`
    and the actor table of `Renderer`. */
module RenderLoop {
  import opened Results
  import opened Actors
  import opened Gpu
  import Input
  import Cameras
  import opened Renderer
  import opened Controls
  import opened RenderPass

  /** The host computations the model takes as given: what a transform
      callback returns, `lookAt`, the perspective projection for a canvas
      size, and the camera's movement directions. */
  datatype Host = Host(
    evaluate: (Transform, Mat4) -> Mat4,
    lookAt: (Cameras.Vec3, Cameras.Direction, Cameras.Vec3) -> Mat4,
    projection: (nat, nat) -> Mat4,
    basis: Cameras.Basis)

  /** The running frame loop: the renderer, the current depth texture, the
      shared view-projection uniform, the two matrices written into it, and
      the input bindings. */
  datatype Loop = Loop(
    state: State,
    depth: Handle,
    viewProjection: Uniform,
    view: Mat4,
    projection: Mat4,
    controls: Handler)

  predicate LoopValid(l: Loop) {
    Valid(l.state) && Input.Valid(l.controls) && l.depth < |l.state.device.objects|
  }

  /** The bytes of the shared uniform (view then projection) and its slot. */
  const ViewProjectionSize: nat := 16 * 4 * 2
  const ProjectionOffset: nat := 16 * 4

  /** `mat4.identity()` with element 14 set to -10: the camera ten units
      back. */
  const InitialView: Mat4 := Identity[14 := -10.0]

  /** `render()` before the first frame: a depth texture of the canvas
      size, a view-projection pipeline over two new (uncached) default
      shader modules, a 128-byte uniform at group 0, binding 0, the initial
      view and projection written into it, and the key and mouse bindings.
      The actor table and the shader cache are untouched. */
  function Render(host: Host, s: State): (l: Loop)
    requires Valid(s)
    ensures LoopValid(l)
    ensures l.state == s.(device := l.state.device)
    ensures var d := l.state.device; var n := |s.device.objects|;
      && d.objects == s.device.objects + [
           Texture(s.canvas.width, s.canvas.height),
           ShaderModule(DefaultVert), ShaderModule(DefaultFrag),
           RenderPipeline(n + 1, n + 2, TriangleList, CullBack),
           Buffer(ViewProjectionSize, {UniformUsage, CopyDst}, Zeros),
           BindGroup(n + 3, 0, 0, n + 4)]
      && l.depth == n && l.viewProjection == Uniform(n + 4, n + 5)
    ensures l.view == InitialView && l.projection == host.projection(s.canvas.width, s.canvas.height)
    ensures l.state.device.writes == s.device.writes + [
      Write(l.viewProjection.buffer, 0, l.view), Write(l.viewProjection.buffer, ProjectionOffset, l.projection)]
    ensures l.controls == NewControls()
  {
    var (d1, depth) := CreateTexture(s.device, s.canvas.width, s.canvas.height);
    var (d2, vertex) := CreateShaderModule(d1, DefaultVert);
    var (d3, fragment) := CreateShaderModule(d2, DefaultFrag);
    var (d4, pipeline) := CreateRenderPipeline(d3, vertex, fragment, TriangleList, CullBack);
    var (d5, vp) := CreateUniform(d4, pipeline, ViewProjectionSize, 0, 0);
    var projection := host.projection(s.canvas.width, s.canvas.height);
    var d6 := WriteBuffer(WriteBuffer(d5, vp.buffer, 0, InitialView), vp.buffer, ProjectionOffset, projection);
    var n := |s.device.objects|;
    assert d6.objects == s.device.objects + [
      Texture(s.canvas.width, s.canvas.height), ShaderModule(DefaultVert), ShaderModule(DefaultFrag),
      RenderPipeline(n + 1, n + 2, TriangleList, CullBack),
      Buffer(ViewProjectionSize, {UniformUsage, CopyDst}, Zeros), BindGroup(n + 3, 0, 0, n + 4)];
    ExtendsPrefix(s.device, d6);
    ValidGrows(s, d6);
    Loop(s.(device := d6), depth, vp, InitialView, projection, NewControls())
  }

  // ---------------------------------------------------------------------
  // The DOM listeners, at the loop level

  function KeyDown(l: Loop, key: string): (r: Loop)
    requires LoopValid(l)
    ensures LoopValid(r) && r == l.(controls := Input.KeyDown(l.controls, key))
  {
    l.(controls := Input.KeyDown(l.controls, key))
  }

  function KeyUp(l: Loop, key: string): (r: Loop)
    requires LoopValid(l)
    ensures LoopValid(r) && r == l.(controls := Input.KeyUp(l.controls, key))
  {
    l.(controls := Input.KeyUp(l.controls, key))
  }

  /** A mouse move turns the camera, while the pointer is locked, by the
      movement with its vertical part negated; otherwise nothing changes. */
  function MouseMove(l: Loop, movementX: real, movementY: real, locked: bool): (r: Loop)
    requires LoopValid(l)
    ensures LoopValid(r) && r.controls == l.controls
    ensures !locked ==> r == l
    ensures locked && l.controls.mouse.Some? ==>
      r == l.(state := l.state.(camera := Cameras.LookAround(l.state.camera, movementX, -movementY)))
  {
    match Input.MouseMove(l.controls, movementX, movementY, locked)
    case None => l
    case Some((_, x, y)) => l.(state := l.state.(camera := Cameras.LookAround(l.state.camera, x, y)))
  }

  // ---------------------------------------------------------------------
  // One frame: resize

  /** The size of the window and of its pixels, and whether the pointer is
      locked, at the time a frame runs. */
  datatype Env = Env(clientWidth: nat, clientHeight: nat, devicePixelRatio: real, pointerLocked: bool)

  /** `x` rounded toward zero. */
  function Truncate(x: real): (r: int)
    ensures x >= 0.0 ==> r as real <= x < r as real + 1.0
    ensures x < 0.0 ==> r as real - 1.0 < x <= r as real
  {
    if x >= 0.0 then x.Floor else -((-x).Floor)
  }

  /** Assigning the number `x` to `canvas.width` (or `height`) and reading
      it back: the WebIDL `unsigned long` conversion truncates and wraps
      modulo 2^32, and the reflected attribute falls back to its default
      (300 wide, 150 high) for a value above 2^31 - 1. */
  function Dimension(x: real, default: nat): (r: nat)
    ensures 0.0 <= x < 2147483648.0 ==> r as real <= x < r as real + 1.0
    ensures r <= 0x7FFF_FFFF || r == default
  {
    var t := Truncate(x) % 0x1_0000_0000;
    if t <= 0x7FFF_FFFF then t else default
  }

  lemma DimensionOfWhole(n: nat, default: nat)
    requires n <= 0x7FFF_FFFF
    ensures Dimension(n as real, default) == n
  {
  }

  /** `clientWidth * devicePixelRatio` and `clientHeight *
      devicePixelRatio`, the window's size in device pixels. */
  function DeviceWidth(env: Env): real {
    env.clientWidth as real * env.devicePixelRatio
  }

  function DeviceHeight(env: Env): real {
    env.clientHeight as real * env.devicePixelRatio
  }

  /** The size the canvas has after the frame assigns the new size. */
  function Target(env: Env): (c: Canvas)
    ensures c.width == Dimension(DeviceWidth(env), 300) && c.height == Dimension(DeviceHeight(env), 150)
  {
    Canvas(Dimension(DeviceWidth(env), 300), Dimension(DeviceHeight(env), 150))
  }

  /** The resize test as written: the unconverted products against the
      stored size. */
  predicate NeedsResizeAsWritten(c: Canvas, env: Env) {
    DeviceWidth(env) != c.width as real || DeviceHeight(env) != c.height as real
  }

  /** The resize test compared after conversion, the size the canvas will
      actually have. */
  predicate NeedsResize(c: Canvas, env: Env) {
    Target(env) != c
  }

  /** The resize branch: destroy the depth texture, store the new size,
      recompute the projection and create a depth texture of the new
      size. */
  function Reallocate(host: Host, l: Loop, env: Env): (r: Loop)
    requires LoopValid(l)
    ensures LoopValid(r)
    ensures r.state.canvas == Target(env) && r.projection == host.projection(Target(env).width, Target(env).height)
    ensures r.depth == |l.state.device.objects|
    ensures r.state.device.objects == l.state.device.objects + [Texture(Target(env).width, Target(env).height)]
    ensures r.state.device.destroyed == l.state.device.destroyed + {l.depth}
    ensures r.state.device.writes == l.state.device.writes && r.state.device.submitted == l.state.device.submitted
    ensures r == l.(state := r.state, depth := r.depth, projection := r.projection)
    ensures r.state == l.state.(device := r.state.device, canvas := r.state.canvas)
  {
    var t := Target(env);
    var d1 := Destroy(l.state.device, l.depth);
    var (d2, depth) := CreateTexture(d1, t.width, t.height);
    ValidGrows(l.state, d2);
    l.(state := l.state.(device := d2, canvas := t), depth := depth, projection := host.projection(t.width, t.height))
  }

  /** Which resize test a frame runs: `Unconverted` compares the
      products themselves with the stored size, as the program does;
      `Converted` compares the size the canvas would actually get. */
  datatype ResizeTest = Unconverted | Converted

  predicate Fires(test: ResizeTest, c: Canvas, env: Env) {
    if test == Unconverted then NeedsResizeAsWritten(c, env) else NeedsResize(c, env)
  }

  /** The frame's resize step: reallocate when the test fires, otherwise
      leave the loop alone.  After the converted test the canvas always
      has the size the window asks for. */
  function Resize(host: Host, l: Loop, env: Env, test: ResizeTest): (r: Loop)
    requires LoopValid(l)
    ensures LoopValid(r)
    ensures test == Converted ==> r.state.canvas == Target(env)
    ensures Fires(test, l.state.canvas, env) ==> r == Reallocate(host, l, env)
    ensures !Fires(test, l.state.canvas, env) ==> r == l
  {
    if Fires(test, l.state.canvas, env) then Reallocate(host, l, env) else l
  }

  /** Once resized, an unchanged window reallocates nothing. */
  lemma ResizeSettles(host: Host, l: Loop, env: Env)
    requires LoopValid(l)
    ensures Resize(host, Resize(host, l, env, Converted), env, Converted) == Resize(host, l, env, Converted)
  {
  }

  /** When the window's size in device pixels is whole (and in range) the
      two tests agree. */
  lemma ResizeTestsAgree(c: Canvas, env: Env, w: nat, h: nat)
    requires DeviceWidth(env) == w as real && w <= 0x7FFF_FFFF
    requires DeviceHeight(env) == h as real && h <= 0x7FFF_FFFF
    ensures NeedsResizeAsWritten(c, env) <==> NeedsResize(c, env)
  {
    DimensionOfWhole(w, 300);
    DimensionOfWhole(h, 150);
  }

  /** A window 801 by 600 CSS pixels at a device pixel ratio of 1.25 is
      1001.25 by 750 device pixels.  The canvas can only hold 1001 by 750,
      so the test as written fires on every frame: the depth texture is
      destroyed and recreated each time, while the canvas size stays the
      same.  The corrected test leaves such a loop alone. */
  lemma ReallocatesEveryFrame(host: Host, l: Loop)
    requires LoopValid(l) && l.state.canvas == Canvas(1001, 750)
    ensures var env := Env(801, 600, 1.25, false);
      && Resize(host, l, env, Unconverted).state.canvas == l.state.canvas
      && l.depth in Resize(host, l, env, Unconverted).state.device.destroyed
      && |Resize(host, l, env, Unconverted).state.device.objects| == |l.state.device.objects| + 1
      && Resize(host, l, env, Converted) == l
  {
    var env := Env(801, 600, 1.25, false);
    assert DeviceWidth(env) == 1001.25;
    assert Truncate(1001.25) == 1001;
    assert Target(env) == Canvas(1001, 750);
  }

  /** The part of a frame before the `forEach`: the resize step, the key
      callbacks (called with dt = 0), the view from the camera, and the two
      writes of the view and the projection. */
  function Prologue(host: Host, l: Loop, env: Env, test: ResizeTest): (r: Loop)
    requires LoopValid(l)
    ensures LoopValid(r)
    ensures r.state.canvas == if Fires(test, l.state.canvas, env) then Target(env) else l.state.canvas
    ensures test == Converted ==> r.state.canvas == Target(env)
    ensures r.state.camera == l.state.camera
    ensures r.view == Cameras.Apply(host.lookAt, l.state.camera)
    ensures Fires(test, l.state.canvas, env) ==>
      && r.depth == |l.state.device.objects| && r.projection == host.projection(Target(env).width, Target(env).height)
      && r.state.device.objects == l.state.device.objects + [Texture(Target(env).width, Target(env).height)]
      && r.state.device.destroyed == l.state.device.destroyed + {l.depth}
    ensures !Fires(test, l.state.canvas, env) ==>
      && r.depth == l.depth && r.projection == l.projection
      && r.state.device.objects == l.state.device.objects && r.state.device.destroyed == l.state.device.destroyed
    ensures r.state.device.writes == l.state.device.writes + [
      Write(l.viewProjection.buffer, 0, r.view), Write(l.viewProjection.buffer, ProjectionOffset, r.projection)]
    ensures r.state.device.submitted == l.state.device.submitted
    ensures r.state == l.state.(device := r.state.device, canvas := r.state.canvas)
    ensures r.viewProjection == l.viewProjection && r.controls == l.controls
  {
    var l1 := Resize(host, l, env, test);
    var calls := Input.LoopCallbacks(l1.controls, 0.0, env.pointerLocked);
    var camera := RunMoves(host.basis, l1.state.camera, calls);
    var view := Cameras.Apply(host.lookAt, camera);
    var vp := l1.viewProjection;
    var d := WriteBuffer(WriteBuffer(l1.state.device, vp.buffer, 0, view), vp.buffer, ProjectionOffset, l1.projection);
    ValidGrows(l1.state, d);
    l1.(state := l1.state.(device := d, camera := camera), view := view)
  }

  /** Overwriting model matrices keeps the table invariant. */
  lemma ValidAfterPass(s: State, d: Device, actors: map<ActorId, ActorRecord>)
    requires Valid(s) && d.objects == s.device.objects && actors.Keys == s.actors.Keys
    requires forall id :: id in s.actors ==> SameButModel(actors[id], s.actors[id])
    ensures Valid(s.(device := d, actors := actors))
  {
    forall id | id in actors ensures RecordOk(d, actors[id]) {
      assert RecordOk(s.device, s.actors[id]);
    }
  }

  /** The loop after a frame: drawn and submitted, or stopped by the
      exception a missing transform throws, with nothing submitted. */
  datatype Outcome = Drawn(next: Loop) | Stopped(at: Loop, unset: ActorId)

  function After(o: Outcome): Loop {
    if o.Drawn? then o.next else o.at
  }

  /** The `forEach` over the table and the submission, after the
      prologue.  Only the device and the model matrices change.  The frame
      is drawn exactly when every actor has a transform; then the submitted
      command list is every actor's turn in table order, the model-matrix
      writes follow in that order, and each model matrix is
      `transform(identity)`.  Otherwise the pass stops at an actor without
      one and nothing is submitted. */
  function DrawActors(host: Host, l: Loop): (r: Outcome)
    requires LoopValid(l)
    ensures LoopValid(After(r))
    ensures After(r) == l.(state := l.state.(device := After(r).state.device, actors := After(r).state.actors))
    ensures After(r).state.actors.Keys == l.state.actors.Keys
    ensures After(r).state.device.objects == l.state.device.objects
    ensures After(r).state.device.destroyed == l.state.device.destroyed
    ensures r.Drawn? <==> forall i :: 0 <= i < |l.state.order| ==> l.state.actors[l.state.order[i]].actor.transform.Some?
    ensures r.Stopped? ==>
      && r.unset in l.state.order && l.state.actors[r.unset].actor.transform.None?
      && r.at.state.device.submitted == l.state.device.submitted
    ensures r.Drawn? ==>
      && r.next.state.device.submitted == l.state.device.submitted + [AllCommands(l.viewProjection.bindGroup, l.state.actors, l.state.order)]
      && r.next.state.device.writes == l.state.device.writes + ModelWrites(host.evaluate, l.state.actors, l.state.order)
      && (forall id :: id in l.state.order ==>
            r.next.state.actors[id].actor.modelMatrix == host.evaluate(l.state.actors[id].actor.transform.value, Identity))
  {
    var vp := l.viewProjection;
    var start := Pass(l.state.device, l.state.actors, [], None);
    var p := DrawAll(host.evaluate, vp.bindGroup, start, l.state.order);
    DrawAllKeeps(host.evaluate, vp.bindGroup, start, l.state.order);
    if p.failed.Some? then
      ValidAfterPass(l.state, p.device, p.actors);
      Stopped(l.(state := l.state.(device := p.device, actors := p.actors)), p.failed.value)
    else
      DrawAllCommands(host.evaluate, vp.bindGroup, start, l.state.order);
      DrawAllLog(host.evaluate, vp.bindGroup, start, l.state.order);
      DrawAllModels(host.evaluate, vp.bindGroup, start, l.state.order);
      var d := Submit(p.device, p.commands);
      ValidAfterPass(l.state, d, p.actors);
      Drawn(l.(state := l.state.(device := d, actors := p.actors)))
  }

  /** One run of `frame`, with the resize test `test` (`Unconverted` is
      the program as written).  The depth texture is replaced, and the
      canvas given the size the window asks for, exactly when the test
      fires; with the converted test the canvas always ends at that size.
      The camera does not move, because the key callbacks are called with
      dt = 0.  The frame is drawn exactly when every actor has a transform;
      then the submitted command list is every actor's turn in table
      order, each actor's model matrix is `transform(identity)`, and the
      writes are the view, the projection and the model matrices in that
      order.  Otherwise it stops at the first actor without one and submits
      nothing.  The table's ids, the shader cache and the id counter never
      change. */
  function Frame(host: Host, l: Loop, env: Env, test: ResizeTest): (r: Outcome)
    requires LoopValid(l)
    ensures LoopValid(After(r))
    ensures After(r).state.canvas == if Fires(test, l.state.canvas, env) then Target(env) else l.state.canvas
    ensures test == Converted ==> After(r).state.canvas == Target(env)
    ensures After(r).state.camera == l.state.camera
    ensures After(r).view == Cameras.Apply(host.lookAt, l.state.camera)
    ensures Fires(test, l.state.canvas, env) <==> After(r).depth != l.depth
    ensures Fires(test, l.state.canvas, env) ==> l.depth in After(r).state.device.destroyed
    ensures After(r).state.order == l.state.order && After(r).state.actors.Keys == l.state.actors.Keys
    ensures After(r).state.shaderModules == l.state.shaderModules && After(r).state.nextId == l.state.nextId
    ensures r.Drawn? <==> forall i :: 0 <= i < |l.state.order| ==> l.state.actors[l.state.order[i]].actor.transform.Some?
    ensures r.Stopped? ==>
      && r.unset in l.state.order && l.state.actors[r.unset].actor.transform.None?
      && r.at.state.device.submitted == l.state.device.submitted
    ensures r.Drawn? ==>
      r.next.state.device.submitted == l.state.device.submitted + [AllCommands(l.viewProjection.bindGroup, l.state.actors, l.state.order)]
    ensures r.Drawn? ==>
      r.next.state.device.writes == l.state.device.writes
        + [Write(l.viewProjection.buffer, 0, r.next.view), Write(l.viewProjection.buffer, ProjectionOffset, r.next.projection)]
        + ModelWrites(host.evaluate, l.state.actors, l.state.order)
    ensures r.Drawn? ==> forall id :: id in l.state.order ==>
      r.next.state.actors[id].actor.modelMatrix == host.evaluate(l.state.actors[id].actor.transform.value, Identity)
  {
    DrawActors(host, Prologue(host, l, env, test))
  }

  /** A drawn frame calls `drawIndexed` exactly once per actor with a
      mesh, with that mesh's index count, in table order. */
  lemma FrameDraws(host: Host, l: Loop, env: Env, test: ResizeTest)
    requires LoopValid(l)
    ensures var r := Frame(host, l, env, test);
      r.Drawn? ==> var sent := r.next.state.device.submitted;
        |sent| > 0 && Draws(sent[|sent| - 1]) == IndexCounts(l.state.actors, l.state.order)
  {
    var r := Frame(host, l, env, test);
    if r.Drawn? {
      var all := AllCommands(l.viewProjection.bindGroup, l.state.actors, l.state.order);
      assert r.next.state.device.submitted == l.state.device.submitted + [all];
      DrawsOfAll(l.viewProjection.bindGroup, l.state.actors, l.state.order);
    }
  }

  /** With the converted test, a second frame with the window unchanged
      keeps the depth texture. */
  lemma SecondFrameKeepsDepth(host: Host, l: Loop, env: Env)
    requires LoopValid(l)
    ensures var first := After(Frame(host, l, env, Converted));
      After(Frame(host, first, env, Converted)).depth == first.depth
  {
  }

  /** As written, the same holds when the window's size in device pixels
      is whole (and in range); `ReallocatesEveryFrame` shows it fails
      otherwise. */
  lemma SecondFrameKeepsDepthWhole(host: Host, l: Loop, env: Env, w: nat, h: nat)
    requires LoopValid(l)
    requires DeviceWidth(env) == w as real && w <= 0x7FFF_FFFF
    requires DeviceHeight(env) == h as real && h <= 0x7FFF_FFFF
    ensures var first := After(Frame(host, l, env, Unconverted));
      After(Frame(host, first, env, Unconverted)).depth == first.depth
  {
    ResizeTestsAgree(Target(env), env, w, h);
  }
}
