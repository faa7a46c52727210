/** An abstract GPU device: every object the renderer creates gets a fresh
    handle (its position in the device's object list), and the device
    records what was destroyed, what was written into buffers and which
    command lists were submitted.  No GPU work is modelled. */
module Gpu {
  import opened Results
  import opened JsNumber
  import opened Actors

  type Handle = nat

  /** `GPUBufferUsage` flags. */
  datatype BufferUsage = VertexUsage | IndexUsage | UniformUsage | CopyDst

  /** What a buffer holds: the data a mapped buffer was filled with, or the
      zeros an unmapped buffer starts with. */
  datatype Contents = Floats(floats: seq<Number>) | Halves(halves: seq<U16>) | Zeros

  datatype GpuObject =
    | ShaderModule(code: ShaderText)
    | Buffer(size: nat, usage: set<BufferUsage>, contents: Contents)
    | RenderPipeline(vertex: Handle, fragment: Handle, topology: Topology, cullMode: CullMode)
    | BindGroup(pipeline: Handle, group: nat, binding: nat, buffer: Handle)
    | Texture(width: nat, height: nat)

  /** `queue.writeBuffer(buffer, offset, data)`. */
  datatype Write = Write(buffer: Handle, offset: nat, data: Mat4)

  /** The render-pass commands the frame loop encodes. */
  datatype Command =
    | SetPipeline(pipeline: Handle)
    | SetBindGroup(index: nat, bindGroup: Handle)
    | SetVertexBuffer(slot: nat, buffer: Handle)
    | SetIndexBuffer(buffer: Handle)
    | DrawIndexed(count: nat)

  datatype Device = Device(objects: seq<GpuObject>, destroyed: set<Handle>, writes: seq<Write>, submitted: seq<seq<Command>>)

  /** The exception `createBuffer` throws. */
  datatype GpuError = RangeError

  const EmptyDevice := Device([], {}, [], [])

  /** A uniform buffer and the bind group exposing it. */
  datatype Uniform = Uniform(buffer: Handle, bindGroup: Handle)

  /** Creating an object: it gets the next handle and nothing else changes. */
  function Create(d: Device, o: GpuObject): (r: (Device, Handle))
    ensures r.1 == |d.objects| && r.0.objects == d.objects + [o]
    ensures r.0.objects[r.1] == o
    ensures r.0.destroyed == d.destroyed && r.0.writes == d.writes && r.0.submitted == d.submitted
  {
    (d.(objects := d.objects + [o]), |d.objects|)
  }

  function CreateShaderModule(d: Device, code: ShaderText): (Device, Handle) {
    Create(d, ShaderModule(code))
  }

  function CreateRenderPipeline(d: Device, vertex: Handle, fragment: Handle, topology: Topology, cullMode: CullMode): (Device, Handle) {
    Create(d, RenderPipeline(vertex, fragment, topology, cullMode))
  }

  function CreateTexture(d: Device, width: nat, height: nat): (Device, Handle) {
    Create(d, Texture(width, height))
  }

  function Destroy(d: Device, h: Handle): (r: Device)
    ensures r.objects == d.objects && r.destroyed == d.destroyed + {h}
    ensures r.writes == d.writes && r.submitted == d.submitted
  {
    d.(destroyed := d.destroyed + {h})
  }

  function WriteBuffer(d: Device, buffer: Handle, offset: nat, data: Mat4): (r: Device)
    ensures r.writes == d.writes + [Write(buffer, offset, data)]
    ensures r.objects == d.objects && r.destroyed == d.destroyed && r.submitted == d.submitted
  {
    d.(writes := d.writes + [Write(buffer, offset, data)])
  }

  function Submit(d: Device, commands: seq<Command>): (r: Device)
    ensures r.submitted == d.submitted + [commands]
    ensures r.objects == d.objects && r.destroyed == d.destroyed && r.writes == d.writes
  {
    d.(submitted := d.submitted + [commands])
  }

  /** The data a typed array holds and its `byteLength`: four bytes per
      `Float32Array` element, two per `Uint16Array` element. */
  function ByteLength(data: Contents): (n: nat)
    ensures data.Floats? ==> n == 4 * |data.floats|
    ensures data.Halves? ==> n == 2 * |data.halves|
    ensures data.Zeros? ==> n == 0
  {
    match data
    case Floats(f) => 4 * |f|
    case Halves(h) => 2 * |h|
    case Zeros => 0
  }

  /** `createBuffer({size, usage, mappedAtCreation})`: a buffer mapped at
      creation must have a size that is a multiple of 4, otherwise the call
      throws a RangeError (section "createBuffer" of the WebGPU
      specification); `contents` is what the mapped range is filled with
      before `unmap`. */
  function CreateBuffer(d: Device, size: nat, usage: set<BufferUsage>, mappedAtCreation: bool, contents: Contents): (r: Result<(Device, Handle), GpuError>)
    ensures r.Err? <==> mappedAtCreation && size % 4 != 0
    ensures r.Ok? ==> r.value.1 == |d.objects| && r.value.0.objects == d.objects + [Buffer(size, usage, contents)]
    ensures r.Ok? ==> r.value.0.destroyed == d.destroyed && r.value.0.writes == d.writes && r.value.0.submitted == d.submitted
  {
    if mappedAtCreation && size % 4 != 0 then Err(RangeError)
    else Ok(Create(d, Buffer(size, usage, contents)))
  }

  /** `mapBuffer(data, usage)` as written: a buffer of exactly `byteLength`
      bytes, mapped at creation and filled with the data.  A `Uint16Array`
      of odd length has a byte length that is not a multiple of 4, so this
      fails. */
  function MapBufferAsWritten(d: Device, data: Contents, usage: BufferUsage): (r: Result<(Device, Handle), GpuError>)
    ensures r.Err? <==> ByteLength(data) % 4 != 0
    ensures r.Ok? ==> r.value.1 == |d.objects|
    ensures r.Ok? ==> r.value.0.objects == d.objects + [Buffer(ByteLength(data), {usage, CopyDst}, data)]
    ensures r.Ok? ==> r.value.0.destroyed == d.destroyed && r.value.0.writes == d.writes && r.value.0.submitted == d.submitted
  {
    CreateBuffer(d, ByteLength(data), {usage, CopyDst}, true, data)
  }

  /** An odd number of 16-bit indices cannot be uploaded as written: a
      single triangle (three indices, six bytes) is refused. */
  lemma OddIndexCountRefused()
    ensures MapBufferAsWritten(EmptyDevice, Halves([0, 1, 2]), IndexUsage) == Err(RangeError)
  {
  }

  /** `n` rounded up to a multiple of 4. */
  function AlignTo4(n: nat): (r: nat)
    ensures r % 4 == 0 && n <= r < n + 4
  {
    (n + 3) / 4 * 4
  }

  /** `mapBuffer` with the buffer size rounded up to a multiple of 4, as a
      mapped buffer requires: it always succeeds, holds the data unchanged,
      has room for all of it, and adds `COPY_DST` to the usage. */
  function MapBuffer(d: Device, data: Contents, usage: BufferUsage): (r: (Device, Handle))
    ensures r.1 == |d.objects| && |r.0.objects| == |d.objects| + 1
    ensures r.0.objects[..|d.objects|] == d.objects
    ensures var b := r.0.objects[r.1];
      && b.Buffer? && b.contents == data && b.usage == {usage, CopyDst}
      && ByteLength(data) <= b.size < ByteLength(data) + 4 && b.size % 4 == 0
    ensures r.0.destroyed == d.destroyed && r.0.writes == d.writes && r.0.submitted == d.submitted
  {
    var created := CreateBuffer(d, AlignTo4(ByteLength(data)), {usage, CopyDst}, true, data);
    created.value
  }

  /** On data whose byte length is already a multiple of 4 (any float array,
      an even number of indices) the corrected upload is the one as written. */
  lemma MapBufferAgrees(d: Device, data: Contents, usage: BufferUsage)
    requires ByteLength(data) % 4 == 0
    ensures MapBufferAsWritten(d, data, usage) == Ok(MapBuffer(d, data, usage))
  {
  }

  /** How `mapBuffer` sizes the buffer it creates: `Exact` is the byte
      length, as the program does; `Aligned` rounds it up to a multiple of
      4, as `MapBuffer` does. */
  datatype Sizing = Exact | Aligned

  /** The size a buffer for `n` bytes gets under `sizing`. */
  function BufferSize(sizing: Sizing, n: nat): (r: nat)
    ensures n <= r < n + 4
    ensures n % 4 == 0 ==> r == n
  {
    if sizing == Exact then n else AlignTo4(n)
  }

  /** `mapBuffer(data, usage)` under either sizing: only the exact sizing
      can throw, and only for a byte length that is not a multiple of 4;
      otherwise exactly one buffer holding the data is created. */
  function MapBufferSized(d: Device, data: Contents, usage: BufferUsage, sizing: Sizing): (r: Result<(Device, Handle), GpuError>)
    ensures r.Err? <==> sizing == Exact && ByteLength(data) % 4 != 0
    ensures r.Ok? ==> r.value.1 == |d.objects|
    ensures r.Ok? ==> r.value.0 == d.(objects := d.objects + [Buffer(BufferSize(sizing, ByteLength(data)), {usage, CopyDst}, data)])
  {
    if sizing == Exact then MapBufferAsWritten(d, data, usage) else Ok(MapBuffer(d, data, usage))
  }

  /** `createUniform(pipeline, size, group, binding)`: an unmapped
      uniform buffer of `size` bytes and a bind group placing it at
      `binding` of the pipeline's group `group`. */
  function CreateUniform(d: Device, pipeline: Handle, size: nat, group: nat, binding: nat): (r: (Device, Uniform))
    ensures r.1.buffer == |d.objects| && r.1.bindGroup == |d.objects| + 1
    ensures r.0.objects == d.objects + [Buffer(size, {UniformUsage, CopyDst}, Zeros), BindGroup(pipeline, group, binding, r.1.buffer)]
    ensures r.0.destroyed == d.destroyed && r.0.writes == d.writes && r.0.submitted == d.submitted
  {
    var created := CreateBuffer(d, size, {UniformUsage, CopyDst}, false, Zeros);
    var (d1, buffer) := created.value;
    var (d2, bindGroup) := Create(d1, BindGroup(pipeline, group, binding, buffer));
    (d2, Uniform(buffer, bindGroup))
  }
}
