/** The render pass a frame encodes: each actor's turn of the `forEach`
    over the actor table, the commands and buffer writes it produces, and
    where it stops when an actor has no transform. */
module RenderPass {
  import opened Results
  import Meshes
  import opened Actors
  import opened Gpu
  import opened Renderer


  /** The first three commands of an actor's turn. */
  function Begin(viewProjection: Handle, rec: ActorRecord): seq<Command> {
    [SetPipeline(rec.pipeline), SetBindGroup(0, viewProjection), SetBindGroup(ModelGroup, rec.uniform.bindGroup)]
  }

  /** The commands after the model matrix is written: each `&&` guard adds
      its command only when the buffer or mesh is there. */
  function Finish(rec: ActorRecord): seq<Command> {
    (if rec.vertexBuffer.Some? then [SetVertexBuffer(0, rec.vertexBuffer.value)] else [])
    + (if rec.indexBuffer.Some? then [SetIndexBuffer(rec.indexBuffer.value)] else [])
    + (if rec.actor.mesh.Some? then [DrawIndexed(|rec.actor.mesh.value.indices|)] else [])
  }

  /** A whole turn of one actor. */
  function ActorCommands(viewProjection: Handle, rec: ActorRecord): seq<Command> {
    Begin(viewProjection, rec) + Finish(rec)
  }

  /** The turns of the actors `ids`, in order. */
  function AllCommands(viewProjection: Handle, actors: map<ActorId, ActorRecord>, ids: seq<ActorId>): seq<Command>
    requires forall id :: id in ids ==> id in actors
  {
    if |ids| == 0 then []
    else AllCommands(viewProjection, actors, ids[..|ids| - 1]) + ActorCommands(viewProjection, actors[ids[|ids| - 1]])
  }

  /** The counts of the `drawIndexed` commands of a command list, in
      order. */
  function Draws(commands: seq<Command>): seq<nat> {
    if |commands| == 0 then []
    else Draws(commands[..|commands| - 1]) + (if commands[|commands| - 1].DrawIndexed? then [commands[|commands| - 1].count] else [])
  }

  /** The index counts of the actors among `ids` that have a mesh, in
      order. */
  function IndexCounts(actors: map<ActorId, ActorRecord>, ids: seq<ActorId>): seq<nat>
    requires forall id :: id in ids ==> id in actors
  {
    if |ids| == 0 then []
    else
      var a := actors[ids[|ids| - 1]].actor;
      IndexCounts(actors, ids[..|ids| - 1]) + (if a.mesh.Some? then [|a.mesh.value.indices|] else [])
  }

  lemma {:induction false} DrawsAppend(a: seq<Command>, b: seq<Command>)
    ensures Draws(a + b) == Draws(a) + Draws(b)
  {
    if |b| == 0 {
      assert a + b == a;
    } else {
      var last := b[|b| - 1];
      assert (a + b)[..|a + b| - 1] == a + b[..|b| - 1];
      DrawsAppend(a, b[..|b| - 1]);
    }
  }

  lemma {:induction false} NoDraws(commands: seq<Command>)
    requires forall k :: 0 <= k < |commands| ==> !commands[k].DrawIndexed?
    ensures Draws(commands) == []
  {
    if |commands| > 0 {
      NoDraws(commands[..|commands| - 1]);
    }
  }

  /** An actor's turn draws once, with its index count, exactly when it
      has a mesh. */
  lemma DrawsOfActor(viewProjection: Handle, rec: ActorRecord)
    ensures Draws(ActorCommands(viewProjection, rec)) ==
      (if rec.actor.mesh.Some? then [|rec.actor.mesh.value.indices|] else [])
  {
    NoDraws(Begin(viewProjection, rec));
    DrawsOfFinish(rec);
    DrawsAppend(Begin(viewProjection, rec), Finish(rec));
  }

  lemma DrawsOfFinish(rec: ActorRecord)
    ensures Draws(Finish(rec)) == (if rec.actor.mesh.Some? then [|rec.actor.mesh.value.indices|] else [])
  {
    var v := if rec.vertexBuffer.Some? then [SetVertexBuffer(0, rec.vertexBuffer.value)] else [];
    var i := if rec.indexBuffer.Some? then [SetIndexBuffer(rec.indexBuffer.value)] else [];
    var w := v + i;
    NoDraws(w);
    if rec.actor.mesh.Some? {
      var c := DrawIndexed(|rec.actor.mesh.value.indices|);
      assert Finish(rec) == w + [c];
      assert (w + [c])[..|w|] == w;
    } else {
      assert Finish(rec) == w;
    }
  }

  /** The turns of `ids` draw exactly once for each actor with a mesh, with
      its index count, in table order. */
  lemma {:induction false} DrawsOfAll(viewProjection: Handle, actors: map<ActorId, ActorRecord>, ids: seq<ActorId>)
    requires forall id :: id in ids ==> id in actors
    ensures Draws(AllCommands(viewProjection, actors, ids)) == IndexCounts(actors, ids)
  {
    if |ids| > 0 {
      var last := ids[|ids| - 1];
      DrawsOfAll(viewProjection, actors, ids[..|ids| - 1]);
      DrawsAppend(AllCommands(viewProjection, actors, ids[..|ids| - 1]), ActorCommands(viewProjection, actors[last]));
      DrawsOfActor(viewProjection, actors[last]);
    }
  }

  /** The first of `ids` whose actor has no transform, if any. */
  function FirstUnset(actors: map<ActorId, ActorRecord>, ids: seq<ActorId>): (r: Option<ActorId>)
    requires forall id :: id in ids ==> id in actors
    ensures r.None? <==> forall i :: 0 <= i < |ids| ==> actors[ids[i]].actor.transform.Some?
    ensures r.Some? ==> r.value in ids && actors[r.value].actor.transform.None?
  {
    if |ids| == 0 then None
    else
      var prefix := ids[..|ids| - 1];
      var last := ids[|ids| - 1];
      var first := FirstUnset(actors, prefix);
      assert forall i :: 0 <= i < |prefix| ==> ids[i] == prefix[i];
      if first.Some? then first
      else if actors[last].actor.transform.None? then Some(last)
      else None
  }

  /** The model-matrix writes of the turns of `ids`, in order. */
  function ModelWrites(evaluate: (Transform, Mat4) -> Mat4, actors: map<ActorId, ActorRecord>, ids: seq<ActorId>): seq<Write>
    requires forall id :: id in ids ==> id in actors && actors[id].actor.transform.Some?
  {
    if |ids| == 0 then []
    else
      var rec := actors[ids[|ids| - 1]];
      ModelWrites(evaluate, actors, ids[..|ids| - 1]) + [Write(rec.uniform.buffer, 0, evaluate(rec.actor.transform.value, Identity))]
  }

  /** The render pass being encoded: the device, the table (whose model
      matrices the turns overwrite), the commands so far, and the actor whose
      missing transform stopped the `forEach`, if one did. */
  datatype Pass = Pass(device: Device, actors: map<ActorId, ActorRecord>, commands: seq<Command>, failed: Option<ActorId>)

  /** Two records that differ at most in the model matrix. */
  predicate SameButModel(a: ActorRecord, b: ActorRecord) {
    a == b.(actor := b.actor.(modelMatrix := a.actor.modelMatrix))
  }

  /** One turn of the `forEach`: the pipeline and both bind groups are set;
      calling a missing transform throws, which ends the pass; otherwise the
      model matrix becomes `transform(identity)`, is written to the actor's
      uniform, and the buffers are set and the mesh drawn. */
  function Step(evaluate: (Transform, Mat4) -> Mat4, viewProjection: Handle, p: Pass, id: ActorId): (r: Pass)
    requires id in p.actors
    ensures r.actors.Keys == p.actors.Keys
  {
    if p.failed.Some? then p
    else
      var rec := p.actors[id];
      match rec.actor.transform
      case None => p.(commands := p.commands + Begin(viewProjection, rec), failed := Some(id))
      case Some(t) =>
        var model := evaluate(t, Identity);
        Pass(WriteBuffer(p.device, rec.uniform.buffer, 0, model),
             p.actors[id := rec.(actor := rec.actor.(modelMatrix := model))],
             p.commands + ActorCommands(viewProjection, rec), None)
  }

  /** The `forEach` over `ids`. */
  function DrawAll(evaluate: (Transform, Mat4) -> Mat4, viewProjection: Handle, p: Pass, ids: seq<ActorId>): (r: Pass)
    requires forall id :: id in ids ==> id in p.actors
    ensures r.actors.Keys == p.actors.Keys
  {
    if |ids| == 0 then p
    else
      var q := DrawAll(evaluate, viewProjection, p, ids[..|ids| - 1]);
      Step(evaluate, viewProjection, q, ids[|ids| - 1])
  }

  /** An actor's commands do not depend on its model matrix. */
  lemma CommandsIgnoreModel(viewProjection: Handle, a: ActorRecord, b: ActorRecord)
    requires SameButModel(a, b)
    ensures ActorCommands(viewProjection, a) == ActorCommands(viewProjection, b)
  {
  }

  /** One turn from a pass nothing has stopped. */
  lemma StepEffect(evaluate: (Transform, Mat4) -> Mat4, viewProjection: Handle, p: Pass, id: ActorId)
    requires p.failed.None? && id in p.actors
    ensures var r := Step(evaluate, viewProjection, p, id); var rec := p.actors[id];
      && r.device.objects == p.device.objects && r.device.destroyed == p.device.destroyed
      && r.device.submitted == p.device.submitted
      && (forall other :: other in p.actors && other != id ==> r.actors[other] == p.actors[other])
      && SameButModel(r.actors[id], rec)
      && (r.failed.None? <==> rec.actor.transform.Some?)
      && (r.failed.Some? ==> r.failed == Some(id))
      && (r.failed.None? ==>
           && r.commands == p.commands + ActorCommands(viewProjection, rec)
           && r.device.writes == p.device.writes + [Write(rec.uniform.buffer, 0, evaluate(rec.actor.transform.value, Identity))]
           && r.actors[id].actor.modelMatrix == evaluate(rec.actor.transform.value, Identity))
  {
  }

  /** What the `forEach` does, from a pass nothing has stopped: it stops at
      the first actor without a transform; objects, destroyed handles and
      submissions are untouched, and records change only in their model
      matrix. */
  lemma {:induction false} DrawAllKeeps(evaluate: (Transform, Mat4) -> Mat4, viewProjection: Handle, p: Pass, ids: seq<ActorId>)
    requires p.failed.None?
    requires forall id :: id in ids ==> id in p.actors
    ensures var r := DrawAll(evaluate, viewProjection, p, ids);
      && r.device.objects == p.device.objects && r.device.destroyed == p.device.destroyed
      && r.device.submitted == p.device.submitted
      && (forall id :: id in p.actors ==> SameButModel(r.actors[id], p.actors[id]))
      && (forall id :: id in p.actors && id !in ids ==> r.actors[id] == p.actors[id])
      && r.failed == FirstUnset(p.actors, ids)
  {
    if |ids| > 0 {
      var prefix := ids[..|ids| - 1];
      var last := ids[|ids| - 1];
      assert forall id :: id in ids ==> id in prefix || id == last;
      DrawAllKeeps(evaluate, viewProjection, p, prefix);
      var q := DrawAll(evaluate, viewProjection, p, prefix);
      if q.failed.None? {
        StepEffect(evaluate, viewProjection, q, last);
      }
    }
  }

  /** When no actor of `ids` lacks a transform, a pass begun with no
      commands runs to the end and encodes each actor's commands, in
      order. */
  lemma {:induction false} DrawAllCommands(evaluate: (Transform, Mat4) -> Mat4, viewProjection: Handle, p: Pass, ids: seq<ActorId>)
    requires p.failed.None? && p.commands == []
    requires forall id :: id in ids ==> id in p.actors && p.actors[id].actor.transform.Some?
    ensures var r := DrawAll(evaluate, viewProjection, p, ids);
      r.failed.None? && r.commands == AllCommands(viewProjection, p.actors, ids)
  {
    if |ids| > 0 {
      var prefix := ids[..|ids| - 1];
      var last := ids[|ids| - 1];
      assert forall id :: id in prefix ==> id in ids;
      DrawAllCommands(evaluate, viewProjection, p, prefix);
      var q := DrawAll(evaluate, viewProjection, p, prefix);
      KeepsRecord(evaluate, viewProjection, p, prefix, last);
      StepCommands(evaluate, viewProjection, q, last, p.actors[last]);
      assert AllCommands(viewProjection, p.actors, ids)
        == AllCommands(viewProjection, p.actors, prefix) + ActorCommands(viewProjection, p.actors[last]);
    }
  }

  lemma KeepsRecord(evaluate: (Transform, Mat4) -> Mat4, viewProjection: Handle, p: Pass, ids: seq<ActorId>, id: ActorId)
    requires p.failed.None? && id in p.actors
    requires forall id :: id in ids ==> id in p.actors
    ensures SameButModel(DrawAll(evaluate, viewProjection, p, ids).actors[id], p.actors[id])
  {
    DrawAllKeeps(evaluate, viewProjection, p, ids);
  }

  /** A turn of an actor with a transform, on a record that may have had
      its model matrix overwritten, appends the commands of the original
      record. */
  lemma StepCommands(evaluate: (Transform, Mat4) -> Mat4, viewProjection: Handle, q: Pass, id: ActorId, original: ActorRecord)
    requires q.failed.None? && id in q.actors && SameButModel(q.actors[id], original) && original.actor.transform.Some?
    ensures var r := Step(evaluate, viewProjection, q, id);
      r.failed.None? && r.commands == q.commands + ActorCommands(viewProjection, original)
  {
    CommandsIgnoreModel(viewProjection, q.actors[id], original);
  }

  /** ... and writes `transform(identity)` to each actor's uniform, in
      order. */
  lemma {:induction false} DrawAllLog(evaluate: (Transform, Mat4) -> Mat4, viewProjection: Handle, p: Pass, ids: seq<ActorId>)
    requires p.failed.None?
    requires forall id :: id in ids ==> id in p.actors && p.actors[id].actor.transform.Some?
    ensures var r := DrawAll(evaluate, viewProjection, p, ids);
      r.device.writes == p.device.writes + ModelWrites(evaluate, p.actors, ids)
  {
    if |ids| > 0 {
      var prefix := ids[..|ids| - 1];
      var last := ids[|ids| - 1];
      assert forall id :: id in ids ==> id in prefix || id == last;
      DrawAllKeeps(evaluate, viewProjection, p, prefix);
      var q := DrawAll(evaluate, viewProjection, p, prefix);
      StepEffect(evaluate, viewProjection, q, last);
      var rec := q.actors[last];
      DrawAllLog(evaluate, viewProjection, p, prefix);
    }
  }

  /** ... and keeps it as the actor's model matrix. */
  lemma {:induction false} DrawAllModels(evaluate: (Transform, Mat4) -> Mat4, viewProjection: Handle, p: Pass, ids: seq<ActorId>)
    requires p.failed.None?
    requires forall id :: id in ids ==> id in p.actors && p.actors[id].actor.transform.Some?
    ensures var r := DrawAll(evaluate, viewProjection, p, ids);
      forall id :: id in ids ==> r.actors[id].actor.modelMatrix == evaluate(p.actors[id].actor.transform.value, Identity)
  {
    if |ids| > 0 {
      var prefix := ids[..|ids| - 1];
      var last := ids[|ids| - 1];
      assert forall id :: id in ids ==> id in prefix || id == last;
      DrawAllKeeps(evaluate, viewProjection, p, prefix);
      var q := DrawAll(evaluate, viewProjection, p, prefix);
      StepEffect(evaluate, viewProjection, q, last);
      var rec := q.actors[last];
      DrawAllModels(evaluate, viewProjection, p, prefix);
      var r := Step(evaluate, viewProjection, q, last);
      forall id | id in ids ensures r.actors[id].actor.modelMatrix == evaluate(p.actors[id].actor.transform.value, Identity) {
        if id != last {
          assert id in prefix;
        }
      }
    }
  }
}
