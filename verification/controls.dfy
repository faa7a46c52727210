/** The key and mouse bindings the renderer installs, and what they do to
    the camera. */
module Controls {
  import opened Results
  import Input
  import opened Cameras

  /** The key and mouse actions `render()` binds: each key moves the camera
      by `dt * 10`, the mouse turns it. */
  datatype Move = Forward | Left | Backward | Right | Rise | Sink
  datatype Look = Look
  type Handler = Input.InputHandler<Move, Look>

  /** The sensitivity `s` the key callbacks scale `dt` by. */
  const MoveScale: real := 10.0

  /** One key callback run on the camera. */
  function RunMove(b: Basis, c: Camera, m: Move, dt: real): (r: Camera)
    ensures dt == 0.0 ==> r == c
    ensures r.front == c.front && r.yaw == c.yaw && r.pitch == c.pitch && r.up == c.up && r.fov == c.fov
  {
    var s := dt * MoveScale;
    match m
    case Forward => TranslateForward(b, c, s)
    case Left => TranslateLeft(b, c, s)
    case Backward => TranslateBackward(b, c, s)
    case Right => TranslateRight(b, c, s)
    case Rise => TranslateUp(c, s)
    case Sink => TranslateDown(c, s)
  }

  /** The calls `loopCallbacks` makes, run in order. */
  function RunMoves(b: Basis, c: Camera, calls: seq<(Move, real)>): (r: Camera)
    ensures (forall i :: 0 <= i < |calls| ==> calls[i].1 == 0.0) ==> r == c
    ensures r.front == c.front && r.yaw == c.yaw && r.pitch == c.pitch && r.up == c.up && r.fov == c.fov
  {
    if |calls| == 0 then c
    else
      var last := calls[|calls| - 1];
      RunMove(b, RunMoves(b, c, calls[..|calls| - 1]), last.0, last.1)
  }

  /** The bindings `render()` installs: w, a, s, d move forward, left,
      backward and right, q and e move up and down, all released; the mouse
      looks around. */
  function NewControls(): (h: Handler)
    ensures Input.Valid(h) && h.mouse == Some(Look)
    ensures h.keys == ["w", "a", "s", "d", "q", "e"]
    ensures forall k :: k in h.bindings ==> !h.bindings[k].state
  {
    var keys := ["w", "a", "s", "d", "q", "e"];
    assert forall i, j :: 0 <= i < j < |keys| ==> keys[i] != keys[j];
    Input.InputHandler(keys, map[
      "w" := Input.Binding(Forward, false), "a" := Input.Binding(Left, false),
      "s" := Input.Binding(Backward, false), "d" := Input.Binding(Right, false),
      "q" := Input.Binding(Rise, false), "e" := Input.Binding(Sink, false)], Some(Look))
  }

  /** The bindings after each of the six `bindKey` calls. */
  const FirstOne: Handler := Input.InputHandler(["w"], map["w" := Input.Binding(Forward, false)], None)
  const FirstTwo: Handler := Input.InputHandler(["w", "a"], FirstOne.bindings["a" := Input.Binding(Left, false)], None)
  const FirstThree: Handler := Input.InputHandler(["w", "a", "s"], FirstTwo.bindings["s" := Input.Binding(Backward, false)], None)

  lemma BindFirst()
    ensures Input.BindKey(Input.New<Move, Look>(), "w", Forward) == FirstOne
  {
    Input.BindNewKey(Input.New<Move, Look>(), "w", Forward);
  }

  lemma BindSecond()
    ensures Input.BindKey(FirstOne, "a", Left) == FirstTwo
  {
    Input.BindNewKey(FirstOne, "a", Left);
  }

  lemma BindThird()
    ensures Input.BindKey(FirstTwo, "s", Backward) == FirstThree
  {
    assert Input.Valid(FirstTwo) by {
      assert forall i, j :: 0 <= i < j < |FirstTwo.keys| ==> FirstTwo.keys[i] != FirstTwo.keys[j];
    }
    Input.BindNewKey(FirstTwo, "s", Backward);
  }

  const FirstFour: Handler := Input.InputHandler(["w", "a", "s", "d"], FirstThree.bindings["d" := Input.Binding(Right, false)], None)

  lemma BindFourth()
    ensures Input.BindKey(FirstThree, "d", Right) == FirstFour
  {
    assert Input.Valid(FirstThree) by {
      assert forall i, j :: 0 <= i < j < |FirstThree.keys| ==> FirstThree.keys[i] != FirstThree.keys[j];
    }
    Input.BindNewKey(FirstThree, "d", Right);
  }

  const FirstFive: Handler := Input.InputHandler(["w", "a", "s", "d", "q"], FirstFour.bindings["q" := Input.Binding(Rise, false)], None)
  const AllSix: Handler := Input.InputHandler(["w", "a", "s", "d", "q", "e"], FirstFive.bindings["e" := Input.Binding(Sink, false)], None)

  lemma BindFifth()
    ensures Input.BindKey(FirstFour, "q", Rise) == FirstFive
  {
    assert Input.Valid(FirstFour) by {
      assert forall i, j :: 0 <= i < j < |FirstFour.keys| ==> FirstFour.keys[i] != FirstFour.keys[j];
    }
    Input.BindNewKey(FirstFour, "q", Rise);
  }

  lemma BindSixth()
    ensures Input.BindKey(FirstFive, "e", Sink) == AllSix
  {
    assert Input.Valid(FirstFive) by {
      assert forall i, j :: 0 <= i < j < |FirstFive.keys| ==> FirstFive.keys[i] != FirstFive.keys[j];
    }
    Input.BindNewKey(FirstFive, "e", Sink);
  }

  /** `NewControls` is what the six `bindKey` calls and the `bindMouse`
      call of `render()` build. */
  lemma NewControlsBound()
    ensures var h0: Handler := Input.New();
      NewControls() == Input.BindMouse(
        Input.BindKey(Input.BindKey(Input.BindKey(Input.BindKey(Input.BindKey(Input.BindKey(
          h0, "w", Forward), "a", Left), "s", Backward), "d", Right), "q", Rise), "e", Sink), Look)
  {
    BindFirst();
    BindSecond();
    BindThird();
    BindFourth();
    BindFifth();
    BindSixth();
    assert NewControls().bindings == AllSix.bindings;
  }
}
