/** The input handler: a table of key bindings, each with a held/released
    state, and one optional mouse binding.  The DOM listeners become the
    functions `KeyDown`, `KeyUp` and `MouseMove`, and whether the pointer is
    locked is a parameter.  Callbacks are values of any type: a function
    that "calls" them returns the calls it makes. */
module Input {
  import opened Results

  datatype Binding<C> = Binding(callback: C, state: bool)

  /** `bindings` is the record of key bindings; `keys` lists its keys in the
      order they were first bound, the order in which the record's values
      are visited. */
  datatype InputHandler<C, M> = InputHandler(keys: seq<string>, bindings: map<string, Binding<C>>, mouse: Option<M>)

  /** `keys` lists exactly the bound keys, each once. */
  predicate Valid<C, M>(h: InputHandler<C, M>) {
    && (forall i, j :: 0 <= i < j < |h.keys| ==> h.keys[i] != h.keys[j])
    && (forall k :: k in h.keys ==> k in h.bindings)
    && (forall k :: k in h.bindings ==> k in h.keys)
  }

  /** A new handler: no bindings at all. */
  function New<C, M>(): (h: InputHandler<C, M>)
    ensures Valid(h) && h.bindings == map[] && h.mouse.None?
  {
    InputHandler([], map[], None)
  }

  /** `bindMouse(binding)`: the mouse binding is replaced. */
  function BindMouse<C, M>(h: InputHandler<C, M>, m: M): (r: InputHandler<C, M>)
    ensures r.mouse == Some(m) && r.keys == h.keys && r.bindings == h.bindings
  {
    h.(mouse := Some(m))
  }

  /** `bindKey({key, callback})`: the key gets the callback in the released
      state, replacing an earlier binding of that key in place; no other
      binding changes. */
  function BindKey<C, M>(h: InputHandler<C, M>, key: string, callback: C): (r: InputHandler<C, M>)
    requires Valid(h)
    ensures Valid(r)
    ensures key in r.bindings && r.bindings[key] == Binding(callback, false)
    ensures forall k :: k != key ==> (k in r.bindings <==> k in h.bindings)
    ensures forall k :: k != key && k in h.bindings ==> r.bindings[k] == h.bindings[k]
    ensures key in h.bindings ==> r.keys == h.keys
    ensures key !in h.bindings ==> r.keys == h.keys + [key]
    ensures r.mouse == h.mouse
  {
    var keys := if key in h.bindings then h.keys else h.keys + [key];
    InputHandler(keys, h.bindings[key := Binding(callback, false)], h.mouse)
  }

  /** Binding a key not bound yet appends it, released, after the others. */
  lemma BindNewKey<C, M>(h: InputHandler<C, M>, key: string, callback: C)
    requires Valid(h) && key !in h.bindings
    ensures BindKey(h, key, callback) == InputHandler(h.keys + [key], h.bindings[key := Binding(callback, false)], h.mouse)
  {
  }

  /** Sets the state of a bound key; an unbound key changes nothing. */
  function SetState<C, M>(h: InputHandler<C, M>, key: string, state: bool): (r: InputHandler<C, M>)
    requires Valid(h)
    ensures Valid(r) && r.keys == h.keys && r.mouse == h.mouse && r.bindings.Keys == h.bindings.Keys
    ensures key in h.bindings ==> r.bindings[key] == h.bindings[key].(state := state)
    ensures forall k :: k in h.bindings && k != key ==> r.bindings[k] == h.bindings[k]
    ensures key !in h.bindings ==> r == h
  {
    if key in h.bindings then h.(bindings := h.bindings[key := h.bindings[key].(state := state)])
    else h
  }

  /** The keydown listener: a bound key becomes held. */
  function KeyDown<C, M>(h: InputHandler<C, M>, key: string): (r: InputHandler<C, M>)
    requires Valid(h)
    ensures Valid(r) && r.keys == h.keys && r.mouse == h.mouse && r.bindings.Keys == h.bindings.Keys
    ensures key in h.bindings ==> r.bindings[key] == Binding(h.bindings[key].callback, true)
    ensures forall k :: k in h.bindings && k != key ==> r.bindings[k] == h.bindings[k]
    ensures key !in h.bindings ==> r == h
  {
    SetState(h, key, true)
  }

  /** The keyup listener: a bound key becomes released. */
  function KeyUp<C, M>(h: InputHandler<C, M>, key: string): (r: InputHandler<C, M>)
    requires Valid(h)
    ensures Valid(r) && r.keys == h.keys && r.mouse == h.mouse && r.bindings.Keys == h.bindings.Keys
    ensures key in h.bindings ==> r.bindings[key] == Binding(h.bindings[key].callback, false)
    ensures forall k :: k in h.bindings && k != key ==> r.bindings[k] == h.bindings[k]
    ensures key !in h.bindings ==> r == h
  {
    SetState(h, key, false)
  }

  /** The mousemove listener: while the pointer is locked, the mouse
      callback (if any) is called with the movement, its vertical part
      negated. */
  function MouseMove<C, M>(h: InputHandler<C, M>, movementX: real, movementY: real, locked: bool): (r: Option<(M, real, real)>)
    ensures r.Some? <==> locked && h.mouse.Some?
    ensures r.Some? ==> r.value == (h.mouse.value, movementX, -movementY)
  {
    if locked && h.mouse.Some? then Some((h.mouse.value, movementX, -movementY)) else None
  }

  /** The keys among `keys` whose binding is held, in order. */
  function Held<C>(keys: seq<string>, bindings: map<string, Binding<C>>): (r: seq<string>)
    ensures forall k :: k in r <==> k in keys && k in bindings && bindings[k].state
    ensures |r| <= |keys|
  {
    if |keys| == 0 then []
    else
      var last := keys[|keys| - 1];
      Held(keys[..|keys| - 1], bindings) + (if last in bindings && bindings[last].state then [last] else [])
  }

  /** `loopCallbacks(dt)`: when the pointer is locked, every binding is
      visited in key order and the held ones are called with `dt`. */
  function LoopCallbacks<C, M>(h: InputHandler<C, M>, dt: real, locked: bool): (r: seq<(C, real)>)
    requires Valid(h)
    ensures !locked ==> r == []
    ensures locked ==> |r| == |Held(h.keys, h.bindings)|
    ensures locked ==> forall i :: 0 <= i < |r| ==>
      var k := Held(h.keys, h.bindings)[i]; k in h.bindings && r[i] == (h.bindings[k].callback, dt)
  {
    if locked then Visit(h.keys, h.bindings, dt) else []
  }

  /** The `forEach` over the bindings of `keys`. */
  function Visit<C>(keys: seq<string>, bindings: map<string, Binding<C>>, dt: real): (r: seq<(C, real)>)
    requires forall k :: k in keys ==> k in bindings
    ensures |r| == |Held(keys, bindings)|
    ensures forall i :: 0 <= i < |r| ==>
      var k := Held(keys, bindings)[i]; k in bindings && r[i] == (bindings[k].callback, dt)
  {
    if |keys| == 0 then []
    else
      var last := keys[|keys| - 1];
      var b := bindings[last];
      Visit(keys[..|keys| - 1], bindings, dt) + (if b.state then [(b.callback, dt)] else [])
  }

  /** A bound key is called back exactly while it is held and the pointer
      is locked, once per loop. */
  lemma CalledWhileHeld<C, M>(h: InputHandler<C, M>, key: string)
    requires Valid(h) && key in h.bindings
    ensures var held := Held(h.keys, h.bindings);
      h.bindings[key].state <==> exists i :: 0 <= i < |held| && held[i] == key
  {
    var held := Held(h.keys, h.bindings);
    assert h.bindings[key].state <==> key in held;
  }

  /** Pressing and releasing a key restores a released binding. */
  lemma KeyDownUp<C, M>(h: InputHandler<C, M>, key: string)
    requires Valid(h)
    requires key in h.bindings ==> !h.bindings[key].state
    ensures KeyUp(KeyDown(h, key), key) == h
  {
    if key in h.bindings {
      assert KeyUp(KeyDown(h, key), key).bindings == h.bindings;
    }
  }

  /** Binding a key twice keeps only the second callback. */
  lemma BindKeyTwice<C, M>(h: InputHandler<C, M>, key: string, first: C, second: C)
    requires Valid(h)
    ensures BindKey(BindKey(h, key, first), key, second) == BindKey(h, key, second)
  {
    var once := BindKey(h, key, first);
    assert key in once.bindings && once.keys == BindKey(h, key, second).keys;
    assert once.bindings[key := Binding(second, false)] == h.bindings[key := Binding(second, false)];
  }

  /** A freshly bound key is not called back until a keydown arrives, and
      is called back once it has. */
  lemma BindThenPress<C, M>(h: InputHandler<C, M>, key: string, callback: C)
    requires Valid(h)
    ensures var bound := BindKey(h, key, callback);
      && key !in Held(bound.keys, bound.bindings)
      && key in Held(KeyDown(bound, key).keys, KeyDown(bound, key).bindings)
  {
  }
}
