/** `Mesh.importOBJ`: Wavefront OBJ text to a Mesh. The text is split into
    lines; each trimmed line is routed by its first space-separated token into
    buckets of positions (`v`), texture coordinates (`vt`), normals (`vn`) and
    faces (`f`). Every face reference string is then flattened: the first time
    a reference string is met it gets the next output vertex index and its
    attributes are appended; a repeated string reuses its index. */
module ObjImport {
  import opened Results
  import opened JsNumber
  import JsText
  import Meshes

  /** `positions.push(...undefined)` throws a TypeError: the reference named a
      bucket entry that does not exist. */
  datatype ImportError = SpreadOfUndefined(reference: string)

  /** What one line contributes to the buckets. */
  datatype LineKind =
    | PositionLine(coords: seq<Number>)
    | UvLine(coords: seq<Number>)
    | NormalLine(coords: seq<Number>)
    | FaceLine(refs: seq<string>)
    | Other

  datatype Buckets = Buckets(positions: seq<seq<Number>>, uvs: seq<seq<Number>>,
                             normals: seq<seq<Number>>, faces: seq<seq<string>>)

  function ParseAll(conv: string -> Number, tokens: seq<string>): (r: seq<Number>)
    ensures |r| == |tokens|
    ensures forall k :: 0 <= k < |r| ==> r[k] == conv(tokens[k])
  {
    seq(|tokens|, k requires 0 <= k < |tokens| => conv(tokens[k]))
  }

  /** Lines 58-74 of the importer for one line: `v` and `vn` coordinates go
      through `parseFloat`, `vt` coordinates through `Number`. */
  function Classify(line: string): LineKind {
    var parts := JsText.Split(JsText.Trim(line), ' ');
    var start := parts[0];
    var data := parts[1..];
    if start == "v" then PositionLine(ParseAll(ParseFloat, data))
    else if start == "vt" then UvLine(ParseAll(StringToNumber, data))
    else if start == "vn" then NormalLine(ParseAll(ParseFloat, data))
    else if start == "f" then FaceLine(data)
    else Other
  }

  /** The trimmed line is a record of type `word`: it is `word` alone or
      starts with `word` and a space. */
  predicate IsRecord(t: string, word: string) {
    t == word || (|t| > |word| && t[..|word| + 1] == word + " ")
  }

  /** The space-separated fields after the leading `word`. */
  function Fields(t: string, word: string): seq<string>
    requires IsRecord(t, word)
  {
    if t == word then [] else JsText.Split(t[|word| + 1..], ' ')
  }

  lemma FirstToken(t: string, word: string)
    requires ' ' !in word
    ensures JsText.Split(t, ' ')[0] == word <==> IsRecord(t, word)
    ensures IsRecord(t, word) ==> JsText.Split(t, ' ')[1..] == Fields(t, word)
  {
    if IsRecord(t, word) {
      RecordSplits(t, word);
    }
    if JsText.Split(t, ' ')[0] == word {
      SplitIsRecord(t, word);
    }
  }

  lemma RecordSplits(t: string, word: string)
    requires ' ' !in word && IsRecord(t, word)
    ensures JsText.Split(t, ' ')[0] == word && JsText.Split(t, ' ')[1..] == Fields(t, word)
  {
    if t == word {
      JsText.SplitAtFirst(t, ' ');
      assert t[..JsText.FirstIndex(t, ' ')] == t;
    } else {
      RecordPrefix(t, word);
      JsText.FirstIndexAt(t, ' ', |word|);
      JsText.SplitAtFirst(t, ' ');
    }
  }

  lemma RecordPrefix(t: string, word: string)
    requires |t| > |word| && t[..|word| + 1] == word + " "
    ensures t[..|word|] == word && t[|word|] == ' '
  {
    var n := |word|;
    assert t[..n] == t[..n + 1][..n];
    assert (word + " ")[..n] == word;
    assert t[n] == t[..n + 1][n];
  }

  lemma SplitIsRecord(t: string, word: string)
    requires JsText.Split(t, ' ')[0] == word
    ensures IsRecord(t, word)
  {
    JsText.SplitAtFirst(t, ' ');
    var i := JsText.FirstIndex(t, ' ');
    assert t[..i] == word;
    if i < |t| {
      assert t[..i + 1] == t[..i] + [t[i]];
    } else {
      assert t[..i] == t;
    }
  }

  /** A line's kind depends only on how its trimmed text starts, and the
      coordinates or references are its remaining space-separated fields. */
  lemma ClassifyByPrefix(line: string)
    ensures var t := JsText.Trim(line);
      && (Classify(line).PositionLine? <==> IsRecord(t, "v"))
      && (Classify(line).UvLine? <==> IsRecord(t, "vt"))
      && (Classify(line).NormalLine? <==> IsRecord(t, "vn"))
      && (Classify(line).FaceLine? <==> IsRecord(t, "f"))
      && (IsRecord(t, "v") ==> Classify(line).coords == ParseAll(ParseFloat, Fields(t, "v")))
      && (IsRecord(t, "vt") ==> Classify(line).coords == ParseAll(StringToNumber, Fields(t, "vt")))
      && (IsRecord(t, "vn") ==> Classify(line).coords == ParseAll(ParseFloat, Fields(t, "vn")))
      && (IsRecord(t, "f") ==> Classify(line).refs == Fields(t, "f"))
  {
    var t := JsText.Trim(line);
    FirstToken(t, "v");
    FirstToken(t, "vt");
    FirstToken(t, "vn");
    FirstToken(t, "f");
  }

  function Add(b: Buckets, k: LineKind): Buckets {
    match k
    case PositionLine(c) => b.(positions := b.positions + [c])
    case UvLine(c) => b.(uvs := b.uvs + [c])
    case NormalLine(c) => b.(normals := b.normals + [c])
    case FaceLine(refs) => b.(faces := b.faces + [refs])
    case Other => b
  }

  /** The bucket-filling loop over the lines, in file order. */
  function Route(lines: seq<string>): Buckets {
    if |lines| == 0 then Buckets([], [], [], [])
    else Add(Route(lines[..|lines| - 1]), Classify(lines[|lines| - 1]))
  }

  function Combine(a: Buckets, b: Buckets): Buckets {
    Buckets(a.positions + b.positions, a.uvs + b.uvs, a.normals + b.normals, a.faces + b.faces)
  }

  /** Routing is line by line: the buckets of a concatenation are the
      concatenated buckets. */
  lemma {:induction false} RouteAppend(a: seq<string>, b: seq<string>)
    ensures Route(a + b) == Combine(Route(a), Route(b))
    decreases |b|
  {
    if |b| == 0 {
      assert a + b == a;
    } else {
      var b' := b[..|b| - 1];
      var k := Classify(b[|b| - 1]);
      assert (a + b)[..|a + b| - 1] == a + b';
      assert (a + b)[|a + b| - 1] == b[|b| - 1];
      RouteAppend(a, b');
      assert Route(a + b) == Add(Route(a + b'), k);
      AddCombine(Route(a), Route(b'), k);
    }
  }

  lemma AddCombine(x: Buckets, y: Buckets, k: LineKind)
    ensures Add(Combine(x, y), k) == Combine(x, Add(y, k))
  {
    match k
    case PositionLine(c) => assert x.positions + y.positions + [c] == x.positions + (y.positions + [c]);
    case UvLine(c) => assert x.uvs + y.uvs + [c] == x.uvs + (y.uvs + [c]);
    case NormalLine(c) => assert x.normals + y.normals + [c] == x.normals + (y.normals + [c]);
    case FaceLine(r) => assert x.faces + y.faces + [r] == x.faces + (y.faces + [r]);
    case Other =>
  }

  /** A line whose first token is not `v`, `vt`, `vn` or `f` changes nothing. */
  lemma RouteSkipsOther(a: seq<string>, line: string, b: seq<string>)
    requires Classify(line).Other?
    ensures Route(a + [line] + b) == Route(a + b)
  {
    RouteOtherLine(a, line);
    RouteAppend(a + [line], b);
    RouteAppend(a, b);
  }

  lemma RouteOtherLine(a: seq<string>, line: string)
    requires Classify(line).Other?
    ensures Route(a + [line]) == Route(a)
  {
    var a' := a + [line];
    assert a'[..|a'| - 1] == a;
    assert a'[|a'| - 1] == line;
  }

  /** All face references of the file in order: the `f` lines' fields concatenated. */
  function Concat(faces: seq<seq<string>>): seq<string> {
    if |faces| == 0 then [] else Concat(faces[..|faces| - 1]) + faces[|faces| - 1]
  }

  // ---------------------------------------------------------------------
  // One face reference

  /** What `+s - 1` makes of one `/`-separated piece: `Absent` when the
      comparison `> -1` fails (empty piece, 0, negative, NaN), otherwise the
      0-based position read from the bucket, or `NotAnIndex` when that is not
      an array index (a fraction or Infinity reads as `undefined`). */
  datatype Slot = Absent | At(index: nat) | NotAnIndex

  function SlotOf(x: Number): (r: Slot)
    ensures r.At? <==> x.Finite? && x.value > 0.0 && x.value == x.value.Floor as real
    ensures r.At? ==> x == Finite(r.index as real + 1.0)
    ensures r.Absent? <==> !(x.Finite? && x.value > 0.0) && !x.PosInfinity?
  {
    match x
    case Finite(r) =>
      if r - 1.0 > -1.0 then (if r == r.Floor as real then At(r.Floor - 1) else NotAnIndex)
      else Absent
    case PosInfinity => NotAnIndex
    case _ => Absent
  }

  /** How the importer converts one piece to a number (`+s`); lemmas about
      fetching are stated for any conversion, the importer uses `StringToNumber`. */
  type Converter = string -> Number

  /** The bucket entry the `k`-th piece names; a missing piece destructures to
      `undefined`, which is never `> -1`. */
  function Fetch(num: Converter, bucket: seq<seq<Number>>, parts: seq<string>, k: nat, ref: string): (r: Result<seq<Number>, ImportError>)
    ensures k >= |parts| ==> r == Ok([])
    ensures k < |parts| ==> match SlotOf(num(parts[k]))
      case Absent => r == Ok([])
      case At(i) => (r.Ok? <==> i < |bucket|) && (r.Ok? ==> r.value == bucket[i])
      case NotAnIndex => r.Err?
    ensures r.Err? ==> r.error == SpreadOfUndefined(ref)
  {
    if k >= |parts| then Ok([])
    else match SlotOf(num(parts[k]))
      case Absent => Ok([])
      case At(i) => if i < |bucket| then Ok(bucket[i]) else Err(SpreadOfUndefined(ref))
      case NotAnIndex => Err(SpreadOfUndefined(ref))
  }

  datatype Attrs = Attrs(positions: seq<Number>, uvs: seq<Number>, normals: seq<Number>)

  function AppendAttrs(a: Attrs, b: Attrs): Attrs {
    Attrs(a.positions + b.positions, a.uvs + b.uvs, a.normals + b.normals)
  }

  /** Lines 94-97: the position, uv and normal a new reference string appends. */
  function RefData(num: Converter, b: Buckets, ref: string): (r: Result<Attrs, ImportError>)
    ensures var parts := JsText.Split(ref, '/'); var first := SlotOf(num(parts[0]));
      && (first.At? ==> (r.Ok? ==> first.index < |b.positions| && r.value.positions == b.positions[first.index]))
      && (first.Absent? && r.Ok? ==> r.value.positions == [])
      && (first.NotAnIndex? ==> r.Err?)
      && (|parts| == 1 && r.Ok? ==> r.value.uvs == [] && r.value.normals == [])
    ensures r.Err? ==> r.error == SpreadOfUndefined(ref)
    ensures var parts := JsText.Split(ref, '/');
      r.Ok? <==> Fetch(num, b.positions, parts, 0, ref).Ok? && Fetch(num, b.uvs, parts, 1, ref).Ok? && Fetch(num, b.normals, parts, 2, ref).Ok?
    ensures var parts := JsText.Split(ref, '/');
      r.Ok? ==> r.value == Attrs(Fetch(num, b.positions, parts, 0, ref).value, Fetch(num, b.uvs, parts, 1, ref).value, Fetch(num, b.normals, parts, 2, ref).value)
  {
    var parts := JsText.Split(ref, '/');
    var p :- Fetch(num, b.positions, parts, 0, ref);
    var u :- Fetch(num, b.uvs, parts, 1, ref);
    var n :- Fetch(num, b.normals, parts, 2, ref);
    Ok(Attrs(p, u, n))
  }

  // ---------------------------------------------------------------------
  // Flattening (lines 84-100), for any way of resolving one reference

  /** How a new reference string's attributes are obtained; the importer uses
      `ref => RefData(b, ref)`. */
  type Resolver = string -> Result<Attrs, ImportError>

  /** The loop state: the reference cache, the counter `i`, the output arrays. */
  datatype FlatState = FlatState(cache: map<string, nat>, next: nat, attrs: Attrs, indices: seq<nat>)

  function Step(resolve: Resolver, st: FlatState, ref: string): Result<FlatState, ImportError> {
    if ref in st.cache then Ok(st.(indices := st.indices + [st.cache[ref]]))
    else
      var a :- resolve(ref);
      Ok(FlatState(st.cache[ref := st.next], st.next + 1, AppendAttrs(st.attrs, a), st.indices + [st.next]))
  }

  function Flatten(resolve: Resolver, refs: seq<string>): Result<FlatState, ImportError> {
    if |refs| == 0 then Ok(FlatState(map[], 0, Attrs([], [], []), []))
    else
      var st :- Flatten(resolve, refs[..|refs| - 1]);
      Step(resolve, st, refs[|refs| - 1])
  }

  // ---------------------------------------------------------------------
  // The reference description: distinct references in first-occurrence order

  /** The distinct strings of `refs`, each where it first occurs. */
  function Dedup(refs: seq<string>): (d: seq<string>)
    ensures forall x :: x in d <==> x in refs
    ensures forall i, j :: 0 <= i < j < |d| ==> d[i] != d[j]
    ensures |d| <= |refs|
  {
    if |refs| == 0 then []
    else
      var d := Dedup(refs[..|refs| - 1]);
      assert refs == refs[..|refs| - 1] + [refs[|refs| - 1]];
      if refs[|refs| - 1] in d then d else d + [refs[|refs| - 1]]
  }

  /** Position of the first `x` in `s`. */
  function IndexOf(s: seq<string>, x: string): (i: nat)
    requires x in s
    ensures i < |s| && s[i] == x && x !in s[..i]
  {
    if s[0] == x then 0 else 1 + IndexOf(s[1..], x)
  }

  lemma IndexOfUnique(s: seq<string>, x: string, i: nat)
    requires i < |s| && s[i] == x && x !in s[..i]
    ensures IndexOf(s, x) == i
  {
    var j := IndexOf(s, x);
  }

  /** The first occurrence is unaffected by what follows it. */
  lemma IndexOfPrefix(s: seq<string>, t: seq<string>, x: string)
    requires x in s
    ensures IndexOf(s + t, x) == IndexOf(s, x)
  {
    var i := IndexOf(s, x);
    assert (s + t)[..i] == s[..i];
    IndexOfUnique(s + t, x, i);
  }

  predicate AllResolve(resolve: Resolver, refs: seq<string>) {
    forall k :: 0 <= k < |refs| ==> resolve(refs[k]).Ok?
  }

  /** The attributes of the given references, appended in order. */
  function Gather(resolve: Resolver, d: seq<string>): Attrs
    requires AllResolve(resolve, d)
  {
    if |d| == 0 then Attrs([], [], [])
    else
      AppendAttrs(Gather(resolve, d[..|d| - 1]), resolve(d[|d| - 1]).value)
  }

  /** The relation between the loop state after `refs` and the reference
      description. */
  ghost predicate Agrees(resolve: Resolver, refs: seq<string>, st: FlatState) {
    && IndicesAgree(refs, st)
    && AllResolve(resolve, Dedup(refs))
    && st.attrs == Gather(resolve, Dedup(refs))
  }

  /** The cache and the output indices of the loop state after `refs`. */
  ghost predicate IndicesAgree(refs: seq<string>, st: FlatState) {
    var d := Dedup(refs);
    && (forall x :: x in st.cache <==> x in refs)
    && (forall x :: x in st.cache ==> st.cache[x] == IndexOf(d, x))
    && st.next == |d|
    && |st.indices| == |refs|
    && (forall k :: 0 <= k < |refs| ==> st.indices[k] == IndexOf(d, refs[k]))
  }

  /** Resolving every reference and resolving every distinct one are the same. */
  lemma AllResolveDedup(resolve: Resolver, refs: seq<string>)
    ensures AllResolve(resolve, refs) <==> AllResolve(resolve, Dedup(refs))
  {
    var d := Dedup(refs);
    if AllResolve(resolve, refs) {
      forall k | 0 <= k < |d| ensures resolve(d[k]).Ok? {
        assert d[k] in refs;
      }
    }
    if AllResolve(resolve, d) {
      forall k | 0 <= k < |refs| ensures resolve(refs[k]).Ok? {
        assert refs[k] in d;
      }
    }
  }

  lemma DedupAppend(init: seq<string>, x: string)
    ensures x in init ==> Dedup(init + [x]) == Dedup(init)
    ensures x !in init ==> Dedup(init + [x]) == Dedup(init) + [x]
  {
    assert (init + [x])[..|init|] == init;
  }

  /** A reference met before appends its cached index and nothing else. */
  lemma StepSeen(resolve: Resolver, init: seq<string>, x: string, st: FlatState)
    requires AllResolve(resolve, init) && Agrees(resolve, init, st) && x in st.cache
    ensures Step(resolve, st, x).Ok?
    ensures AllResolve(resolve, init + [x]) && Agrees(resolve, init + [x], Step(resolve, st, x).value)
  {
    var refs := init + [x];
    var d := Dedup(init);
    assert x in init;
    DedupAppend(init, x);
    var st' := st.(indices := st.indices + [st.cache[x]]);
    assert Step(resolve, st, x) == Ok(st');
    forall k | 0 <= k < |refs| ensures st'.indices[k] == IndexOf(d, refs[k]) && resolve(refs[k]).Ok? {
      if k < |init| {
        assert refs[k] == init[k];
      }
    }
    forall y ensures y in st'.cache <==> y in refs {
      assert y in refs <==> y in init;
    }
  }

  /** Appending a new distinct reference keeps the indices of the earlier
      ones and gives the new one the next index. */
  lemma NewIndices(init: seq<string>, x: string, st: FlatState, attrs: Attrs)
    requires IndicesAgree(init, st) && x !in st.cache
    ensures IndicesAgree(init + [x], FlatState(st.cache[x := st.next], st.next + 1, attrs, st.indices + [st.next]))
  {
    var d := Dedup(init);
    assert x !in init;
    DedupAppend(init, x);
    NewIndex(init, x, d, st.cache, st.indices);
  }

  /** `NewIndices` for any list `d` of the distinct references. */
  lemma NewIndex(init: seq<string>, x: string, d: seq<string>, cache: map<string, nat>, indices: seq<nat>)
    requires x !in init
    requires forall y :: y in d <==> y in init
    requires forall y :: y in cache <==> y in init
    requires forall y :: y in cache ==> cache[y] == IndexOf(d, y)
    requires |indices| == |init| && forall k :: 0 <= k < |init| ==> indices[k] == IndexOf(d, init[k])
    ensures var refs, dx := init + [x], d + [x];
      && (forall y :: y in cache[x := |d|] <==> y in refs)
      && (forall y :: y in cache[x := |d|] ==> cache[x := |d|][y] == IndexOf(dx, y))
      && |indices + [|d|]| == |refs|
      && (forall k :: 0 <= k < |refs| ==> (indices + [|d|])[k] == IndexOf(dx, refs[k]))
  {
    var refs, dx := init + [x], d + [x];
    var cache', indices' := cache[x := |d|], indices + [|d|];
    forall y ensures y in cache' <==> y in refs {
      assert y in refs <==> y in init || y == x;
    }
    IndexOfUnique(dx, x, |d|);
    forall y | y in cache' ensures cache'[y] == IndexOf(dx, y) {
      if y != x {
        IndexOfPrefix(d, [x], y);
      }
    }
    forall k | 0 <= k < |refs| ensures indices'[k] == IndexOf(dx, refs[k]) {
      if k < |init| {
        assert refs[k] == init[k];
        IndexOfPrefix(d, [x], init[k]);
      }
    }
  }

  /** Appending a resolvable reference appends its attributes. */
  lemma NewAttrs(resolve: Resolver, d: seq<string>, x: string)
    requires AllResolve(resolve, d) && resolve(x).Ok?
    ensures AllResolve(resolve, d + [x])
    ensures Gather(resolve, d + [x]) == AppendAttrs(Gather(resolve, d), resolve(x).value)
  {
    var d' := d + [x];
    forall k | 0 <= k < |d'| ensures resolve(d'[k]).Ok? {
      if k < |d| {
        assert d'[k] == d[k];
      }
    }
    assert d'[..|d'| - 1] == d;
  }

  /** A new reference gets the next index and appends its own attributes,
      or fails when it names a missing bucket entry. */
  lemma StepNew(resolve: Resolver, init: seq<string>, x: string, st: FlatState)
    requires AllResolve(resolve, init) && Agrees(resolve, init, st) && x !in st.cache
    ensures Step(resolve, st, x).Ok? <==> resolve(x).Ok?
    ensures Step(resolve, st, x).Ok? ==> AllResolve(resolve, init + [x]) && Agrees(resolve, init + [x], Step(resolve, st, x).value)
  {
    if resolve(x).Ok? {
      var a := resolve(x).value;
      var st' := FlatState(st.cache[x := st.next], st.next + 1, AppendAttrs(st.attrs, a), st.indices + [st.next]);
      assert Step(resolve, st, x) == Ok(st');
      NewAgrees(resolve, init, x, st, a);
    }
  }

  lemma NewAgrees(resolve: Resolver, init: seq<string>, x: string, st: FlatState, a: Attrs)
    requires AllResolve(resolve, init) && x !in st.cache && resolve(x) == Ok(a)
    requires IndicesAgree(init, st)
    requires AllResolve(resolve, Dedup(init)) && st.attrs == Gather(resolve, Dedup(init))
    ensures var st' := FlatState(st.cache[x := st.next], st.next + 1, AppendAttrs(st.attrs, a), st.indices + [st.next]);
      AllResolve(resolve, init + [x]) && Agrees(resolve, init + [x], st')
  {
    NewIndices(init, x, st, AppendAttrs(st.attrs, a));
    NewGather(resolve, init, x, st.attrs, a);
    ResolveAppend(resolve, init, x);
  }

  lemma NewGather(resolve: Resolver, init: seq<string>, x: string, attrs: Attrs, a: Attrs)
    requires x !in init && resolve(x) == Ok(a)
    requires AllResolve(resolve, Dedup(init)) && attrs == Gather(resolve, Dedup(init))
    ensures AllResolve(resolve, Dedup(init + [x])) && AppendAttrs(attrs, a) == Gather(resolve, Dedup(init + [x]))
  {
    DedupAppend(init, x);
    NewAttrs(resolve, Dedup(init), x);
  }

  lemma ResolveAppend(resolve: Resolver, init: seq<string>, x: string)
    requires AllResolve(resolve, init) && resolve(x).Ok?
    ensures AllResolve(resolve, init + [x])
  {
    var refs := init + [x];
    forall k | 0 <= k < |refs| ensures resolve(refs[k]).Ok? {
      if k < |init| {
        assert refs[k] == init[k];
      }
    }
  }

  /** The flattening loop computes the reference description: it fails exactly
      when some reference names a missing bucket entry; otherwise the k-th
      output index is the position of the k-th reference among the distinct
      references, and the attributes are those of the distinct references in
      first-occurrence order. */
  lemma {:induction false} FlattenMatchesDedup(resolve: Resolver, refs: seq<string>)
    ensures Flatten(resolve, refs).Ok? <==> AllResolve(resolve, refs)
    ensures Flatten(resolve, refs).Ok? ==> Agrees(resolve, refs, Flatten(resolve, refs).value)
    decreases |refs|
  {
    if |refs| == 0 {
      return;
    }
    var init := refs[..|refs| - 1];
    var x := refs[|refs| - 1];
    assert refs == init + [x];
    FlattenMatchesDedup(resolve, init);
    match Flatten(resolve, init)
    case Err(_) => {
      var k :| 0 <= k < |init| && !resolve(init[k]).Ok?;
      assert refs[k] == init[k];
    }
    case Ok(st) => {
      assert Flatten(resolve, refs) == Step(resolve, st, x);
      if x in st.cache {
        StepSeen(resolve, init, x, st);
      } else {
        StepNew(resolve, init, x, st);
        if !resolve(x).Ok? {
          assert !resolve(refs[|refs| - 1]).Ok?;
        }
      }
    }
  }

  lemma {:induction false} DedupPrefix(refs: seq<string>, k: nat)
    requires k <= |refs|
    ensures Dedup(refs[..k]) <= Dedup(refs)
    decreases |refs|
  {
    if k < |refs| {
      var init := refs[..|refs| - 1];
      assert refs[..k] == init[..k];
      DedupPrefix(init, k);
      var d, d' := Dedup(init), Dedup(refs);
      assert d <= d' by {
        assert d' == if refs[|refs| - 1] in d then d else d + [refs[|refs| - 1]];
      }
      var p := Dedup(refs[..k]);
      assert p == d[..|p|];
      assert d[..|p|] == d'[..|p|];
    } else {
      assert refs[..k] == refs;
    }
  }

  /** The index formula of `FlattenMatchesDedup`, on its own. */
  lemma FlattenIndices(resolve: Resolver, refs: seq<string>)
    requires Flatten(resolve, refs).Ok?
    ensures var st := Flatten(resolve, refs).value;
      && |st.indices| == |refs| && st.next == |Dedup(refs)|
      && forall k :: 0 <= k < |refs| ==> st.indices[k] == IndexOf(Dedup(refs), refs[k])
  {
    FlattenMatchesDedup(resolve, refs);
  }

  lemma FlattenSucceeds(resolve: Resolver, refs: seq<string>)
    requires AllResolve(resolve, refs)
    ensures Flatten(resolve, refs).Ok?
  {
    FlattenMatchesDedup(resolve, refs);
  }

  /** A string met for the first time at position k is the next distinct one. */
  lemma FirstOccurrence(refs: seq<string>, k: nat)
    requires k < |refs| && refs[k] !in refs[..k]
    ensures IndexOf(Dedup(refs), refs[k]) == |Dedup(refs[..k])|
  {
    var x := refs[k];
    var d := Dedup(refs);
    var p := Dedup(refs[..k + 1]);
    assert refs[..k + 1] == refs[..k] + [x];
    DedupAppend(refs[..k], x);
    DedupPrefix(refs, k + 1);
    IndexOfUnique(p, x, |Dedup(refs[..k])|);
    IndexOfInPrefix(p, d, x);
  }

  lemma IndexOfInPrefix(p: seq<string>, d: seq<string>, x: string)
    requires p <= d && x in p
    ensures IndexOf(d, x) == IndexOf(p, x)
  {
    assert d == p + d[|p|..];
    IndexOfPrefix(p, d[|p|..], x);
  }

  /** How the output indices are assigned: one per reference, each below the
      number of distinct references; equal strings share an index, different
      strings get different ones, and a string met for the first time gets
      the number of distinct strings before it, so the indices handed out run
      0, 1, 2, ... */
  lemma IndexAssignment(resolve: Resolver, refs: seq<string>)
    requires Flatten(resolve, refs).Ok?
    ensures var st := Flatten(resolve, refs).value;
      && |st.indices| == |refs| && st.next == |Dedup(refs)| <= |refs|
      && (forall k :: 0 <= k < |refs| ==> st.indices[k] < st.next)
      && (forall j, k :: 0 <= j < |refs| && 0 <= k < |refs| ==> (st.indices[j] == st.indices[k] <==> refs[j] == refs[k]))
      && (forall k :: 0 <= k < |refs| && refs[k] !in refs[..k] ==> st.indices[k] == |Dedup(refs[..k])|)
  {
    FlattenIndices(resolve, refs);
    var st := Flatten(resolve, refs).value;
    forall k | 0 <= k < |refs| && refs[k] !in refs[..k] ensures st.indices[k] == |Dedup(refs[..k])| {
      FirstOccurrence(refs, k);
    }
  }

  /** Each new reference appends one entry's worth of positions, so when
      every reference resolves to a 3-coordinate position the position array
      holds three numbers per distinct reference. */
  lemma {:induction false} GatherPositions(resolve: Resolver, d: seq<string>)
    requires AllResolve(resolve, d)
    requires forall k :: 0 <= k < |d| ==> |resolve(d[k]).value.positions| == 3
    ensures |Gather(resolve, d).positions| == 3 * |d|
    decreases |d|
  {
    if |d| > 0 {
      GatherPositions(resolve, d[..|d| - 1]);
    }
  }

  // ---------------------------------------------------------------------
  // The numbers `+s` makes of face-reference pieces

  /** What a piece means once converted with `Number(s)`. */
  function SubIndex(piece: string): Slot {
    SlotOf(StringToNumber(piece))
  }

  /** A numeral names its 1-based entry; an empty piece and `0` name nothing. */
  lemma SubIndexOfNumeral(n: nat)
    ensures SubIndex(Decimal(n + 1)) == At(n)
    ensures SubIndex(Decimal(0)) == Absent
    ensures SubIndex("") == Absent
  {
    NumberOfDecimal(n + 1);
    SlotOfSuccessor(n);
    NumberOfDecimal(0);
    EmptyStrings();
  }

  lemma SlotOfSuccessor(n: nat)
    ensures SlotOf(Finite((n + 1) as real)) == At(n)
  {
    assert ((n + 1) as real).Floor == n + 1;
  }

  // ---------------------------------------------------------------------
  // The whole importer, for any reference resolver

  /** Lines 84-107 once the buckets are known: flatten, then build the mesh
      with a `Uint16Array` of the indices.  It succeeds exactly when every
      reference resolves; the k-th index is the first-occurrence position of
      the k-th reference among the distinct ones, stored modulo 2^16, and the
      attribute arrays are the distinct references' attributes in
      first-occurrence order. */
  function MeshOfReferences(resolve: Resolver, refs: seq<string>): (r: Result<Meshes.Mesh, ImportError>)
    ensures r.Ok? <==> AllResolve(resolve, refs)
    ensures r.Ok? ==> AllResolve(resolve, Dedup(refs))
    ensures r.Ok? ==>
      && |r.value.indices| == |refs|
      && (forall k :: 0 <= k < |refs| ==> r.value.indices[k] == ToUint16(IndexOf(Dedup(refs), refs[k])))
      && Attrs(r.value.positions, r.value.uvs, r.value.normals) == Gather(resolve, Dedup(refs))
  {
    FlattenMatchesDedup(resolve, refs);
    AllResolveDedup(resolve, refs);
    var st :- Flatten(resolve, refs);
    Ok(Meshes.NewMesh(st.attrs.positions, st.attrs.uvs, st.attrs.normals, Meshes.Uint16ArrayOf(st.indices)))
  }

  /** When every resolved reference carries a 3-coordinate position, the
      mesh has one vertex per distinct reference, and while there are at most
      2^16 of them (no wrap) every index names a vertex. */
  lemma MeshShape(resolve: Resolver, refs: seq<string>)
    requires MeshOfReferences(resolve, refs).Ok?
    requires forall k :: 0 <= k < |refs| && resolve(refs[k]).Ok? ==> |resolve(refs[k]).value.positions| == 3
    ensures Meshes.VertexCount(MeshOfReferences(resolve, refs).value) == |Dedup(refs)|
    ensures |MeshOfReferences(resolve, refs).value.positions| == 3 * |Dedup(refs)|
    ensures |Dedup(refs)| <= 0x1_0000 ==> Meshes.WellFormed(MeshOfReferences(resolve, refs).value)
  {
    var d := Dedup(refs);
    var m := MeshOfReferences(resolve, refs).value;
    AllResolveDedup(resolve, refs);
    forall k | 0 <= k < |d| ensures |resolve(d[k]).value.positions| == 3 {
      assert d[k] in refs;
      var j :| 0 <= j < |refs| && refs[j] == d[k];
    }
    GatherPositions(resolve, d);
    if |d| <= 0x1_0000 {
      forall k | 0 <= k < |m.indices| ensures m.indices[k] < Meshes.VertexCount(m) {
        assert IndexOf(d, refs[k]) < |d|;
      }
    }
  }

  // ---------------------------------------------------------------------
  // The importer on OBJ text

  function BucketsOf(text: string): Buckets {
    Route(JsText.Split(text, '\n'))
  }

  /** Every face reference of the file, in file order. */
  function References(text: string): seq<string> {
    Concat(BucketsOf(text).faces)
  }

  /** How `importOBJ` resolves a new reference: `+s` on each piece. */
  function Resolve(b: Buckets): Resolver {
    ref => RefData(StringToNumber, b, ref)
  }

  /** `importOBJ(text)`: the mesh, or the TypeError the flattening loop throws. */
  function ImportObj(text: string): (r: Result<Meshes.Mesh, ImportError>)
    ensures r.Ok? <==> AllResolve(Resolve(BucketsOf(text)), References(text))
    ensures r.Ok? ==> |r.value.indices| == |References(text)|
  {
    MeshOfReferences(Resolve(BucketsOf(text)), References(text))
  }

  /** On a file whose every reference names a position by a numeral and
      whose every `v` line has three coordinates, an imported mesh has one
      vertex per distinct reference. */
  lemma ImportedMeshShape(text: string)
    requires ImportObj(text).Ok?
    requires forall k :: 0 <= k < |References(text)| ==> SubIndex(JsText.Split(References(text)[k], '/')[0]).At?
    requires forall j :: 0 <= j < |BucketsOf(text).positions| ==> |BucketsOf(text).positions[j]| == 3
    ensures Meshes.VertexCount(ImportObj(text).value) == |Dedup(References(text))|
    ensures |Dedup(References(text))| <= 0x1_0000 ==> Meshes.WellFormed(ImportObj(text).value)
  {
    var resolve := Resolve(BucketsOf(text));
    var refs := References(text);
    forall k | 0 <= k < |refs| && resolve(refs[k]).Ok? ensures |resolve(refs[k]).value.positions| == 3 {
      assert resolve(refs[k]) == RefData(StringToNumber, BucketsOf(text), refs[k]);
    }
    MeshShape(resolve, refs);
  }
}
