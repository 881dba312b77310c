/**
 * The material tests of test-server/material-tests.js: the permutation of
 * material options is split into frames of 8 x 8 spheres, one test per
 * frame, each sphere rendered with the next permutation in turn.
 */
module MaterialTests {
  import opened Wrappers
  import opened Dict
  import opened Strings
  import opened Descriptors
  import opened Permutation
  import opened TestRegistry

  const FresnelNone := 0.0
  const FresnelSchlick := 2.0
  const SpecularPhong := 0.0
  const SpecularBlinn := 1.0

  function Color(r: real, g: real, b: real, a: real): Value {
    Obj([("r", Num(r)), ("g", Num(g)), ("b", Num(b)), ("a", Num(a))])
  }

  /** `materialPermutation`: the base options, then one axis per varied feature. */
  function Axes(): seq<seq<Fragment<Value>>> {
    [
      // base
      [[("diffuseMap", Str("$ccDiffuse")), ("metalnessMap", Str("$ccOther")), ("metalnessMapChannel", Str("r")),
        ("glossMap", Str("$ccOther")), ("glossMapChannel", Str("g")), ("normalMap", Str("$ccNormal")),
        ("metalness", Num(1.0)), ("shininess", Num(90.0)), ("bumpiness", Num(0.7)), ("useMetalness", Bool(true))]],
      // fresnel model
      [[("fresnelModel", Num(FresnelNone))], [("fresnelModel", Num(FresnelSchlick))]],
      // shading model
      [[("shadingModel", Num(SpecularPhong))], [("shadingModel", Num(SpecularBlinn))]],
      // metalness
      [[("useMetalness", Bool(false)), ("specular", Color(0.5, 0.5, 0.5, 1.0))],
       [("useMetalness", Bool(true)), ("metalness", Num(0.0))],
       [("useMetalness", Bool(true)), ("metalness", Num(0.5))],
       [("useMetalness", Bool(true)), ("metalness", Num(1.0))]],
      // clearcoat
      [[], [("clearCoat", Num(0.25)), ("clearCoatGlossiness", Num(0.8))]],
      // diffuse
      [[], [("diffuse", Color(0.6, 0.6, 0.9, 1.0)), ("diffuseTint", Bool(true))]],
      // useLighting
      [[("useLighting", Bool(true))], [("useLighting", Bool(false))]]
    ]
  }

  /** `Math.ceil(total / 64)`: a frame holds 8 x 8 spheres. */
  function FrameCount(total: nat): nat {
    (total + 63) / 64
  }

  /** The frame count is the least number of frames that holds every permutation. */
  lemma FrameCountIsCeiling(total: nat)
    ensures FrameCount(total) * 64 >= total
    ensures FrameCount(total) > 0 ==> (FrameCount(total) - 1) * 64 < total
  {
    DivModUnique(total + 63, 64, FrameCount(total), (total + 63) % 64);
  }

  /** `${frame}_${i}_${j}`. */
  function CellId(frame: nat, i: nat, j: nat): string {
    Join([NatToString(frame), NatToString(i), NatToString(j)], "_")
  }

  /** The counter value sphere `k` of frame `f` draws. */
  function Drawn(f: nat, k: nat): nat {
    64 * f + k
  }

  /** The material of sphere (i, j) of a frame: the permutation with the running index `64 * frame + 8 * i + j`. */
  function CellMaterial(data: seq<seq<Fragment<Value>>>, frame: nat, i: nat, j: nat): MaterialDesc {
    MaterialDesc("mat_" + CellId(frame, i, j), Resolved(data, Drawn(frame, 8 * i + j)))
  }

  /** Sphere (i, j) of a frame, at (i - 3.5, j - 3.5, 0), rendered with the material of the same cell. */
  function CellEntity(frame: nat, i: nat, j: nat): EntityDesc {
    EntityDesc(
      "sphere_" + CellId(frame, i, j), "", "render",
      [("type", Str("sphere")), ("material", Str("$mat_" + CellId(frame, i, j)))],
      Some([i as real - 3.5, j as real - 3.5, 0.0]), None, None)
  }

  /** The materials of the first `n` cells of row `i` of a frame. */
  function RowMaterials(data: seq<seq<Fragment<Value>>>, frame: nat, i: nat, n: nat): (ms: seq<MaterialDesc>)
    ensures |ms| == n
  {
    if n == 0 then [] else RowMaterials(data, frame, i, n - 1) + [CellMaterial(data, frame, i, n - 1)]
  }

  /** The entities of the first `n` cells of row `i` of a frame. */
  function RowEntities(frame: nat, i: nat, n: nat): (es: seq<EntityDesc>)
    ensures |es| == n
  {
    if n == 0 then [] else RowEntities(frame, i, n - 1) + [CellEntity(frame, i, n - 1)]
  }

  /** The materials of the first `n` rows of a frame, row by row. */
  function MaterialRows(data: seq<seq<Fragment<Value>>>, frame: nat, n: nat): (ms: seq<MaterialDesc>)
    ensures |ms| == 8 * n
  {
    if n == 0 then [] else MaterialRows(data, frame, n - 1) + RowMaterials(data, frame, n - 1, 8)
  }

  /** The entities of the first `n` rows of a frame, row by row. */
  function EntityRows(frame: nat, n: nat): (es: seq<EntityDesc>)
    ensures |es| == 8 * n
  {
    if n == 0 then [] else EntityRows(frame, n - 1) + RowEntities(frame, n - 1, 8)
  }

  /** The materials of a frame. */
  function Materials(data: seq<seq<Fragment<Value>>>, frame: nat): seq<MaterialDesc> {
    MaterialRows(data, frame, 8)
  }

  /** The entities of a frame. */
  function Entities(frame: nat): seq<EntityDesc> {
    EntityRows(frame, 8)
  }

  /** Entry `8 * i + j` of the first `n` rows belongs to cell (i, j). */
  lemma {:induction false} RowsAt(data: seq<seq<Fragment<Value>>>, frame: nat, n: nat, i: nat, j: nat)
    requires i < n && j < 8
    ensures MaterialRows(data, frame, n)[8 * i + j] == CellMaterial(data, frame, i, j)
    ensures EntityRows(frame, n)[8 * i + j] == CellEntity(frame, i, j)
  {
    if i < n - 1 {
      RowsAt(data, frame, n - 1, i, j);
    } else {
      RowAt(data, frame, i, 8, j);
    }
  }

  /** Entry `j` of the first `n` cells of row `i` belongs to cell (i, j). */
  lemma {:induction false} RowAt(data: seq<seq<Fragment<Value>>>, frame: nat, i: nat, n: nat, j: nat)
    requires j < n
    ensures RowMaterials(data, frame, i, n)[j] == CellMaterial(data, frame, i, j)
    ensures RowEntities(frame, i, n)[j] == CellEntity(frame, i, j)
  {
    if j < n - 1 {
      RowAt(data, frame, i, n - 1, j);
    }
  }

  /** The three textures every frame loads. */
  function Textures(): seq<AssetDesc> {
    [AssetDesc("ccNormal", "texture", "assets/flakes5n.png"),
     AssetDesc("ccDiffuse", "texture", "assets/flakes5c.png"),
     AssetDesc("ccOther", "texture", "assets/flakes5o.png")]
  }

  /** The test for one frame. */
  function FrameTest(data: seq<seq<Fragment<Value>>>, frame: nat): Stage {
    Stage(None, "material/" + NatToString(frame), Some(EngineUrl), None, Some(EnvUrl),
          Textures(), Materials(data, frame), Entities(frame), NoChildren)
  }

  /** The tests of the first `n` frames. */
  function FramesUpTo(data: seq<seq<Fragment<Value>>>, n: nat): (ts: seq<Stage>)
    ensures |ts| == n
  {
    if n == 0 then [] else FramesUpTo(data, n - 1) + [FrameTest(data, n - 1)]
  }

  /** Every test `register` builds, one per frame. */
  function FrameTests(data: seq<seq<Fragment<Value>>>): seq<Stage> {
    FramesUpTo(data, FrameCount(Total(data)))
  }

  /** Entry `f` of the frame tests is the test of frame `f`. */
  lemma {:induction false} FramesAt(data: seq<seq<Fragment<Value>>>, n: nat, f: nat)
    requires f < n
    ensures FramesUpTo(data, n)[f] == FrameTest(data, f)
  {
    if f < n - 1 {
      FramesAt(data, n - 1, f);
    }
  }

  /**
   * The spheres of row `i` of a frame, as the inner loop of `register`
   * pushes them, drawing permutations `idx`, `idx + 1`, ... from the counter.
   */
  method FillRow(permutation: Permutation<Value>, frame: nat, i: nat, idx: nat,
                 materials: seq<MaterialDesc>, entities: seq<EntityDesc>)
    returns (idx': nat, materials': seq<MaterialDesc>, entities': seq<EntityDesc>)
    requires permutation.Valid() && i < 8
    requires idx == 64 * frame + 8 * i
    requires materials == MaterialRows(permutation.data, frame, i) && entities == EntityRows(frame, i)
    ensures idx' == 64 * frame + 8 * (i + 1)
    ensures materials' == MaterialRows(permutation.data, frame, i + 1) && entities' == EntityRows(frame, i + 1)
  {
    idx', materials', entities' := idx, materials, entities;
    for j := 0 to 8
      invariant idx' == Drawn(frame, 8 * i + j)
      invariant materials' == materials + RowMaterials(permutation.data, frame, i, j)
      invariant entities' == entities + RowEntities(frame, i, j)
    {
      var id := CellId(frame, i, j);
      var options := permutation.Resolve(idx');
      var material := MaterialDesc("mat_" + id, options);
      var entity := EntityDesc(
        "sphere_" + id, "", "render",
        [("type", Str("sphere")), ("material", Str("$mat_" + id))],
        Some([i as real - 3.5, j as real - 3.5, 0.0]), None, None);
      assert material == CellMaterial(permutation.data, frame, i, j);
      idx' := idx' + 1;
      materials' := materials' + [material];
      entities' := entities' + [entity];
    }
  }

  /** The test of one frame, with its 8 x 8 spheres drawn from the counter `idx`. */
  method BuildFrame(permutation: Permutation<Value>, frame: nat, idx: nat) returns (test: Stage, idx': nat)
    requires permutation.Valid()
    requires idx == 64 * frame
    ensures test == FrameTest(permutation.data, frame) && idx' == 64 * (frame + 1)
  {
    idx' := idx;
    var materials: seq<MaterialDesc> := [];
    var entities: seq<EntityDesc> := [];
    for i := 0 to 8
      invariant idx' == 64 * frame + 8 * i
      invariant materials == MaterialRows(permutation.data, frame, i)
      invariant entities == EntityRows(frame, i)
    {
      idx', materials, entities := FillRow(permutation, frame, i, idx', materials, entities);
    }
    test := Stage(None, "material/" + NatToString(frame), Some(EngineUrl), None, Some(EnvUrl),
                  Textures(), materials, entities, NoChildren);
  }

  /**
   * The frame loop of `register`: builds the frames of `permutation`,
   * drawing one permutation per sphere from a counter that carries over
   * from frame to frame, and registers each frame's test under `test.id`.
   */
  method RegisterFrames(registry: Registry, permutation: Permutation<Value>)
    requires registry.Valid() && permutation.Valid()
    modifies registry
    ensures registry.Valid() && registry.tests == RegisterAll(old(registry.tests), FrameTests(permutation.data), IdKey)
  {
    var totalFrames := (permutation.total + 63) / 64;
    var idx := 0;
    for frame := 0 to totalFrames
      invariant registry.Valid()
      invariant registry.tests == RegisterAll(old(registry.tests), FramesUpTo(permutation.data, frame), IdKey)
      invariant idx == 64 * frame
    {
      var test;
      test, idx := BuildFrame(permutation, frame, idx);
      registry.Register(test);
      RegisterAllSnoc(old(registry.tests), FramesUpTo(permutation.data, frame), test, IdKey);
    }
  }

  /**
   * `MaterialTests.register(registry)`: registers one test per frame of the
   * configured axes.  As written, on an empty registry only the last frame
   * survives, under the key "undefined".
   */
  method Register(registry: Registry)
    requires registry.Valid()
    modifies registry
    ensures registry.Valid() && registry.tests == RegisterAll(old(registry.tests), FrameTests(Axes()), IdKey)
    ensures old(registry.tests) == [] ==> Keys(registry.tests) == ["undefined"]
  {
    var permutation := new Permutation(Axes());
    RegisterFrames(registry, permutation);
    AxesNonEmpty();
    FramesCollide(old(registry.tests), registry.tests, permutation.data);
  }

  /** The frame loop of `register` with the corrected filing of each frame's test under its name. */
  method RegisterFramesNamed(registry: Registry, permutation: Permutation<Value>)
    requires registry.Valid() && permutation.Valid()
    modifies registry
    ensures registry.Valid() && registry.tests == RegisterAll(old(registry.tests), FrameTests(permutation.data), NameKey)
  {
    var totalFrames := (permutation.total + 63) / 64;
    var idx := 0;
    for frame := 0 to totalFrames
      invariant registry.Valid()
      invariant registry.tests == RegisterAll(old(registry.tests), FramesUpTo(permutation.data, frame), NameKey)
      invariant idx == 64 * frame
    {
      var test;
      test, idx := BuildFrame(permutation, frame, idx);
      registry.RegisterNamed(test);
      RegisterAllSnoc(old(registry.tests), FramesUpTo(permutation.data, frame), test, NameKey);
    }
  }

  /**
   * `MaterialTests.register(registry)` with the corrected filing: on an
   * empty registry every frame is listed in order and found by its name.
   */
  method RegisterNamed(registry: Registry)
    requires registry.Valid()
    modifies registry
    ensures registry.Valid() && registry.tests == RegisterAll(old(registry.tests), FrameTests(Axes()), NameKey)
    ensures old(registry.tests) == [] ==> Keys(registry.tests) == KeysOf(FrameTests(Axes()), NameKey)
  {
    var permutation := new Permutation(Axes());
    RegisterFramesNamed(registry, permutation);
    FrameTestsListed(Axes());
  }

  // ---------------------------------------------------------------------
  // Facts about the configured axes.

  /** Every axis of the configuration offers at least one fragment. */
  lemma AxesNonEmpty()
    ensures AllNonEmpty(Axes())
  {
  }

  /** The configuration has 1 * 2 * 2 * 4 * 2 * 2 * 2 = 128 permutations, which fill two frames. */
  lemma AxesTotal()
    ensures Total(Axes()) == 128 && FrameCount(Total(Axes())) == 2
  {
    var a := Axes();
    assert Total(a[6..]) == 2 by { assert a[6..][1..] == []; }
    assert Total(a[5..]) == 4 by { assert a[5..][1..] == a[6..]; }
    assert Total(a[4..]) == 8 by { assert a[4..][1..] == a[5..]; }
    assert Total(a[3..]) == 32 by { assert a[3..][1..] == a[4..]; }
    assert Total(a[2..]) == 64 by { assert a[2..][1..] == a[3..]; }
    assert Total(a[1..]) == 128 by { assert a[1..][1..] == a[2..]; }
  }

  /** The test of frame `f` is named `material/<f>`. */
  lemma FrameNamed(data: seq<seq<Fragment<Value>>>, f: nat)
    requires f < FrameCount(Total(data))
    ensures KeysOf(FrameTests(data), NameKey)[f] == "material/" + NatToString(f)
  {
    FramesAt(data, FrameCount(Total(data)), f);
  }

  /** The test of frame `f` is named `material/<f>`, and tests of different frames have different names. */
  lemma FrameNames(data: seq<seq<Fragment<Value>>>)
    ensures |FrameTests(data)| == FrameCount(Total(data))
    ensures forall f :: 0 <= f < |FrameTests(data)| ==> FrameTests(data)[f].name == "material/" + NatToString(f)
    ensures NoDuplicates(KeysOf(FrameTests(data), NameKey))
  {
    var ts := FrameTests(data);
    forall f | 0 <= f < |ts| ensures ts[f].name == "material/" + NatToString(f) {
      FramesAt(data, |ts|, f);
    }
    var ks := KeysOf(ts, NameKey);
    forall f, g | 0 <= f < g < |ks| ensures ks[f] != ks[g] {
      assert ks[f] == "material/" + NatToString(f) && ks[g] == "material/" + NatToString(g);
      assert ks[f][9..] == NatToString(f) && ks[g][9..] == NatToString(g);
      if NatToString(f) == NatToString(g) {
        NatToStringInjective(f, g);
      }
    }
  }

  /** `FrameTestsCollide` for the registry a frame loop leaves behind. */
  lemma FramesCollide(start: Dict<string, Stage>, tests: Dict<string, Stage>, data: seq<seq<Fragment<Value>>>)
    requires tests == RegisterAll(start, FrameTests(data), IdKey)
    ensures start == [] && AllNonEmpty(data) ==>
      Keys(tests) == ["undefined"] && Get(tests, "undefined") == Some(FrameTest(data, FrameCount(Total(data)) - 1))
  {
    if start == [] && AllNonEmpty(data) {
      FrameTestsCollide(data);
    }
  }

  /**
   * Registered as written, under `test.id`, the frames overwrite each other
   * on the key "undefined": only the last frame survives.
   */
  lemma FrameTestsCollide(data: seq<seq<Fragment<Value>>>)
    requires AllNonEmpty(data)
    ensures Keys(RegisterAll([], FrameTests(data), IdKey)) == ["undefined"]
    ensures Get(RegisterAll([], FrameTests(data), IdKey), "undefined") == Some(FrameTest(data, FrameCount(Total(data)) - 1))
  {
    TotalPositive(data);
    var ts := FrameTests(data);
    forall f | 0 <= f < |ts| ensures ts[f].id.None? {
      FramesAt(data, |ts|, f);
    }
    FramesAt(data, |ts|, |ts| - 1);
    RegisterAllWithoutIds(ts);
  }

  /** Registered under their names, every frame is listed in order and can be fetched by its name. */
  lemma FrameTestsListed(data: seq<seq<Fragment<Value>>>)
    ensures Keys(RegisterAll([], FrameTests(data), NameKey)) == KeysOf(FrameTests(data), NameKey)
    ensures forall f :: 0 <= f < FrameCount(Total(data)) ==>
      Get(RegisterAll([], FrameTests(data), NameKey), "material/" + NatToString(f)) == Some(FrameTest(data, f))
  {
    var ts := FrameTests(data);
    FrameNames(data);
    RegisterAllNamedKeys(ts);
    forall f | 0 <= f < |ts|
      ensures Get(RegisterAll([], ts, NameKey), "material/" + NatToString(f)) == Some(FrameTest(data, f))
    {
      RegisterAllNamedGet(ts, f);
      FramesAt(data, |ts|, f);
    }
  }

  /** A configuration of two frames gives the two tests `material/0` and `material/1`. */
  lemma TwoFrames(data: seq<seq<Fragment<Value>>>)
    requires FrameCount(Total(data)) == 2
    ensures KeysOf(FrameTests(data), NameKey) == ["material/0", "material/1"]
  {
    var ks := KeysOf(FrameTests(data), NameKey);
    FrameNamed(data, 0);
    FrameNamed(data, 1);
    SmallNames();
    Pair(ks, "material/0", "material/1");
  }

  lemma SmallNames()
    ensures "material/" + NatToString(0) == "material/0" && "material/" + NatToString(1) == "material/1"
  {
    assert NatToString(0) == "0" && NatToString(1) == "1";
  }

  /** The configured axes give the two tests `material/0` and `material/1`. */
  lemma AxesFrames()
    ensures KeysOf(FrameTests(Axes()), NameKey) == ["material/0", "material/1"]
  {
    AxesTotal();
    TwoFrames(Axes());
  }

  /** The cell ids of different cells differ. */
  lemma CellIdInjective(f: nat, i: nat, j: nat, f': nat, i': nat, j': nat)
    ensures CellId(f, i, j) == CellId(f', i', j') <==> (f, i, j) == (f', i', j')
  {
    if CellId(f, i, j) == CellId(f', i', j') {
      DigitsHaveNoSeparator(NatToString(f));
      DigitsHaveNoSeparator(NatToString(i));
      DigitsHaveNoSeparator(NatToString(j));
      DigitsHaveNoSeparator(NatToString(f'));
      DigitsHaveNoSeparator(NatToString(i'));
      DigitsHaveNoSeparator(NatToString(j'));
      SplitJoin([NatToString(f), NatToString(i), NatToString(j)], '_');
      SplitJoin([NatToString(f'), NatToString(i'), NatToString(j')], '_');
      NatToStringInjective(f, f');
      NatToStringInjective(i, i');
      NatToStringInjective(j, j');
    }
  }

  lemma DigitsHaveNoSeparator(s: string)
    requires IsDigits(s)
    ensures '_' !in s
  {
  }

  /** Each frame has 64 materials and 64 entities; sphere (i, j) is entry 8 * i + j, with the ids of that cell. */
  lemma FrameLayout(data: seq<seq<Fragment<Value>>>, frame: nat, i: nat, j: nat)
    requires i < 8 && j < 8
    ensures |Materials(data, frame)| == 64 && |Entities(frame)| == 64
    ensures Materials(data, frame)[8 * i + j].name == "mat_" + CellId(frame, i, j)
    ensures Entities(frame)[8 * i + j].name == "sphere_" + CellId(frame, i, j)
    ensures Materials(data, frame)[8 * i + j].options == Resolved(data, Drawn(frame, 8 * i + j))
  {
    RowsAt(data, frame, 8, i, j);
  }

  /** Each entity's material option names, after the `$`, the material built in the same cell. */
  lemma EntityUsesCellMaterial(data: seq<seq<Fragment<Value>>>, frame: nat, i: nat, j: nat)
    requires i < 8 && j < 8
    ensures var opts := Entities(frame)[8 * i + j].componentOptions;
      Get(opts, "material") == Some(Str("$" + Materials(data, frame)[8 * i + j].name))
  {
    RowsMaterial(data, frame, 8, i, j);
  }

  /** The same for the first `n` rows. */
  lemma RowsMaterial(data: seq<seq<Fragment<Value>>>, frame: nat, n: nat, i: nat, j: nat)
    requires i < n && j < 8
    ensures Get(EntityRows(frame, n)[8 * i + j].componentOptions, "material") == Some(Str("$" + MaterialRows(data, frame, n)[8 * i + j].name))
  {
    RowsAt(data, frame, n, i, j);
    CellEntityMaterial(frame, i, j);
    DollarMaterialName(CellId(frame, i, j));
  }

  /** A sphere's `material` option is the reference `$mat_<id>` of its cell. */
  lemma CellEntityMaterial(frame: nat, i: nat, j: nat)
    ensures Get(CellEntity(frame, i, j).componentOptions, "material") == Some(Str("$mat_" + CellId(frame, i, j)))
  {
    var opts := CellEntity(frame, i, j).componentOptions;
    assert opts[0].0 == "type" != "material";
    assert opts[1..] == [("material", Str("$mat_" + CellId(frame, i, j)))];
  }

  /** The spheres sit on a grid symmetric about the origin: cell (7 - i, 7 - j) mirrors cell (i, j). */
  lemma GridSymmetric(frame: nat, i: nat, j: nat)
    requires i < 8 && j < 8
    ensures var x, y := i as real - 3.5, j as real - 3.5;
      && -3.5 <= x <= 3.5 && -3.5 <= y <= 3.5
      && Entities(frame)[8 * i + j].position == Some([x, y, 0.0])
      && Entities(frame)[8 * (7 - i) + (7 - j)].position == Some([-x, -y, 0.0])
  {
    RowsAt([], frame, 8, i, j);
    RowsAt([], frame, 8, 7 - i, 7 - j);
  }

  /** Sphere k of frame f draws permutation `64 * f + k`, and no index reaches the total: nothing wraps around. */
  lemma CellIndexBelowTotal(f: nat, k: nat)
    requires f < FrameCount(Total(Axes())) && k < 64
    ensures 64 * f + k < Total(Axes())
  {
    AxesTotal();
  }

  /**
   * Every permutation of the configuration is drawn by exactly one sphere
   * of one frame.
   */
  lemma EveryPermutationOnce(c: seq<nat>)
    requires InRange(Axes(), c)
    ensures exists f, k :: 0 <= f < 2 && 0 <= k < 64 && Coords(Axes(), Drawn(f, k)) == c
    ensures forall f, k, f', k' ::
      0 <= f < 2 && 0 <= k < 64 && 0 <= f' < 2 && 0 <= k' < 64
      && Coords(Axes(), Drawn(f, k)) == c && Coords(Axes(), Drawn(f', k')) == c
      ==> f == f' && k == k'
  {
    AxesTotal();
    AxesNonEmpty();
    CoordsBijective(Axes(), c);
    var x :| 0 <= x < Total(Axes()) && Coords(Axes(), x) == c;
    DivModUnique(x, 64, x / 64, x % 64);
    assert Coords(Axes(), Drawn(x / 64, x % 64)) == c;
    forall f, k, f', k' |
      0 <= f < 2 && 0 <= k < 64 && 0 <= f' < 2 && 0 <= k' < 64
      && Coords(Axes(), Drawn(f, k)) == c && Coords(Axes(), Drawn(f', k')) == c
      ensures f == f' && k == k'
    {
      CoordsInjective(Axes(), Drawn(f, k), Drawn(f', k'));
      DivModUnique(64 * f + k, 64, f, k);
      DivModUnique(64 * f' + k', 64, f', k');
    }
  }

  // ---------------------------------------------------------------------
  // Plumbing: identities on sequences and strings that model nothing of the
  // test generator; the proofs above call them to keep each step small
  // enough for the solver.
  // ---------------------------------------------------------------------

  lemma Pair<T>(s: seq<T>, a: T, b: T)
    requires |s| == 2 && s[0] == a && s[1] == b
    ensures s == [a, b]
  {
  }

  /** `$` before a material's name is the reference `$mat_<id>`. */
  lemma DollarMaterialName(id: string)
    ensures "$" + ("mat_" + id) == "$mat_" + id
  {
  }
}
