/**
 * The glTF tests of test-server/gltf-tests.js: one registered test per
 * (model, variant) of the sample-model manifest, each loading that file as
 * a container asset and instantiating it once.
 */
module GltfTestsServer {
  import opened Wrappers
  import opened Dict
  import opened Seqs
  import opened Descriptors
  import opened TestRegistry

  /** `${model.name}/${variant}/${model.variants[variant]}`. */
  function Suffix(m: Model, variant: string): string {
    m.name + "/" + variant + "/" + VariantFile(m, variant)
  }

  /** Where the sample models are served from. */
  const ModelRoot := "gltf-sample-models/2.0/"

  /** The test registered for one variant of one model. */
  function Descriptor(m: Model, variant: string): Stage {
    Stage(None, "gltf/" + Suffix(m, variant), Some(EngineUrl), Some(DracoUrl), Some(EnvUrl),
          [AssetDesc("gltf", "container", ModelRoot + Suffix(m, variant))], [], [AssetEntity("$gltf")], NoChildren)
  }

  /** The tests for the variants `vs` of a model, in order. */
  function VariantDescriptors(m: Model, vs: seq<string>): (ts: seq<Stage>)
    ensures |ts| == |vs|
  {
    if vs == [] then [] else VariantDescriptors(m, vs[..|vs| - 1]) + [Descriptor(m, vs[|vs| - 1])]
  }

  /** Test `j` of a model's variants `vs` is the one for variant `vs[j]`. */
  lemma {:induction false} VariantDescriptorAt(m: Model, vs: seq<string>, j: nat)
    requires j < |vs|
    ensures VariantDescriptors(m, vs)[j] == Descriptor(m, vs[j])
  {
    if j < |vs| - 1 {
      VariantDescriptorAt(m, vs[..|vs| - 1], j);
    }
  }

  /** The tests for a model: one per key of its variants, in key order. */
  function ModelDescriptors(m: Model): seq<Stage> {
    VariantDescriptors(m, Keys(m.variants))
  }

  /** Every test `register` registers: the models in manifest order, each with its variants in key order. */
  function Tests(manifest: seq<Model>): seq<Stage> {
    Joined(ModelDescriptors, manifest)
  }

  /** The number of (model, variant) pairs of a manifest. */
  function VariantCount(manifest: seq<Model>): nat {
    if manifest == [] then 0 else VariantCount(manifest[..|manifest| - 1]) + |manifest[|manifest| - 1].variants|
  }

  /** The inner `forEach` of `register`: registers the test of each variant of `model`, in key order, under `test.id`. */
  method RegisterModel(registry: Registry, model: Model)
    requires registry.Valid()
    modifies registry
    ensures registry.Valid() && registry.tests == RegisterAll(old(registry.tests), ModelDescriptors(model), IdKey)
  {
    var variants := Keys(model.variants);
    for j := 0 to |variants|
      invariant registry.Valid()
      invariant registry.tests == RegisterAll(old(registry.tests), VariantDescriptors(model, variants[..j]), IdKey)
    {
      var test := Descriptor(model, variants[j]);
      registry.Register(test);
      RegisterVariantStep(old(registry.tests), model, variants, j, IdKey);
    }
    assert variants[..|variants|] == variants;
  }

  /** One turn of the inner `forEach`: registering variant `j` extends the registry of the variants before it. */
  lemma RegisterVariantStep(start: Dict<string, Stage>, model: Model, variants: seq<string>, j: nat, key: Stage -> string)
    requires j < |variants|
    ensures RegisterAll(start, VariantDescriptors(model, variants[..j + 1]), key) ==
      Set(RegisterAll(start, VariantDescriptors(model, variants[..j]), key), key(Descriptor(model, variants[j])), Descriptor(model, variants[j]))
  {
    var test := Descriptor(model, variants[j]);
    assert variants[..j + 1][..j] == variants[..j];
    assert VariantDescriptors(model, variants[..j + 1]) == VariantDescriptors(model, variants[..j]) + [test];
    RegisterAllSnoc(start, VariantDescriptors(model, variants[..j]), test, key);
  }

  /**
   * `GltfTests.register(testRegistry)` on a parsed manifest: registers each
   * model's variants in turn and returns what `forEach` returns.  As
   * written, on an empty registry only the last test survives, under the
   * key "undefined".
   */
  method Register(registry: Registry, manifest: seq<Model>) returns (r: Value)
    requires registry.Valid()
    modifies registry
    ensures r == Undefined
    ensures registry.Valid() && registry.tests == RegisterAll(old(registry.tests), Tests(manifest), IdKey)
    ensures old(registry.tests) == [] && Tests(manifest) != [] ==>
      Keys(registry.tests) == ["undefined"] &&
      Get(registry.tests, "undefined") == Some(Tests(manifest)[|Tests(manifest)| - 1])
  {
    for i := 0 to |manifest|
      invariant registry.Valid()
      invariant registry.tests == RegisterAll(old(registry.tests), Joined(ModelDescriptors, manifest[..i]), IdKey)
    {
      RegisterModel(registry, manifest[i]);
      JoinedSnoc(ModelDescriptors, manifest, i);
      RegisterAllAppend(old(registry.tests), Joined(ModelDescriptors, manifest[..i]), ModelDescriptors(manifest[i]), IdKey);
    }
    assert manifest[..|manifest|] == manifest;
    if old(registry.tests) == [] && Tests(manifest) != [] {
      TestsCollide(manifest);
    }
    r := Undefined;
  }

  /** The inner `forEach` of `register` with the corrected filing of each test under its name. */
  method RegisterModelNamed(registry: Registry, model: Model)
    requires registry.Valid()
    modifies registry
    ensures registry.Valid() && registry.tests == RegisterAll(old(registry.tests), ModelDescriptors(model), NameKey)
  {
    var variants := Keys(model.variants);
    for j := 0 to |variants|
      invariant registry.Valid()
      invariant registry.tests == RegisterAll(old(registry.tests), VariantDescriptors(model, variants[..j]), NameKey)
    {
      var test := Descriptor(model, variants[j]);
      registry.RegisterNamed(test);
      RegisterVariantStep(old(registry.tests), model, variants, j, NameKey);
    }
    assert variants[..|variants|] == variants;
  }

  /**
   * `GltfTests.register(testRegistry)` with the corrected filing: every
   * test is registered under its name.
   */
  method RegisterNamed(registry: Registry, manifest: seq<Model>) returns (r: Value)
    requires registry.Valid()
    modifies registry
    ensures r == Undefined
    ensures registry.Valid() && registry.tests == RegisterAll(old(registry.tests), Tests(manifest), NameKey)
  {
    for i := 0 to |manifest|
      invariant registry.Valid()
      invariant registry.tests == RegisterAll(old(registry.tests), Joined(ModelDescriptors, manifest[..i]), NameKey)
    {
      RegisterModelNamed(registry, manifest[i]);
      JoinedSnoc(ModelDescriptors, manifest, i);
      RegisterAllAppend(old(registry.tests), Joined(ModelDescriptors, manifest[..i]), ModelDescriptors(manifest[i]), NameKey);
    }
    assert manifest[..|manifest|] == manifest;
    r := Undefined;
  }

  /** There is one test per (model, variant) pair. */
  lemma {:induction false} TestCount(manifest: seq<Model>)
    ensures |Tests(manifest)| == VariantCount(manifest)
  {
    if manifest != [] {
      TestCount(manifest[..|manifest| - 1]);
    }
  }

  /**
   * The tests come in manifest order, then variant-key order: variant `j`
   * of model `i` is the test after those of the models before it.
   */
  lemma DescriptorAt(manifest: seq<Model>, i: nat, j: nat)
    requires i < |manifest| && j < |manifest[i].variants|
    ensures VariantCount(manifest[..i]) + j < |Tests(manifest)|
    ensures Tests(manifest)[VariantCount(manifest[..i]) + j] == Descriptor(manifest[i], Keys(manifest[i].variants)[j])
  {
    var before := Joined(ModelDescriptors, manifest[..i]);
    var mine := ModelDescriptors(manifest[i]);
    var after := Joined(ModelDescriptors, manifest[i + 1..]);
    JoinedSplit(ModelDescriptors, manifest, i + 1);
    JoinedSnoc(ModelDescriptors, manifest, i);
    assert Tests(manifest) == before + mine + after;
    TestCount(manifest[..i]);
    assert |mine| == |manifest[i].variants|;
    IndexMiddle(before, mine, after, j);
    VariantDescriptorAt(manifest[i], Keys(manifest[i].variants), j);
  }

  /** A test is registered exactly for each model of the manifest and each key of its variants. */
  lemma DescriptorMember(manifest: seq<Model>, t: Stage)
    ensures t in Tests(manifest) <==>
      exists m, v :: m in manifest && v in Keys(m.variants) && t == Descriptor(m, v)
  {
    JoinedMember(ModelDescriptors, manifest, t);
    if exists m, v :: m in manifest && v in Keys(m.variants) && t == Descriptor(m, v) {
      var m, v :| m in manifest && v in Keys(m.variants) && t == Descriptor(m, v);
      var j :| 0 <= j < |Keys(m.variants)| && Keys(m.variants)[j] == v;
      VariantDescriptorAt(m, Keys(m.variants), j);
      assert ModelDescriptors(m)[j] == t;
    }
    if t in Tests(manifest) {
      var m :| m in manifest && t in ModelDescriptors(m);
      var j :| 0 <= j < |ModelDescriptors(m)| && ModelDescriptors(m)[j] == t;
      VariantDescriptorAt(m, Keys(m.variants), j);
      assert Keys(m.variants)[j] in Keys(m.variants);
    }
  }

  /**
   * The shape of each test: its name is `gltf/` and the suffix
   * `model/variant/file`, its one asset is the container `gltf` at the same
   * suffix under the sample-model root, and its one entity instantiates
   * that asset through the reference `$gltf`.
   */
  lemma DescriptorShape(m: Model, v: string)
    ensures var t := Descriptor(m, v);
      && t.name == "gltf/" + m.name + "/" + v + "/" + VariantFile(m, v)
      && |t.assets| == 1 && t.assets[0].name == "gltf" && t.assets[0].kind == "container"
      && t.assets[0].url == ModelRoot + t.name[5..]
      && |t.entities| == 1 && t.entities[0].asset[0] == '$' && t.entities[0].asset[1..] == t.assets[0].name
      && t.engine == Some(EngineUrl) && t.draco == Some(DracoUrl) && t.env == Some(EnvUrl)
      && t.materials == [] && t.children.NoChildren? && t.id.None?
  {
    var t := Descriptor(m, v);
    assert t.name[5..] == Suffix(m, v);
  }

  /** A variant that is a key of the model names the file the manifest gives for it. */
  lemma VariantFileOf(m: Model, i: nat)
    requires Valid(m.variants) && i < |m.variants|
    ensures VariantFile(m, m.variants[i].0) == m.variants[i].1
  {
    GetAt(m.variants, i);
  }

  /**
   * Registered as written, under `test.id`, all the glTF tests share the
   * key "undefined" and only the last one survives.
   */
  lemma TestsCollide(manifest: seq<Model>)
    requires Tests(manifest) != []
    ensures Keys(RegisterAll([], Tests(manifest), IdKey)) == ["undefined"]
    ensures Get(RegisterAll([], Tests(manifest), IdKey), "undefined") == Some(Tests(manifest)[|Tests(manifest)| - 1])
  {
    var ts := Tests(manifest);
    forall k | 0 <= k < |ts| ensures ts[k].id.None? {
      assert ts[k] in ts;
      DescriptorMember(manifest, ts[k]);
    }
    RegisterAllWithoutIds(ts);
  }
}
