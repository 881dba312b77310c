/**
 * The glTF tests of src/test-client/gltf-tests.js: the browser-side test
 * tree, one stage per model of the manifest with one child stage per
 * variant, each child loading that variant's file.
 */
module GltfTestsClient {
  import opened Wrappers
  import opened Dict
  import opened Descriptors
  import GltfTestsServer

  /** The stage for one variant of a model: it loads the variant's file and instantiates it. */
  function VariantStage(m: Model, variant: string): Stage {
    Stage(None, variant, None, None, None,
          [AssetDesc("gltf", "container", m.name + "/" + variant + "/" + VariantFile(m, variant))],
          [], [AssetEntity("$gltf")], NoChildren)
  }

  /** The stages for the variants `vs` of a model, in order. */
  function VariantStages(m: Model, vs: seq<string>): (cs: seq<Stage>)
    ensures |cs| == |vs|
  {
    if vs == [] then [] else VariantStages(m, vs[..|vs| - 1]) + [VariantStage(m, vs[|vs| - 1])]
  }

  /** The stage for a model: no resources of its own, a child per key of its variants. */
  function ModelStage(m: Model): Stage {
    Stage(None, m.name, None, None, None, [], [], [], HasChildren(VariantStages(m, Keys(m.variants))))
  }

  /** An element of the array `.flat()` is applied to: a stage object, or an array of them. */
  datatype Element = Item(stage: Stage) | List(items: seq<Element>)

  /** `xs.flat()`: the elements of each array element spliced in, every other element kept. */
  function Flat(xs: seq<Element>): seq<Element> {
    if xs == [] then []
    else
      Flat(xs[..|xs| - 1]) +
      match xs[|xs| - 1]
      case Item(s) => [Item(s)]
      case List(items) => items
  }

  /** `manifest.map(...)`: a stage object per model, in order. */
  function ModelItems(manifest: seq<Model>): (xs: seq<Element>)
    ensures |xs| == |manifest|
  {
    if manifest == [] then [] else ModelItems(manifest[..|manifest| - 1]) + [Item(ModelStage(manifest[|manifest| - 1]))]
  }

  /** `gltfTests()` on a parsed manifest. */
  function GltfTests(manifest: seq<Model>): seq<Element> {
    Flat(ModelItems(manifest))
  }

  /** `.flat()` leaves an array without array elements as it is. */
  lemma {:induction false} FlatOfItems(xs: seq<Element>)
    requires forall i :: 0 <= i < |xs| ==> xs[i].Item?
    ensures Flat(xs) == xs
  {
    if xs != [] {
      FlatOfItems(xs[..|xs| - 1]);
      assert xs == xs[..|xs| - 1] + [xs[|xs| - 1]];
    }
  }

  /** Entry `i` of the mapped manifest is the stage of model `i`. */
  lemma {:induction false} ModelItemAt(manifest: seq<Model>, i: nat)
    requires i < |manifest|
    ensures ModelItems(manifest)[i] == Item(ModelStage(manifest[i]))
  {
    if i < |manifest| - 1 {
      ModelItemAt(manifest[..|manifest| - 1], i);
    }
  }

  /** Child `j` of a model's variants `vs` is the stage of variant `vs[j]`. */
  lemma {:induction false} VariantStageAt(m: Model, vs: seq<string>, j: nat)
    requires j < |vs|
    ensures VariantStages(m, vs)[j] == VariantStage(m, vs[j])
  {
    if j < |vs| - 1 {
      VariantStageAt(m, vs[..|vs| - 1], j);
    }
  }

  /**
   * One top-level stage per model, in manifest order, named after the model,
   * with no resources of its own and one child per variant: `.flat()`
   * changes nothing.
   */
  lemma GltfTestsAt(manifest: seq<Model>, i: nat)
    requires i < |manifest|
    ensures |GltfTests(manifest)| == |manifest|
    ensures GltfTests(manifest)[i].Item?
    ensures var s := GltfTests(manifest)[i].stage;
      && s.name == manifest[i].name
      && s.assets == [] && s.materials == [] && s.entities == []
      && s.children.HasChildren? && |s.children.stages| == |manifest[i].variants|
  {
    forall k | 0 <= k < |manifest| ensures ModelItems(manifest)[k].Item? {
      ModelItemAt(manifest, k);
    }
    FlatOfItems(ModelItems(manifest));
    ModelItemAt(manifest, i);
  }

  /**
   * Child `j` of a model's stage is named by key `j` of its variants, has
   * no children, and has exactly the one container asset `gltf` at
   * `model/variant/file` and the one entity instantiating it through `$gltf`.
   */
  lemma ChildAt(m: Model, j: nat)
    requires j < |m.variants|
    ensures var c := ModelStage(m).children.stages[j];
      var v := Keys(m.variants)[j];
      && c.name == v
      && c.children.NoChildren?
      && c.assets == [AssetDesc("gltf", "container", m.name + "/" + v + "/" + VariantFile(m, v))]
      && c.materials == []
      && |c.entities| == 1 && c.entities[0].asset == "$" + c.assets[0].name
  {
    VariantStageAt(m, Keys(m.variants), j);
    assert "$gltf" == "$" + "gltf";
  }

  /**
   * The server-side test of a variant and its browser-side stage load the
   * same file: the server's url is the browser's under the sample-model
   * root, and the server's name is `gltf/`, the model, the variant and the
   * file joined by `/`.
   */
  lemma ServerMatchesClient(m: Model, v: string)
    ensures GltfTestsServer.Descriptor(m, v).assets[0].url == GltfTestsServer.ModelRoot + VariantStage(m, v).assets[0].url
    ensures GltfTestsServer.Descriptor(m, v).name ==
      "gltf/" + ModelStage(m).name + "/" + VariantStage(m, v).name + "/" + VariantFile(m, v)
  {
  }
}
