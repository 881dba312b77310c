/**
 * `createResources`, `destroyResources` and `evaluateTest` of
 * src/test-client/test-runner.js: a test is a tree of stages; each stage
 * gets a resource context below its parent's, holding the assets it
 * loaded, the materials it made and the entities it added; a stage with
 * no `children` property is rendered and uploaded; children are
 * evaluated in order, then the stage's resources are torn down.  What
 * the runner does to the engine and the server is recorded as a log of
 * events.
 */
module TestEvaluation {
  import opened Wrappers
  import opened Dict
  import opened Strings
  import opened Descriptors
  import opened TestRunner

  /**
   * What the page supplies: the properties a fresh `pc.StandardMaterial`
   * has, the resource the engine's loader produces for an asset, and the
   * browser name `getBrowser` found.
   */
  datatype Host = Host(defaults: Dict<string, Value>, load: AssetDesc -> Value, platform: string)

  /** One call the runner makes on the engine, the console or the server. */
  datatype Event =
    | AddAsset(desc: AssetDesc)
    | Warn(message: string)
    | AddChild(entity: Entity)
    | Upload(test: string, platform: string)
    | RemoveChild(entity: Entity)
    | DestroyEntity(entity: Entity)
    | DestroyMaterial(material: Value)
    | RemoveAsset(asset: Value)
    | UnloadAsset(asset: Value)

  // ---------------------------------------------------------------------
  // createResources
  // ---------------------------------------------------------------------

  /** The `pc.Asset` `handleAsset` makes for a descriptor once it has loaded. */
  function LoadedAsset(h: Host, a: AssetDesc): Value {
    AssetObj(a.name, a.kind, a.url, h.load(a))
  }

  /** `app.assets.add` for each of the first `n` descriptors, in order. */
  function AssetAdds(descs: seq<AssetDesc>, n: nat): (r: seq<Event>)
    requires n <= |descs|
    ensures |r| == n
  {
    if n == 0 then [] else AssetAdds(descs, n - 1) + [AddAsset(descs[n - 1])]
  }

  /** `resourceContext.assets` once the first `n` loaded assets are filed under their names. */
  function AssetTable(h: Host, descs: seq<AssetDesc>, n: nat): Dict<string, Value>
    requires n <= |descs|
  {
    if n == 0 then [] else Set(AssetTable(h, descs, n - 1), descs[n - 1].name, LoadedAsset(h, descs[n - 1]))
  }

  /** The assets a stage's context holds. */
  function StageAssets(h: Host, stage: Stage): Dict<string, Value> {
    AssetTable(h, stage.assets, |stage.assets|)
  }

  /** The context `handleMaterial` and `handleEntity` look references up in, before the entities are stored. */
  function Scope(parent: Context, stage: Stage, assets: Dict<string, Value>, materials: Dict<string, Value>): Context {
    Ctx(parent, stage, assets, materials, [])
  }

  /** Each of the first `n` materials' asset references under the properties a fresh material has resolves in the context as it is when that material is made. */
  predicate MaterialsResolve(h: Host, parent: Context, stage: Stage, assets: Dict<string, Value>, n: nat)
    requires n <= |stage.materials|
    decreases n, 0
  {
    n == 0 ||
    (MaterialsResolve(h, parent, stage, assets, n - 1) &&
     KnownRefsResolve(h.defaults, stage.materials[n - 1].options, Scope(parent, stage, assets, MaterialTable(h, parent, stage, assets, n - 1))))
  }

  /** `resourceContext.materials` once the first `n` materials are made and filed under their names. */
  function MaterialTable(h: Host, parent: Context, stage: Stage, assets: Dict<string, Value>, n: nat): Dict<string, Value>
    requires n <= |stage.materials| && MaterialsResolve(h, parent, stage, assets, n)
    decreases n, 1
  {
    if n == 0 then []
    else
      var prev := MaterialTable(h, parent, stage, assets, n - 1);
      var m := stage.materials[n - 1];
      Set(prev, m.name, MaterialObj(MaterialProps(h.defaults, m.options, Scope(parent, stage, assets, prev))))
  }

  /** A console warning per message, in order. */
  function WarnEvents(ws: seq<string>): (r: seq<Event>)
    ensures |r| == |ws|
  {
    if ws == [] then [] else WarnEvents(ws[..|ws| - 1]) + [Warn(ws[|ws| - 1])]
  }

  /** The warnings making the first `n` materials prints. */
  function MaterialWarns(h: Host, parent: Context, stage: Stage, assets: Dict<string, Value>, n: nat): (r: seq<Event>)
    requires n <= |stage.materials| && MaterialsResolve(h, parent, stage, assets, n)
  {
    if n == 0 then []
    else
      var prev := MaterialTable(h, parent, stage, assets, n - 1);
      var m := stage.materials[n - 1];
      MaterialWarns(h, parent, stage, assets, n - 1) +
      WarnEvents(MaterialWarnings(h.defaults, m.options, Scope(parent, stage, assets, prev)))
  }

  /** The references of an entity resolve: its asset, or the material references of its component options. */
  predicate EntityResolves(e: EntityDesc, ctx: Context) {
    if e.asset != "" then OnChain(ctx, Assets, e.asset[1..])
    else Valid(e.componentOptions) && RefsResolve(e.componentOptions, Materials, ctx)
  }

  /** The entity `handleEntity` adds for a descriptor. */
  function EntityOf(e: EntityDesc, ctx: Context): Entity
    requires EntityResolves(e, ctx)
  {
    var source :=
      if e.asset != "" then FromAsset(ResourceOf(FindResource(e.asset[1..], Assets, ctx)))
      else Built(if e.name != "" then e.name else "testEntity", e.componentType, Substituted(e.componentOptions, ctx));
    Entity(source, e.position, e.eulerAngles, e.scale)
  }

  /** Every entity of the stage resolves in `ctx`. */
  predicate EntitiesResolve(es: seq<EntityDesc>, ctx: Context) {
    forall i :: 0 <= i < |es| ==> EntityResolves(es[i], ctx)
  }

  /** The first `n` entities, made in order. */
  function EntitiesOf(es: seq<EntityDesc>, ctx: Context, n: nat): (r: seq<Entity>)
    requires n <= |es| && EntitiesResolve(es, ctx)
    ensures |r| == n
  {
    if n == 0 then [] else EntitiesOf(es, ctx, n - 1) + [EntityOf(es[n - 1], ctx)]
  }

  /** `app.root.addChild` for each of the first `n` entities, in order. */
  function Additions(es: seq<EntityDesc>, ctx: Context, n: nat): (r: seq<Event>)
    requires n <= |es| && EntitiesResolve(es, ctx)
    ensures |r| == n
  {
    if n == 0 then [] else Additions(es, ctx, n - 1) + [AddChild(EntityOf(es[n - 1], ctx))]
  }

  /** Everything a stage references resolves when `createResources` meets it. */
  predicate StageResolves(h: Host, stage: Stage, parent: Context) {
    var assets := StageAssets(h, stage);
    MaterialsResolve(h, parent, stage, assets, |stage.materials|) &&
    EntitiesResolve(stage.entities, Scope(parent, stage, assets, MaterialTable(h, parent, stage, assets, |stage.materials|)))
  }

  /** The materials a stage's context holds. */
  function StageMaterials(h: Host, stage: Stage, parent: Context): Dict<string, Value>
    requires StageResolves(h, stage, parent)
  {
    MaterialTable(h, parent, stage, StageAssets(h, stage), |stage.materials|)
  }

  /** The context the stage's entities are made in. */
  function StageScope(h: Host, stage: Stage, parent: Context): Context
    requires StageResolves(h, stage, parent)
  {
    Scope(parent, stage, StageAssets(h, stage), StageMaterials(h, stage, parent))
  }

  /** The context `createResources(stage, parent)` returns. */
  function Created(h: Host, stage: Stage, parent: Context): (ctx: Context)
    requires StageResolves(h, stage, parent)
    ensures ctx.Ctx? && ctx.parent == parent && ctx.stage == stage
  {
    var scope := StageScope(h, stage, parent);
    Ctx(parent, stage, scope.assets, scope.materials, EntitiesOf(stage.entities, scope, |stage.entities|))
  }

  /** What `createResources` does: add every asset, warn while making materials, add every entity. */
  function Setup(h: Host, stage: Stage, parent: Context): (r: seq<Event>)
    requires StageResolves(h, stage, parent)
  {
    var assets := StageAssets(h, stage);
    AssetAdds(stage.assets, |stage.assets|) +
    MaterialWarns(h, parent, stage, assets, |stage.materials|) +
    Additions(stage.entities, StageScope(h, stage, parent), |stage.entities|)
  }

  // ---------------------------------------------------------------------
  // destroyResources
  // ---------------------------------------------------------------------

  /** `remove(e)` then `e.destroy()` for each of the first `n` entities. */
  function EntityTeardown(es: seq<Entity>, n: nat): (r: seq<Event>)
    requires n <= |es|
    ensures |r| == 2 * n
  {
    if n == 0 then [] else EntityTeardown(es, n - 1) + [RemoveChild(es[n - 1]), DestroyEntity(es[n - 1])]
  }

  /** `destroy()` on each of the first `n` materials, in key order. */
  function MaterialTeardown(ms: Dict<string, Value>, n: nat): (r: seq<Event>)
    requires n <= |ms|
    ensures |r| == n
  {
    if n == 0 then [] else MaterialTeardown(ms, n - 1) + [DestroyMaterial(ms[n - 1].1)]
  }

  /** `app.assets.remove(asset)` then `asset.unload()` for each of the first `n` assets, in key order. */
  function AssetTeardown(table: Dict<string, Value>, n: nat): (r: seq<Event>)
    requires n <= |table|
    ensures |r| == 2 * n
  {
    if n == 0 then [] else AssetTeardown(table, n - 1) + [RemoveAsset(table[n - 1].1), UnloadAsset(table[n - 1].1)]
  }

  /** What `destroyResources(ctx)` does. */
  function Teardown(ctx: Context): (r: seq<Event>)
    requires ctx.Ctx?
  {
    EntityTeardown(ctx.entities, |ctx.entities|) +
    MaterialTeardown(ctx.materials, |ctx.materials|) +
    AssetTeardown(ctx.assets, |ctx.assets|)
  }

  // ---------------------------------------------------------------------
  // evaluateTest
  // ---------------------------------------------------------------------

  /** Every stage of the tree resolves its references in the context its parent stage made. */
  predicate TreeResolves(h: Host, stage: Stage, parent: Context)
    decreases stage, 1
  {
    StageResolves(h, stage, parent) && ChildrenResolve(h, stage, Created(h, stage, parent))
  }

  /** Each child of the stage, if it has the property, resolves as a tree below `ctx`. */
  predicate ChildrenResolve(h: Host, stage: Stage, ctx: Context)
    decreases stage, 0, if stage.children.HasChildren? then |stage.children.stages| + 1 else 0
  {
    stage.children.HasChildren? ==> ChildrenResolveUpTo(h, stage, ctx, |stage.children.stages|)
  }

  /** Each of the first `n` children resolves as a tree below `ctx`. */
  predicate ChildrenResolveUpTo(h: Host, stage: Stage, ctx: Context, n: nat)
    requires stage.children.HasChildren? && n <= |stage.children.stages|
    decreases stage, 0, n
  {
    n == 0 || (ChildrenResolveUpTo(h, stage, ctx, n - 1) && TreeResolves(h, stage.children.stages[n - 1], ctx))
  }

  /** The children before the `n`-th resolve when the first `n` do. */
  lemma {:induction false} ChildrenResolvePrefix(h: Host, stage: Stage, ctx: Context, i: nat, n: nat)
    requires stage.children.HasChildren? && i <= n <= |stage.children.stages| && ChildrenResolveUpTo(h, stage, ctx, n)
    ensures ChildrenResolveUpTo(h, stage, ctx, i)
    decreases n
  {
    if i < n {
      assert ChildrenResolveUpTo(h, stage, ctx, n - 1);
      ChildrenResolvePrefix(h, stage, ctx, i, n - 1);
    }
  }

  /** `evaluateStage(stage, parent)`: create, upload a leaf, evaluate the children, destroy. */
  function Trace(h: Host, stage: Stage, parent: Context): seq<Event>
    requires TreeResolves(h, stage, parent)
    decreases stage, 1, 0
  {
    var ctx := Created(h, stage, parent);
    Setup(h, stage, parent) + LeafUpload(h, stage, ctx) + Below(h, stage, ctx) + Teardown(ctx)
  }

  /** The screenshot upload of a stage without `children`, named by its context's pathname. */
  function LeafUpload(h: Host, stage: Stage, ctx: Context): seq<Event> {
    if stage.children.NoChildren? then [Upload(GetPathname(ctx), h.platform)] else []
  }

  /** The evaluation of a stage's children, when it has the property. */
  function Below(h: Host, stage: Stage, ctx: Context): seq<Event>
    requires ChildrenResolve(h, stage, ctx)
    decreases stage, 0, if stage.children.HasChildren? then |stage.children.stages| + 1 else 0
  {
    if stage.children.HasChildren? then TraceChildren(h, stage, ctx, |stage.children.stages|) else []
  }

  /** The first `n` children of `stage` evaluated in order below `ctx`. */
  function TraceChildren(h: Host, stage: Stage, ctx: Context, n: nat): seq<Event>
    requires stage.children.HasChildren? && n <= |stage.children.stages|
    requires ChildrenResolveUpTo(h, stage, ctx, n)
    decreases stage, 0, n
  {
    if n == 0 then []
    else TraceChildren(h, stage, ctx, n - 1) + Trace(h, stage.children.stages[n - 1], ctx)
  }

  /** The first `n` children's events are those of the first `n - 1` and then the `n`-th child's. */
  lemma TraceChildrenLast(h: Host, stage: Stage, ctx: Context, n: nat)
    requires stage.children.HasChildren? && 0 < n <= |stage.children.stages|
    requires ChildrenResolveUpTo(h, stage, ctx, n)
    ensures TraceChildren(h, stage, ctx, n) == TraceChildren(h, stage, ctx, n - 1) + Trace(h, stage.children.stages[n - 1], ctx)
  {
  }

  /** The runner: what the page gave it, and the log of what it has done. */
  class Runner {
    const host: Host
    var log: seq<Event>

    /** `new TestRunner()`: the platform is the browser `getBrowser` names. */
    constructor(userAgent: string, defaults: Dict<string, Value>, load: AssetDesc -> Value)
      ensures host == Host(defaults, load, GetBrowser(userAgent)) && log == []
    {
      host := Host(defaults, load, GetBrowser(userAgent));
      log := [];
    }

    /** `evaluateTest(test)`: the test evaluated below the root context `{}`. */
    method EvaluateTest(test: Stage)
      requires TreeResolves(host, test, Root)
      modifies this
      ensures log == old(log) + Trace(host, test, Root)
    {
      var events := EvaluateStage(host, test, Root);
      log := log + events;
    }
  }

  /** `createResources(stage, parent)`: the new context, and what making its resources did. */
  method CreateResources(h: Host, stage: Stage, parent: Context) returns (ctx: Context, events: seq<Event>)
    requires StageResolves(h, stage, parent)
    ensures ctx == Created(h, stage, parent)
    ensures events == Setup(h, stage, parent)
  {
    var assets, added := LoadAssets(h, stage.assets);
    var materials, warned := MakeMaterials(h, parent, stage, assets);
    var entities, children := MakeEntities(stage.entities, Scope(parent, stage, assets, materials));
    ctx := Ctx(parent, stage, assets, materials, entities);
    events := added + warned + children;
  }

  /** `destroyResources(ctx)`: tears down the entities, then the materials, then the assets, and returns the parent context. */
  method DestroyResources(ctx: Context) returns (parent: Context, events: seq<Event>)
    requires ctx.Ctx?
    ensures parent == ctx.parent
    ensures events == Teardown(ctx)
  {
    var removed := [];
    for i := 0 to |ctx.entities|
      invariant removed == EntityTeardown(ctx.entities, i)
    {
      removed := removed + [RemoveChild(ctx.entities[i]), DestroyEntity(ctx.entities[i])];
    }
    var destroyed := [];
    for i := 0 to |ctx.materials|
      invariant destroyed == MaterialTeardown(ctx.materials, i)
    {
      destroyed := destroyed + [DestroyMaterial(ctx.materials[i].1)];
    }
    var unloaded := [];
    for i := 0 to |ctx.assets|
      invariant unloaded == AssetTeardown(ctx.assets, i)
    {
      unloaded := unloaded + [RemoveAsset(ctx.assets[i].1), UnloadAsset(ctx.assets[i].1)];
    }
    parent := ctx.parent;
    events := removed + destroyed + unloaded;
  }

  /** `evaluateStage(stage, parent)`: create, upload a leaf or evaluate the children, destroy. */
  method EvaluateStage(h: Host, stage: Stage, parent: Context) returns (events: seq<Event>)
    requires TreeResolves(h, stage, parent)
    ensures events == Trace(h, stage, parent)
    decreases stage, 1
  {
    var ctx, setup := CreateResources(h, stage, parent);
    var upload, below := [], [];
    if stage.children.NoChildren? {
      upload := [Upload(GetPathname(ctx), h.platform)];
    } else {
      below := EvaluateChildren(h, stage, ctx);
    }
    var _, teardown := DestroyResources(ctx);
    events := setup + upload + below + teardown;
  }

  /** The `children` loop of `evaluateStage`: each child evaluated in order below `ctx`. */
  method EvaluateChildren(h: Host, stage: Stage, ctx: Context) returns (events: seq<Event>)
    requires stage.children.HasChildren? && ChildrenResolve(h, stage, ctx)
    ensures events == Below(h, stage, ctx)
    decreases stage, 0
  {
    var children := stage.children.stages;
    events := [];
    for i := 0 to |children|
      invariant ChildrenResolveUpTo(h, stage, ctx, i)
      invariant events == TraceChildren(h, stage, ctx, i)
    {
      ChildrenResolvePrefix(h, stage, ctx, i + 1, |children|);
      var child := EvaluateStage(h, children[i], ctx);
      TraceChildrenLast(h, stage, ctx, i + 1);
      events := events + child;
    }
  }

  /** `handleAsset` for each descriptor, then `resourceContext.assets[a.name] = a` for each loaded asset. */
  method LoadAssets(h: Host, descs: seq<AssetDesc>) returns (table: Dict<string, Value>, events: seq<Event>)
    ensures table == AssetTable(h, descs, |descs|)
    ensures events == AssetAdds(descs, |descs|)
  {
    var loaded: seq<Value> := [];
    events := [];
    for i := 0 to |descs|
      invariant events == AssetAdds(descs, i)
      invariant |loaded| == i && forall j :: 0 <= j < i ==> loaded[j] == LoadedAsset(h, descs[j])
    {
      events := events + [AddAsset(descs[i])];
      loaded := loaded + [LoadedAsset(h, descs[i])];
    }
    table := [];
    for i := 0 to |loaded|
      invariant table == AssetTable(h, descs, i)
    {
      table := Set(table, loaded[i].name, loaded[i]);
    }
  }

  /** `resourceContext.materials[m.name] = handleMaterial(m.options)` for each material, in order, with the warnings printed. */
  method MakeMaterials(h: Host, parent: Context, stage: Stage, assets: Dict<string, Value>)
    returns (materials: Dict<string, Value>, events: seq<Event>)
    requires MaterialsResolve(h, parent, stage, assets, |stage.materials|)
    ensures materials == MaterialTable(h, parent, stage, assets, |stage.materials|)
    ensures events == MaterialWarns(h, parent, stage, assets, |stage.materials|)
  {
    materials := [];
    events := [];
    for i := 0 to |stage.materials|
      invariant MaterialsResolve(h, parent, stage, assets, i)
      invariant materials == MaterialTable(h, parent, stage, assets, i)
      invariant events == MaterialWarns(h, parent, stage, assets, i)
    {
      MaterialsResolvePrefix(h, parent, stage, assets, i + 1, |stage.materials|);
      var m := stage.materials[i];
      var material, warnings := HandleMaterial(h.defaults, m.options, Scope(parent, stage, assets, materials));
      events := events + WarnEvents(warnings);
      materials := Set(materials, m.name, material);
    }
  }

  /** `handleEntity(e)` for each entity, in order, with the `addChild` each makes. */
  method MakeEntities(es: seq<EntityDesc>, ctx: Context) returns (entities: seq<Entity>, events: seq<Event>)
    requires EntitiesResolve(es, ctx)
    ensures entities == EntitiesOf(es, ctx, |es|)
    ensures events == Additions(es, ctx, |es|)
  {
    entities := [];
    events := [];
    for i := 0 to |es|
      invariant entities == EntitiesOf(es, ctx, i)
      invariant events == Additions(es, ctx, i)
    {
      var entity := HandleEntity(es[i], ctx);
      events := events + [AddChild(entity)];
      entities := entities + [entity];
    }
  }

  /** `handleEntity(e)`: instantiated from the referenced asset's resource, or a new entity with the substituted component. */
  method HandleEntity(e: EntityDesc, ctx: Context) returns (entity: Entity)
    requires EntityResolves(e, ctx)
    ensures entity == EntityOf(e, ctx)
  {
    var source: Source;
    if e.asset != "" {
      var asset := FindResource(e.asset[1..], Assets, ctx);
      source := FromAsset(ResourceOf(asset));
    } else {
      var name := if e.name != "" then e.name else "testEntity";
      AssignCopy(e.componentOptions);
      var options := SubstituteOptions(Assign([], e.componentOptions), ctx);
      source := Built(name, e.componentType, options);
    }
    entity := Entity(source, e.position, e.eulerAngles, e.scale);
  }

  /** If the first `n` materials resolve, so do the first `i` for any `i <= n`. */
  lemma {:induction false} MaterialsResolvePrefix(h: Host, parent: Context, stage: Stage, assets: Dict<string, Value>, i: nat, n: nat)
    requires i <= n <= |stage.materials| && MaterialsResolve(h, parent, stage, assets, n)
    ensures MaterialsResolve(h, parent, stage, assets, i)
    decreases n
  {
    if i < n {
      MaterialsResolvePrefix(h, parent, stage, assets, i, n - 1);
    }
  }
}
