/**
 * What evaluating a test amounts to, stated against the log of
 * `TestEvaluation.Trace`: one screenshot per leaf stage, named by the
 * path of stage names from the test down; every entity a stage adds is
 * removed again; a stage's assets are filed by name, the last of a name
 * winning; and an entity is built from the nearest asset or material its
 * descriptor names.
 */
module EvaluationProperties {
  import opened Wrappers
  import opened Dict
  import opened Descriptors
  import opened TestRunner
  import opened TestEvaluation

  // ---------------------------------------------------------------------
  // Projections of the log
  // ---------------------------------------------------------------------

  /** The items `pick` finds in `evs`, in order. */
  function Picked<T>(evs: seq<Event>, pick: Event -> Option<T>): seq<T> {
    if evs == [] then []
    else
      var last := evs[|evs| - 1];
      Picked(evs[..|evs| - 1], pick) + (if pick(last).Some? then [pick(last).value] else [])
  }

  /** The test name an `upload` sends. */
  function UploadOf(e: Event): Option<string> {
    if e.Upload? then Some(e.test) else None
  }

  /** The entity `app.root.addChild` adds. */
  function AddedOf(e: Event): Option<Entity> {
    if e.AddChild? then Some(e.entity) else None
  }

  /** The entity `remove` takes out of the scene. */
  function RemovedOf(e: Event): Option<Entity> {
    if e.RemoveChild? then Some(e.entity) else None
  }

  /** Projecting a concatenation projects each part. */
  lemma {:induction false} PickedAppend<T>(a: seq<Event>, b: seq<Event>, pick: Event -> Option<T>)
    ensures Picked(a + b, pick) == Picked(a, pick) + Picked(b, pick)
    decreases |b|
  {
    if b == [] {
      assert a + b == a;
    } else {
      var front := b[..|b| - 1];
      var last := b[|b| - 1];
      assert (a + b)[..|a + b| - 1] == a + front;
      PickedAppend(a, front, pick);
      var tail := if pick(last).Some? then [pick(last).value] else [];
      Assoc(Picked(a, pick), Picked(front, pick), tail);
    }
  }

  /** Projecting a concatenation whose parts' projections are known. */
  lemma PickedStep<T>(a: seq<Event>, b: seq<Event>, pa: seq<T>, pb: seq<T>, pick: Event -> Option<T>)
    requires Picked(a, pick) == pa && Picked(b, pick) == pb
    ensures Picked(a + b, pick) == pa + pb
  {
    PickedAppend(a, b, pick);
  }

  /** Projecting the four parts of a stage's log. */
  lemma PickedFour<T>(a: seq<Event>, b: seq<Event>, c: seq<Event>, d: seq<Event>, pick: Event -> Option<T>)
    ensures Picked(a + b + c + d, pick) == Picked(a, pick) + Picked(b, pick) + Picked(c, pick) + Picked(d, pick)
  {
    PickedAppend(a + b + c, d, pick);
    PickedAppend(a + b, c, pick);
    PickedAppend(a, b, pick);
  }

  /** Nothing is picked from events `pick` finds nothing in. */
  lemma {:induction false} PickedNone<T>(evs: seq<Event>, pick: Event -> Option<T>)
    requires forall i :: 0 <= i < |evs| ==> pick(evs[i]).None?
    ensures Picked(evs, pick) == []
  {
    if evs != [] {
      PickedNone(evs[..|evs| - 1], pick);
    }
  }

  // ---------------------------------------------------------------------
  // What `createResources` and `destroyResources` log
  // ---------------------------------------------------------------------

  /** An event `createResources` can log: adding an asset or an entity, or a warning. */
  predicate IsSetupEvent(e: Event) {
    e.AddAsset? || e.Warn? || e.AddChild?
  }

  /** An event `destroyResources` can log: removing or destroying an entity, a material or an asset. */
  predicate IsTeardownEvent(e: Event) {
    e.RemoveChild? || e.DestroyEntity? || e.DestroyMaterial? || e.RemoveAsset? || e.UnloadAsset?
  }

  /** The `i`-th event of `AssetAdds` adds the `i`-th asset. */
  lemma {:induction false} AssetAddsAt(descs: seq<AssetDesc>, n: nat, i: nat)
    requires n <= |descs| && i < n
    ensures AssetAdds(descs, n)[i] == AddAsset(descs[i])
  {
    if i < n - 1 {
      AssetAddsAt(descs, n - 1, i);
    }
  }

  /** Each warning event carries one of the messages, in order. */
  lemma {:induction false} WarnEventsAt(ws: seq<string>, i: nat)
    requires i < |ws|
    ensures WarnEvents(ws)[i] == Warn(ws[i])
  {
    if i < |ws| - 1 {
      WarnEventsAt(ws[..|ws| - 1], i);
    }
  }

  /** Making materials only warns. */
  lemma {:induction false} MaterialWarnsAreWarnings(h: Host, parent: Context, stage: Stage, assets: Dict<string, Value>, n: nat)
    requires n <= |stage.materials| && MaterialsResolve(h, parent, stage, assets, n)
    ensures forall i :: 0 <= i < |MaterialWarns(h, parent, stage, assets, n)| ==> MaterialWarns(h, parent, stage, assets, n)[i].Warn?
  {
    if n > 0 {
      MaterialsResolvePrefix(h, parent, stage, assets, n - 1, n);
      MaterialWarnsAreWarnings(h, parent, stage, assets, n - 1);
      var prev := MaterialTable(h, parent, stage, assets, n - 1);
      var ws := MaterialWarnings(h.defaults, stage.materials[n - 1].options, Scope(parent, stage, assets, prev));
      var front := MaterialWarns(h, parent, stage, assets, n - 1);
      forall i | 0 <= i < |WarnEvents(ws)| ensures WarnEvents(ws)[i].Warn? {
        WarnEventsAt(ws, i);
      }
    }
  }

  /** The `i`-th addition adds the `i`-th entity made. */
  lemma AdditionsAt(es: seq<EntityDesc>, ctx: Context, n: nat, i: nat)
    requires n <= |es| && EntitiesResolve(es, ctx) && i < n
    ensures Additions(es, ctx, n)[i] == AddChild(EntitiesOf(es, ctx, n)[i])
  {
    AdditionsMapped(es, ctx, n);
  }

  /** Addition `i` adds entity `i`, for every `i` below `n`. */
  lemma {:induction false} AdditionsMapped(es: seq<EntityDesc>, ctx: Context, n: nat)
    requires n <= |es| && EntitiesResolve(es, ctx)
    ensures Mapped(Additions(es, ctx, n), EntitiesOf(es, ctx, n))
  {
    if n > 0 {
      AdditionsMapped(es, ctx, n - 1);
      var x := EntityOf(es[n - 1], ctx);
      assert Additions(es, ctx, n) == Additions(es, ctx, n - 1) + [AddChild(x)];
      assert EntitiesOf(es, ctx, n) == EntitiesOf(es, ctx, n - 1) + [x];
      MappedSnoc(Additions(es, ctx, n - 1), EntitiesOf(es, ctx, n - 1), x);
    }
  }

  /** Each event of `adds` is the `addChild` of the entity at the same position. */
  predicate Mapped(adds: seq<Event>, ents: seq<Entity>) {
    |adds| == |ents| && forall j :: 0 <= j < |adds| ==> adds[j] == AddChild(ents[j])
  }

  lemma MappedSnoc(adds: seq<Event>, ents: seq<Entity>, x: Entity)
    requires Mapped(adds, ents)
    ensures Mapped(adds + [AddChild(x)], ents + [x])
  {
    var a := adds + [AddChild(x)];
    var b := ents + [x];
    forall j | 0 <= j < |a| ensures a[j] == AddChild(b[j]) {
      if j < |adds| {
        assert a[j] == adds[j] && b[j] == ents[j];
      }
    }
  }

  /** `createResources` adds assets, warns and adds entities, and does nothing else. */
  lemma SetupEvents(h: Host, stage: Stage, parent: Context)
    requires StageResolves(h, stage, parent)
    ensures forall i :: 0 <= i < |Setup(h, stage, parent)| ==> IsSetupEvent(Setup(h, stage, parent)[i])
  {
    var assets := StageAssets(h, stage);
    var added := AssetAdds(stage.assets, |stage.assets|);
    var warned := MaterialWarns(h, parent, stage, assets, |stage.materials|);
    var scope := StageScope(h, stage, parent);
    var children := Additions(stage.entities, scope, |stage.entities|);
    MaterialWarnsAreWarnings(h, parent, stage, assets, |stage.materials|);
    forall i | 0 <= i < |added| ensures added[i].AddAsset? {
      AssetAddsAt(stage.assets, |stage.assets|, i);
    }
    forall i | 0 <= i < |children| ensures children[i].AddChild? {
      AdditionsAt(stage.entities, scope, |stage.entities|, i);
    }
  }

  /** The events of `EntityTeardown`, pair by pair. */
  lemma {:induction false} EntityTeardownAt(es: seq<Entity>, n: nat, i: nat)
    requires n <= |es| && i < n
    ensures EntityTeardown(es, n)[2 * i] == RemoveChild(es[i])
    ensures EntityTeardown(es, n)[2 * i + 1] == DestroyEntity(es[i])
  {
    if i < n - 1 {
      EntityTeardownAt(es, n - 1, i);
    } else if n > 1 {
      EntityTeardownAt(es, n - 1, 0);
    }
  }

  /** The `i`-th event of `MaterialTeardown` destroys the `i`-th material. */
  lemma {:induction false} MaterialTeardownAt(ms: Dict<string, Value>, n: nat, i: nat)
    requires n <= |ms| && i < n
    ensures MaterialTeardown(ms, n)[i] == DestroyMaterial(ms[i].1)
  {
    if i < n - 1 {
      MaterialTeardownAt(ms, n - 1, i);
    }
  }

  /** The events of `AssetTeardown`, pair by pair. */
  lemma {:induction false} AssetTeardownAt(table: Dict<string, Value>, n: nat, i: nat)
    requires n <= |table| && i < n
    ensures AssetTeardown(table, n)[2 * i] == RemoveAsset(table[i].1)
    ensures AssetTeardown(table, n)[2 * i + 1] == UnloadAsset(table[i].1)
  {
    if i < n - 1 {
      AssetTeardownAt(table, n - 1, i);
    } else if n > 1 {
      AssetTeardownAt(table, n - 1, 0);
    }
  }

  /** `destroyResources` removes, destroys and unloads, and does nothing else. */
  lemma TeardownEvents(ctx: Context)
    requires ctx.Ctx?
    ensures forall i :: 0 <= i < |Teardown(ctx)| ==> IsTeardownEvent(Teardown(ctx)[i])
  {
    var removed := EntityTeardown(ctx.entities, |ctx.entities|);
    var destroyed := MaterialTeardown(ctx.materials, |ctx.materials|);
    var unloaded := AssetTeardown(ctx.assets, |ctx.assets|);
    forall i | 0 <= i < |removed| ensures IsTeardownEvent(removed[i]) {
      EntityTeardownAt(ctx.entities, |ctx.entities|, i / 2);
    }
    forall i | 0 <= i < |destroyed| ensures IsTeardownEvent(destroyed[i]) {
      MaterialTeardownAt(ctx.materials, |ctx.materials|, i);
    }
    forall i | 0 <= i < |unloaded| ensures IsTeardownEvent(unloaded[i]) {
      AssetTeardownAt(ctx.assets, |ctx.assets|, i / 2);
    }
  }

  // ---------------------------------------------------------------------
  // Screenshots: one per leaf, named by its path
  // ---------------------------------------------------------------------

  /** The pathnames of the leaf stages of the tree, depth first, below a context named `prefix`. */
  function LeafPaths(stage: Stage, prefix: string): seq<string>
    decreases stage, 1
  {
    var path := prefix + "/" + stage.name;
    match stage.children
    case NoChildren => [path]
    case HasChildren(stages) => ChildPaths(stage, path, |stages|)
  }

  /** The leaf pathnames of the first `n` children, below a context named `path`. */
  function ChildPaths(stage: Stage, path: string, n: nat): seq<string>
    requires stage.children.HasChildren? && n <= |stage.children.stages|
    decreases stage, 0, n
  {
    if n == 0 then [] else ChildPaths(stage, path, n - 1) + LeafPaths(stage.children.stages[n - 1], path)
  }

  /** No upload while creating or destroying resources. */
  lemma StageUploadsNothing(h: Host, stage: Stage, parent: Context)
    requires StageResolves(h, stage, parent)
    ensures Picked(Setup(h, stage, parent), UploadOf) == []
    ensures Picked(Teardown(Created(h, stage, parent)), UploadOf) == []
  {
    SetupEvents(h, stage, parent);
    TeardownEvents(Created(h, stage, parent));
    PickedNone(Setup(h, stage, parent), UploadOf);
    PickedNone(Teardown(Created(h, stage, parent)), UploadOf);
  }

  /**
   * Evaluating a stage uploads one screenshot per leaf stage below it, in
   * depth-first order, each named by the stage names from the top down.
   */
  lemma {:induction false} UploadsTrace(h: Host, stage: Stage, parent: Context)
    requires TreeResolves(h, stage, parent)
    ensures Picked(Trace(h, stage, parent), UploadOf) == LeafPaths(stage, GetPathname(parent))
    decreases stage, 1, 1
  {
    var ctx := Created(h, stage, parent);
    var path := GetPathname(parent) + "/" + stage.name;
    assert GetPathname(ctx) == path;
    UploadsStage(h, stage, parent);
    if stage.children.HasChildren? {
      var n := |stage.children.stages|;
      assert Below(h, stage, ctx) == TraceChildren(h, stage, ctx, n);
      UploadsChildren(h, stage, ctx, n);
      assert LeafPaths(stage, GetPathname(parent)) == ChildPaths(stage, path, n);
      assert Picked(Trace(h, stage, parent), UploadOf) == [] + ChildPaths(stage, path, n);
    } else {
      assert Below(h, stage, ctx) == [];
      assert Picked(Below(h, stage, ctx), UploadOf) == [];
      assert LeafPaths(stage, GetPathname(parent)) == [path];
    }
  }

  /** A stage uploads what its children upload, or its own pathname when it is a leaf. */
  lemma UploadsStage(h: Host, stage: Stage, parent: Context)
    requires TreeResolves(h, stage, parent)
    ensures var ctx := Created(h, stage, parent);
      Picked(Trace(h, stage, parent), UploadOf) == (if stage.children.NoChildren? then [GetPathname(ctx)] else []) + Picked(Below(h, stage, ctx), UploadOf)
  {
    var ctx := Created(h, stage, parent);
    assert Trace(h, stage, parent) == Setup(h, stage, parent) + LeafUpload(h, stage, ctx) + Below(h, stage, ctx) + Teardown(ctx);
    StageUploadsNothing(h, stage, parent);
    PickedFour(Setup(h, stage, parent), LeafUpload(h, stage, ctx), Below(h, stage, ctx), Teardown(ctx), UploadOf);
    LeafUploadPicked(h, stage, ctx);
    Middle([], Picked(LeafUpload(h, stage, ctx), UploadOf), Picked(Below(h, stage, ctx), UploadOf), [], Picked(LeafUpload(h, stage, ctx), UploadOf) + Picked(Below(h, stage, ctx), UploadOf));
  }

  /** A leaf uploads under its context's pathname; a stage with children uploads nothing itself. */
  lemma LeafUploadPicked(h: Host, stage: Stage, ctx: Context)
    ensures Picked(LeafUpload(h, stage, ctx), UploadOf) == if stage.children.NoChildren? then [GetPathname(ctx)] else []
  {
    assert LeafUpload(h, stage, ctx)[..0] == [];
  }

  /** The uploads of the first `n` children, in order. */
  lemma {:induction false} UploadsChildren(h: Host, stage: Stage, ctx: Context, n: nat)
    requires stage.children.HasChildren? && n <= |stage.children.stages| && ChildrenResolveUpTo(h, stage, ctx, n)
    ensures Picked(TraceChildren(h, stage, ctx, n), UploadOf) == ChildPaths(stage, GetPathname(ctx), n)
    decreases stage, 0, n, 1
  {
    if n > 0 {
      var path := GetPathname(ctx);
      assert ChildrenResolveUpTo(h, stage, ctx, n - 1);
      UploadsChildren(h, stage, ctx, n - 1);
      UploadsLastChild(h, stage, ctx, n);
      ChildPathsLast(stage, path, n);
      Rejoin(Picked(TraceChildren(h, stage, ctx, n), UploadOf), Picked(TraceChildren(h, stage, ctx, n - 1), UploadOf),
        LeafPaths(stage.children.stages[n - 1], path), ChildPaths(stage, path, n), ChildPaths(stage, path, n - 1));
    } else {
      assert TraceChildren(h, stage, ctx, 0) == [];
    }
  }

  /** The leaf paths of the first `n` children end with those of the `n`-th. */
  lemma ChildPathsLast(stage: Stage, path: string, n: nat)
    requires stage.children.HasChildren? && 0 < n <= |stage.children.stages|
    ensures ChildPaths(stage, path, n) == ChildPaths(stage, path, n - 1) + LeafPaths(stage.children.stages[n - 1], path)
  {
  }

  /** The `n`-th child adds its own uploads to those of the children before it. */
  lemma UploadsLastChild(h: Host, stage: Stage, ctx: Context, n: nat)
    requires stage.children.HasChildren? && 0 < n <= |stage.children.stages| && ChildrenResolveUpTo(h, stage, ctx, n)
    ensures Picked(TraceChildren(h, stage, ctx, n), UploadOf) ==
      Picked(TraceChildren(h, stage, ctx, n - 1), UploadOf) + LeafPaths(stage.children.stages[n - 1], GetPathname(ctx))
    decreases stage, 0, n, 0
  {
    var child := stage.children.stages[n - 1];
    UploadsTrace(h, child, ctx);
    PickedAppend(TraceChildren(h, stage, ctx, n - 1), Trace(h, child, ctx), UploadOf);
  }

  /** `evaluateTest` uploads the leaves of the test, each under `/` and the test's name. */
  lemma UploadsTest(h: Host, test: Stage)
    requires TreeResolves(h, test, Root)
    ensures Picked(Trace(h, test, Root), UploadOf) == LeafPaths(test, "")
    ensures forall i :: 0 <= i < |LeafPaths(test, "")| ==> IsPrefix("/" + test.name, LeafPaths(test, "")[i])
  {
    assert GetPathname(Root) == "";
    UploadsTrace(h, test, Root);
    LeafPathsUnder(test, "");
    assert "" + "/" + test.name == "/" + test.name;
  }

  /** `p` starts with `q`. */
  predicate IsPrefix(q: string, p: string) {
    |q| <= |p| && p[..|q|] == q
  }

  /** Each leaf path below `prefix` starts with `prefix`, a slash and the stage's name. */
  lemma {:induction false} LeafPathsUnder(stage: Stage, prefix: string)
    ensures forall i :: 0 <= i < |LeafPaths(stage, prefix)| ==> IsPrefix(prefix + "/" + stage.name, LeafPaths(stage, prefix)[i])
    decreases stage, 1
  {
    var path := prefix + "/" + stage.name;
    if stage.children.HasChildren? {
      ChildPathsUnder(stage, path, |stage.children.stages|);
    }
  }

  /** Each leaf path of the first `n` children starts with `path`. */
  lemma {:induction false} ChildPathsUnder(stage: Stage, path: string, n: nat)
    requires stage.children.HasChildren? && n <= |stage.children.stages|
    ensures forall i :: 0 <= i < |ChildPaths(stage, path, n)| ==> IsPrefix(path, ChildPaths(stage, path, n)[i])
    decreases stage, 0, n
  {
    if n > 0 {
      var child := stage.children.stages[n - 1];
      ChildPathsUnder(stage, path, n - 1);
      LeafPathsUnder(child, path);
      var front := ChildPaths(stage, path, n - 1);
      var rest := LeafPaths(child, path);
      forall i | 0 <= i < |front + rest| ensures IsPrefix(path, (front + rest)[i]) {
        if i >= |front| {
          var p := rest[i - |front|];
          assert IsPrefix(path + "/" + child.name, p);
          assert p[..|path|] == (path + "/" + child.name)[..|path|];
        }
      }
    }
  }

  // ---------------------------------------------------------------------
  // Entities: every one added is removed
  // ---------------------------------------------------------------------

  /** The entities `createResources` adds are those its context records, in order. */
  lemma SetupAdds(h: Host, stage: Stage, parent: Context)
    requires StageResolves(h, stage, parent)
    ensures Picked(Setup(h, stage, parent), AddedOf) == Created(h, stage, parent).entities
  {
    var assets := StageAssets(h, stage);
    var added := AssetAdds(stage.assets, |stage.assets|);
    var warned := MaterialWarns(h, parent, stage, assets, |stage.materials|);
    var scope := StageScope(h, stage, parent);
    var children := Additions(stage.entities, scope, |stage.entities|);
    forall i | 0 <= i < |added| ensures AddedOf(added[i]).None? {
      AssetAddsAt(stage.assets, |stage.assets|, i);
    }
    MaterialWarnsAreWarnings(h, parent, stage, assets, |stage.materials|);
    PickedNone(added, AddedOf);
    PickedNone(warned, AddedOf);
    AdditionsAdd(stage.entities, scope, |stage.entities|);
    PickedAppend(added + warned, children, AddedOf);
    PickedAppend(added, warned, AddedOf);
  }

  /** The additions pick out the entities made, in order. */
  lemma {:induction false} AdditionsAdd(es: seq<EntityDesc>, ctx: Context, n: nat)
    requires n <= |es| && EntitiesResolve(es, ctx)
    ensures Picked(Additions(es, ctx, n), AddedOf) == EntitiesOf(es, ctx, n)
  {
    if n > 0 {
      AdditionsAdd(es, ctx, n - 1);
      PickedAppend(Additions(es, ctx, n - 1), [AddChild(EntityOf(es[n - 1], ctx))], AddedOf);
      assert [AddChild(EntityOf(es[n - 1], ctx))][..0] == [];
    }
  }

  /** `destroyResources` removes exactly the entities of its context, in order. */
  lemma TeardownRemoves(ctx: Context)
    requires ctx.Ctx?
    ensures Picked(Teardown(ctx), RemovedOf) == ctx.entities
  {
    var removed := EntityTeardown(ctx.entities, |ctx.entities|);
    var destroyed := MaterialTeardown(ctx.materials, |ctx.materials|);
    var unloaded := AssetTeardown(ctx.assets, |ctx.assets|);
    EntityTeardownRemoves(ctx.entities, |ctx.entities|);
    assert ctx.entities[..|ctx.entities|] == ctx.entities;
    forall i | 0 <= i < |destroyed| ensures RemovedOf(destroyed[i]).None? {
      MaterialTeardownAt(ctx.materials, |ctx.materials|, i);
    }
    forall i | 0 <= i < |unloaded| ensures RemovedOf(unloaded[i]).None? {
      AssetTeardownAt(ctx.assets, |ctx.assets|, i / 2);
    }
    PickedNone(destroyed, RemovedOf);
    PickedNone(unloaded, RemovedOf);
    PickedAppend(removed + destroyed, unloaded, RemovedOf);
    PickedAppend(removed, destroyed, RemovedOf);
  }

  /** Tearing down the first `n` entities removes them in order. */
  lemma {:induction false} EntityTeardownRemoves(es: seq<Entity>, n: nat)
    requires n <= |es|
    ensures Picked(EntityTeardown(es, n), RemovedOf) == es[..n]
  {
    if n > 0 {
      EntityTeardownRemoves(es, n - 1);
      var removal := [RemoveChild(es[n - 1])];
      var destruction := [DestroyEntity(es[n - 1])];
      assert EntityTeardown(es, n) == EntityTeardown(es, n - 1) + (removal + destruction);
      PickedAppend(EntityTeardown(es, n - 1), removal + destruction, RemovedOf);
      PickedAppend(removal, destruction, RemovedOf);
      assert removal[..0] == [] && destruction[..0] == [];
      assert es[..n - 1] + [es[n - 1]] == es[..n];
    }
  }

  /** Evaluating a stage removes every entity it adds, and no other. */
  lemma {:induction false} EntitiesBalance(h: Host, stage: Stage, parent: Context)
    requires TreeResolves(h, stage, parent)
    ensures multiset(Picked(Trace(h, stage, parent), AddedOf)) == multiset(Picked(Trace(h, stage, parent), RemovedOf))
    decreases stage, 1
  {
    var ctx := Created(h, stage, parent);
    var setup := Setup(h, stage, parent);
    var leaf := LeafUpload(h, stage, ctx);
    var below := Below(h, stage, ctx);
    var teardown := Teardown(ctx);
    StageBalance(h, stage, parent);
    LeafAddsNothing(h, stage, ctx);
    PickedFour(setup, leaf, below, teardown, AddedOf);
    PickedFour(setup, leaf, below, teardown, RemovedOf);
    if stage.children.HasChildren? {
      ChildrenBalance(h, stage, ctx, |stage.children.stages|);
    }
    BalanceFour(ctx.entities, Picked(below, AddedOf), Picked(below, RemovedOf));
  }

  /** A stage's own setup adds the entities of its context and removes none; its teardown removes them and adds none. */
  lemma StageBalance(h: Host, stage: Stage, parent: Context)
    requires StageResolves(h, stage, parent)
    ensures Picked(Setup(h, stage, parent), AddedOf) == Created(h, stage, parent).entities
    ensures Picked(Setup(h, stage, parent), RemovedOf) == []
    ensures Picked(Teardown(Created(h, stage, parent)), AddedOf) == []
    ensures Picked(Teardown(Created(h, stage, parent)), RemovedOf) == Created(h, stage, parent).entities
  {
    SetupBalance(h, stage, parent);
    TeardownBalance(Created(h, stage, parent));
  }

  /** Creating a stage's resources adds the entities of its context and removes none. */
  lemma SetupBalance(h: Host, stage: Stage, parent: Context)
    requires StageResolves(h, stage, parent)
    ensures Picked(Setup(h, stage, parent), AddedOf) == Created(h, stage, parent).entities
    ensures Picked(Setup(h, stage, parent), RemovedOf) == []
  {
    var setup := Setup(h, stage, parent);
    SetupAdds(h, stage, parent);
    SetupEvents(h, stage, parent);
    forall i | 0 <= i < |setup| ensures RemovedOf(setup[i]).None? {
      assert IsSetupEvent(setup[i]);
    }
    PickedNone(setup, RemovedOf);
  }

  /** Destroying a context's resources removes its entities and adds none. */
  lemma TeardownBalance(ctx: Context)
    requires ctx.Ctx?
    ensures Picked(Teardown(ctx), AddedOf) == []
    ensures Picked(Teardown(ctx), RemovedOf) == ctx.entities
  {
    var teardown := Teardown(ctx);
    TeardownRemoves(ctx);
    TeardownEvents(ctx);
    forall i | 0 <= i < |teardown| ensures AddedOf(teardown[i]).None? {
      assert IsTeardownEvent(teardown[i]);
    }
    PickedNone(teardown, AddedOf);
  }

  /** The upload of a leaf adds and removes nothing. */
  lemma LeafAddsNothing(h: Host, stage: Stage, ctx: Context)
    ensures Picked(LeafUpload(h, stage, ctx), AddedOf) == []
    ensures Picked(LeafUpload(h, stage, ctx), RemovedOf) == []
  {
    assert LeafUpload(h, stage, ctx)[..0] == [];
  }

  /** The first `n` children together remove every entity they add. */
  lemma {:induction false} ChildrenBalance(h: Host, stage: Stage, ctx: Context, n: nat)
    requires stage.children.HasChildren? && n <= |stage.children.stages| && ChildrenResolveUpTo(h, stage, ctx, n)
    ensures multiset(Picked(TraceChildren(h, stage, ctx, n), AddedOf)) == multiset(Picked(TraceChildren(h, stage, ctx, n), RemovedOf))
    decreases stage, 0, n
  {
    if n > 0 {
      var child := stage.children.stages[n - 1];
      var front := TraceChildren(h, stage, ctx, n - 1);
      ChildrenBalance(h, stage, ctx, n - 1);
      EntitiesBalance(h, child, ctx);
      TraceChildrenLast(h, stage, ctx, n);
      PickedAppend(front, Trace(h, child, ctx), AddedOf);
      PickedAppend(front, Trace(h, child, ctx), RemovedOf);
      MultisetJoin(Picked(front, AddedOf), Picked(Trace(h, child, ctx), AddedOf),
                   Picked(front, RemovedOf), Picked(Trace(h, child, ctx), RemovedOf));
    }
  }

  // ---------------------------------------------------------------------
  // Assets and entities
  // ---------------------------------------------------------------------

  /** The last of the first `n` descriptors named `k`. */
  function LastNamed(descs: seq<AssetDesc>, k: string, n: nat): (r: Option<nat>)
    requires n <= |descs|
    ensures r.Some? ==> r.value < n && descs[r.value].name == k
  {
    if n == 0 then None
    else if descs[n - 1].name == k then Some(n - 1)
    else LastNamed(descs, k, n - 1)
  }

  /** Filing the loaded assets by name keeps each name a key once. */
  lemma {:induction false} AssetTableValid(h: Host, descs: seq<AssetDesc>, n: nat)
    requires n <= |descs|
    ensures Valid(AssetTable(h, descs, n))
  {
    if n > 0 {
      AssetTableValid(h, descs, n - 1);
      SetValid(AssetTable(h, descs, n - 1), descs[n - 1].name, LoadedAsset(h, descs[n - 1]));
      AssetTableLast(h, descs, n);
    }
  }

  /** The `n`-th loaded asset is filed over the first `n - 1`. */
  lemma AssetTableLast(h: Host, descs: seq<AssetDesc>, n: nat)
    requires 0 < n <= |descs|
    ensures AssetTable(h, descs, n) == Set(AssetTable(h, descs, n - 1), descs[n - 1].name, LoadedAsset(h, descs[n - 1]))
  {
  }

  /**
   * `resourceContext.assets[a.name] = a` in order: a name holds the last
   * asset loaded under it, and a name no asset has is absent.
   */
  lemma {:induction false} AssetTableGet(h: Host, descs: seq<AssetDesc>, n: nat, k: string)
    requires n <= |descs|
    ensures LastNamed(descs, k, n).None? ==> Get(AssetTable(h, descs, n), k) == None
    ensures LastNamed(descs, k, n).Some? ==> Get(AssetTable(h, descs, n), k) == Some(LoadedAsset(h, descs[LastNamed(descs, k, n).value]))
  {
    if LastNamed(descs, k, n).None? {
      AssetTableAbsent(h, descs, n, k);
    } else {
      AssetTableLatest(h, descs, n, k);
    }
  }

  /** A name none of the first `n` descriptors has is not in the table. */
  lemma AssetTableAbsent(h: Host, descs: seq<AssetDesc>, n: nat, k: string)
    requires n <= |descs| && LastNamed(descs, k, n).None?
    ensures Get(AssetTable(h, descs, n), k) == None
  {
    AssetTableKeys(h, descs, n, k);
  }

  /** Only the names of loaded descriptors are keys of the table. */
  lemma {:induction false} AssetTableKeys(h: Host, descs: seq<AssetDesc>, n: nat, k: string)
    requires n <= |descs| && LastNamed(descs, k, n).None?
    ensures k !in Keys(AssetTable(h, descs, n))
  {
    if n > 0 {
      assert descs[n - 1].name != k;
      AssetTableKeys(h, descs, n - 1, k);
      AssetTableLast(h, descs, n);
      SetOtherKeys(AssetTable(h, descs, n - 1), descs[n - 1].name, LoadedAsset(h, descs[n - 1]), k);
    }
  }

  /** Assigning one property leaves every other property that is absent absent. */
  lemma SetOtherKeys<V>(d: Dict<string, V>, name: string, v: V, k: string)
    requires k != name && k !in Keys(d)
    ensures k !in Keys(Set(d, name, v))
  {
    SetKeys(d, name, v);
  }

  /** A name one of the first `n` descriptors has holds the last asset loaded under it. */
  lemma {:induction false} AssetTableLatest(h: Host, descs: seq<AssetDesc>, n: nat, k: string)
    requires n <= |descs| && LastNamed(descs, k, n).Some?
    ensures Get(AssetTable(h, descs, n), k) == Some(LoadedAsset(h, descs[LastNamed(descs, k, n).value]))
  {
    AssetTableLast(h, descs, n);
    AssetFiledGet(AssetTable(h, descs, n - 1), descs[n - 1].name, LoadedAsset(h, descs[n - 1]), k);
    if descs[n - 1].name != k {
      AssetTableLatest(h, descs, n - 1, k);
    }
  }

  /** Filing `v` under `name` answers `k` with `v` when the names agree, and as before otherwise. */
  lemma AssetFiledGet(table: Dict<string, Value>, name: string, v: Value, k: string)
    ensures Get(Set(table, name, v), k) == if k == name then Some(v) else Get(table, k)
  {
  }

  /**
   * `handleEntity` of an `asset` reference instantiates the resource of
   * the asset the nearest context holding that name files under it.
   */
  lemma EntityOfAsset(e: EntityDesc, ctx: Context)
    requires EntityResolves(e, ctx) && e.asset != ""
    ensures var d := Nearest(ctx, Assets, e.asset[1..]);
      HoldsAt(Up(ctx, d), Assets, e.asset[1..]) &&
      EntityOf(e, ctx).source == FromAsset(ResourceOf(Get(Table(Up(ctx, d), Assets), e.asset[1..]).value))
  {
    FindResourceNearest(ctx, Assets, e.asset[1..]);
  }

  /**
   * `handleEntity` without an asset builds an entity named by the
   * descriptor, or "testEntity", whose component options are the
   * descriptor's with each material reference replaced.
   */
  lemma EntityOfBuilt(e: EntityDesc, ctx: Context, i: nat)
    requires EntityResolves(e, ctx) && e.asset == "" && i < |e.componentOptions|
    ensures EntityOf(e, ctx).source.Built?
    ensures EntityOf(e, ctx).source.name == if e.name != "" then e.name else "testEntity"
    ensures EntityOf(e, ctx).source.componentType == e.componentType
    ensures Keys(EntityOf(e, ctx).source.options) == Keys(e.componentOptions)
    ensures Get(EntityOf(e, ctx).source.options, e.componentOptions[i].0) ==
      Some(ComponentValue(e.componentOptions[i].1, ctx))
  {
    SubstitutedGet(e.componentOptions, ctx, i);
  }

  // ---------------------------------------------------------------------
  // Sequence plumbing: identities on concatenation and slices that model
  // nothing of the runner; the proofs above call them to keep each step
  // small enough for the solver.
  // ---------------------------------------------------------------------

  lemma Middle<T>(a: seq<T>, b: seq<T>, c: seq<T>, d: seq<T>, x: seq<T>)
    requires a == [] && d == [] && b + c == x
    ensures a + b + c + d == x
  {
  }

  /** `x` and `y` extend equal sequences by the same tail. */
  lemma Rejoin<T>(x: seq<T>, a: seq<T>, b: seq<T>, y: seq<T>, c: seq<T>)
    requires x == a + b && y == c + b && a == c
    ensures x == y
  {
  }

  /** Adding `e` first and removing it last balances, when what comes between does. */
  lemma BalanceFour<T>(e: seq<T>, a: seq<T>, r: seq<T>)
    requires multiset(a) == multiset(r)
    ensures multiset(e + [] + a + []) == multiset([] + [] + r + e)
  {
    assert e + [] + a + [] == e + a;
    assert [] + [] + r + e == r + e;
  }

  lemma MultisetJoin<T>(a1: seq<T>, a2: seq<T>, r1: seq<T>, r2: seq<T>)
    requires multiset(a1) == multiset(r1) && multiset(a2) == multiset(r2)
    ensures multiset(a1 + a2) == multiset(r1 + r2)
  {
  }
}
