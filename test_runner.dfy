/**
 * The helpers of src/test-client/test-runner.js that decide what a test
 * stage turns into: the browser name the screenshots are filed under, the
 * chain of resource contexts a `$name` reference is looked up in, the
 * upload name of a stage, and the substitution of `$` references in
 * material and component options.
 */
module TestRunner {
  import opened Wrappers
  import opened Dict
  import opened Strings
  import opened Descriptors

  /** `getBrowser()` on the user-agent string: the first of Chrome, Safari and Firefox it mentions, in that order. */
  function GetBrowser(ua: string): (b: string)
    ensures b == "chrome" <==> exists i :: OccursAt(ua, "Chrome", i)
    ensures b == "safari" <==> (forall i :: !OccursAt(ua, "Chrome", i)) && exists i :: OccursAt(ua, "Safari", i)
    ensures b == "firefox" <==>
      (forall i :: !OccursAt(ua, "Chrome", i)) && (forall i :: !OccursAt(ua, "Safari", i)) && exists i :: OccursAt(ua, "Firefox", i)
    ensures b == "unknown" <==>
      (forall i :: !OccursAt(ua, "Chrome", i)) && (forall i :: !OccursAt(ua, "Safari", i)) && (forall i :: !OccursAt(ua, "Firefox", i))
  {
    ContainsIff(ua, "Chrome");
    ContainsIff(ua, "Safari");
    ContainsIff(ua, "Firefox");
    if IndexOf(ua, "Chrome") != -1 then "chrome"
    else if IndexOf(ua, "Safari") != -1 then "safari"
    else if IndexOf(ua, "Firefox") != -1 then "firefox"
    else "unknown"
  }

  /** `isString(v)`, read for its truthiness: `v` is truthy and a string. */
  predicate IsString(v: Value)
    ensures IsString(v) <==> v.Str? && v.s != ""
  {
    Truthy(v) && v.Str?
  }

  /** The engine object `handleEntity` creates: instantiated from an asset's resource, or built from a component. */
  datatype Source =
    | FromAsset(resource: Value)
    | Built(name: string, componentType: string, options: Dict<string, Value>)

  /** An entity added to the scene, with the transforms its descriptor gave it. */
  datatype Entity = Entity(source: Source, position: Option<seq<real>>, eulerAngles: Option<seq<real>>, scale: Option<seq<real>>)

  /** The two tables of a resource context a `$` reference can name. */
  datatype Kind = Assets | Materials

  /**
   * A resource context: `Root` is the `{}` `evaluateTest` starts from; every
   * stage gets a context holding its parent, its stage, the assets it loaded
   * and the materials it created, by name, and the entities it added.
   */
  datatype Context =
    | Root
    | Ctx(parent: Context, stage: Stage, assets: Dict<string, Value>, materials: Dict<string, Value>, entities: seq<Entity>)

  function Table(ctx: Context, kind: Kind): Dict<string, Value>
    requires ctx.Ctx?
  {
    match kind
    case Assets => ctx.assets
    case Materials => ctx.materials
  }

  /** `rc && rc.hasOwnProperty(type) && rc[type].hasOwnProperty(name) && rc[type][name]` is truthy. */
  predicate HoldsAt(ctx: Context, kind: Kind, name: string) {
    ctx.Ctx? && Get(Table(ctx, kind), name).Some? && Truthy(Get(Table(ctx, kind), name).value)
  }

  /** Some context on the chain from `ctx` to the root holds a truthy `name` of this kind. */
  predicate OnChain(ctx: Context, kind: Kind, name: string) {
    ctx.Ctx? && (HoldsAt(ctx, kind, name) || OnChain(ctx.parent, kind, name))
  }

  /** The context `d` steps up the parent chain (the root is its own parent here). */
  function Up(ctx: Context, d: nat): Context {
    if d == 0 || ctx.Root? then ctx else Up(ctx.parent, d - 1)
  }

  /**
   * `findResource(name, type, rc)`. Past the root the source dereferences
   * `undefined.parent` and throws, so callers must reference only names
   * that some context on the chain holds.
   */
  function FindResource(name: string, kind: Kind, ctx: Context): (r: Value)
    requires OnChain(ctx, kind, name)
    ensures Truthy(r)
  {
    if HoldsAt(ctx, kind, name) then Get(Table(ctx, kind), name).value
    else FindResource(name, kind, ctx.parent)
  }

  /** How many steps up the chain the first context holding `name` is. */
  function Nearest(ctx: Context, kind: Kind, name: string): nat
    requires OnChain(ctx, kind, name)
  {
    if HoldsAt(ctx, kind, name) then 0 else 1 + Nearest(ctx.parent, kind, name)
  }

  /**
   * `findResource` returns the entry of the nearest context that holds the
   * name.
   */
  lemma {:induction false} FindResourceNearest(ctx: Context, kind: Kind, name: string)
    requires OnChain(ctx, kind, name)
    ensures HoldsAt(Up(ctx, Nearest(ctx, kind, name)), kind, name)
    ensures FindResource(name, kind, ctx) == Get(Table(Up(ctx, Nearest(ctx, kind, name)), kind), name).value
  {
    if !HoldsAt(ctx, kind, name) {
      FindResourceNearest(ctx.parent, kind, name);
    }
  }

  /** Inner contexts shadow outer ones: no context nearer than the one `findResource` reads holds the name. */
  lemma {:induction false} NearestFirst(ctx: Context, kind: Kind, name: string, d: nat)
    requires OnChain(ctx, kind, name) && d < Nearest(ctx, kind, name)
    ensures !HoldsAt(Up(ctx, d), kind, name)
  {
    if d > 0 {
      NearestFirst(ctx.parent, kind, name, d - 1);
    }
  }

  /** A context up the chain that holds the name puts it on the chain. */
  lemma {:induction false} HoldsUp(ctx: Context, kind: Kind, name: string, d: nat)
    requires HoldsAt(Up(ctx, d), kind, name)
    ensures OnChain(ctx, kind, name)
  {
    if d > 0 && ctx.Ctx? && !HoldsAt(ctx, kind, name) {
      HoldsUp(ctx.parent, kind, name, d - 1);
    }
  }

  /** A name is on the chain exactly when some context up the chain holds it. */
  lemma OnChainIff(ctx: Context, kind: Kind, name: string)
    ensures OnChain(ctx, kind, name) <==> exists d: nat :: HoldsAt(Up(ctx, d), kind, name)
  {
    if OnChain(ctx, kind, name) {
      FindResourceNearest(ctx, kind, name);
    } else {
      forall d: nat ensures !HoldsAt(Up(ctx, d), kind, name) {
        if HoldsAt(Up(ctx, d), kind, name) {
          HoldsUp(ctx, kind, name, d);
        }
      }
    }
  }

  /** The stage names from the outermost context in. */
  function Names(ctx: Context): (ns: seq<string>)
    ensures ctx.Ctx? <==> ns != []
  {
    match ctx
    case Root => []
    case Ctx(parent, stage, _, _, _) => Names(parent) + [stage.name]
  }

  /**
   * `getPathname(rc)`: every context made by `createResources` has a parent
   * (the root `{}` is an object, so truthy), which contributes its own
   * pathname and a `/`; the root contributes nothing.
   */
  function GetPathname(ctx: Context): string {
    match ctx
    case Root => ""
    case Ctx(parent, stage, _, _, _) => GetPathname(parent) + "/" + stage.name
  }

  /** The pathname is `/` followed by the stage names from the outermost in, joined by `/`. */
  lemma {:induction false} PathnameJoinsNames(ctx: Context)
    ensures GetPathname(ctx) == if ctx.Root? then "" else "/" + Join(Names(ctx), "/")
  {
    if ctx.Ctx? {
      PathnameJoinsNames(ctx.parent);
      if ctx.parent.Ctx? {
        JoinSnoc(Names(ctx.parent), ctx.stage.name, "/");
      }
    }
  }

  /** A stage evaluated from the root `{}` uploads under `/` and its name. */
  lemma TopPathname(stage: Stage, assets: Dict<string, Value>, materials: Dict<string, Value>, entities: seq<Entity>)
    ensures GetPathname(Ctx(Root, stage, assets, materials, entities)) == "/" + stage.name
  {
  }

  /** The name a string option refers to: `v.slice(1)` when `v` is a string that starts with `$`. */
  function Reference(v: Value): (r: Option<string>)
    ensures r.Some? <==> v.Str? && |v.s| > 0 && v.s[0] == '$'
    ensures r.Some? ==> v.s == "$" + r.value
  {
    if IsString(v) && v.s[0] == '$' then Some(v.s[1..]) else None
  }

  /** Every reference among the values of `options` names something of `kind` on the chain from `ctx`. */
  predicate RefsResolve(options: Dict<string, Value>, kind: Kind, ctx: Context) {
    forall i :: 0 <= i < |options| && Reference(options[i].1).Some? ==> OnChain(ctx, kind, Reference(options[i].1).value)
  }

  /** `asset.resource` of a loaded asset. */
  function ResourceOf(asset: Value): Value {
    match asset
    case AssetObj(_, _, _, resource) => resource
    case _ => Undefined
  }

  /**
   * Every reference among the options of a material whose key the fresh
   * material (properties `defaults`) has names an asset on the chain from
   * `ctx`. `handleMaterial` looks up only those: an unknown key is warned
   * about and its value never read.
   */
  predicate KnownRefsResolve(defaults: Dict<string, Value>, options: Dict<string, Value>, ctx: Context) {
    forall i :: 0 <= i < |options| && Known(defaults, options[i].0) && Reference(options[i].1).Some? ==>
      OnChain(ctx, Assets, Reference(options[i].1).value)
  }

  /** The value `handleMaterial` stores for a raw option: a referenced asset's resource when that is truthy, else the raw value. */
  function MaterialValue(raw: Value, ctx: Context): (v: Value)
    requires Reference(raw).Some? ==> OnChain(ctx, Assets, Reference(raw).value)
    ensures Reference(raw).None? ==> v == raw
    ensures Reference(raw).Some? ==>
      var res := ResourceOf(FindResource(Reference(raw).value, Assets, ctx));
      v == if Truthy(res) then res else raw
  {
    match Reference(raw)
    case None => raw
    case Some(name) =>
      var res := ResourceOf(FindResource(name, Assets, ctx));
      if Truthy(res) then res else raw
  }

  /** The value `handleEntity` stores for a raw component option: a referenced material, else the raw value. */
  function ComponentValue(raw: Value, ctx: Context): (v: Value)
    requires Reference(raw).Some? ==> OnChain(ctx, Materials, Reference(raw).value)
    ensures Reference(raw).Some? ==> v == FindResource(Reference(raw).value, Materials, ctx)
    ensures Reference(raw).None? ==> v == raw
  {
    match Reference(raw)
    case None => raw
    case Some(name) => FindResource(name, Materials, ctx)
  }

  /** `result[key] !== undefined` on a fresh material: the material has the property. */
  predicate Known(props: Dict<string, Value>, key: string) {
    Get(props, key).Some? && Get(props, key).value != Undefined
  }

  /** The message `handleMaterial` warns with for a property the material does not have. */
  function InvalidProperty(key: string): string {
    "invalid material property '" + key + "'"
  }

  /** The properties of the material after the `for ... in` loop of `handleMaterial` over `options`, from the material's `defaults`. */
  function MaterialProps(defaults: Dict<string, Value>, options: Dict<string, Value>, ctx: Context): (r: Dict<string, Value>)
    requires KnownRefsResolve(defaults, options, ctx)
    ensures forall k :: Known(r, k) ==> Known(defaults, k)
  {
    if options == [] then defaults
    else
      var front := options[..|options| - 1];
      var (key, raw) := options[|options| - 1];
      assert KnownRefsResolve(defaults, front, ctx) by {
        forall i | 0 <= i < |front| ensures front[i] == options[i] { }
      }
      var props := MaterialProps(defaults, front, ctx);
      if Known(props, key) then
        var v := MaterialValue(raw, ctx);
        assert forall k :: Known(Set(props, key, v), k) ==> Known(defaults, k) by {
          forall k ensures Get(Set(props, key, v), k) == if k == key then Some(v) else Get(props, k) {
            SetGet(props, key, v, k);
          }
        }
        Set(props, key, v)
      else props
  }

  /** The warnings the same loop prints, in order. */
  function MaterialWarnings(defaults: Dict<string, Value>, options: Dict<string, Value>, ctx: Context): seq<string>
    requires KnownRefsResolve(defaults, options, ctx)
  {
    if options == [] then []
    else
      var front := options[..|options| - 1];
      var key := options[|options| - 1].0;
      assert KnownRefsResolve(defaults, front, ctx) by {
        forall i | 0 <= i < |front| ensures front[i] == options[i] { }
      }
      MaterialWarnings(defaults, front, ctx) + if Known(MaterialProps(defaults, front, ctx), key) then [] else [InvalidProperty(key)]
  }

  /**
   * After `handleMaterial`, a property the material has and `options` sets
   * holds the substituted option; every other property keeps its default.
   */
  lemma {:induction false} MaterialPropsGet(defaults: Dict<string, Value>, options: Dict<string, Value>, ctx: Context, k: string)
    requires Valid(options) && KnownRefsResolve(defaults, options, ctx)
    ensures Get(MaterialProps(defaults, options, ctx), k) ==
      if k in Keys(options) && Known(defaults, k) then
        var i := KeyIndex(options, k);
        Some(MaterialValue(options[i].1, ctx))
      else Get(defaults, k)
    decreases |options|, 1
  {
    if options != [] {
      if k == options[|options| - 1].0 {
        MaterialPropsLastGet(defaults, options, ctx);
      } else {
        MaterialPropsOtherGet(defaults, options, ctx, k);
      }
    }
  }

  /** The last option is substituted when the material has that property. */
  lemma {:induction false} MaterialPropsLastGet(defaults: Dict<string, Value>, options: Dict<string, Value>, ctx: Context)
    requires options != [] && Valid(options) && KnownRefsResolve(defaults, options, ctx)
    ensures var (key, raw) := options[|options| - 1];
      Get(MaterialProps(defaults, options, ctx), key) ==
        if Known(defaults, key) then Some(MaterialValue(raw, ctx)) else Get(defaults, key)
    decreases |options|, 0
  {
    var front := options[..|options| - 1];
    var (key, raw) := options[|options| - 1];
    assert KnownRefsResolve(defaults, front, ctx) by {
      forall i | 0 <= i < |front| ensures front[i] == options[i] { }
    }
    ValidFront(options);
    if Known(defaults, key) {
      SetGet(MaterialProps(defaults, front, ctx), key, MaterialValue(raw, ctx), key);
    }
    MaterialPropsGet(defaults, front, ctx, key);
    KeysFront(options);
    KeyIndexLast(options);
  }

  /** A key other than the last option's is settled by the options before it. */
  lemma {:induction false} MaterialPropsOtherGet(defaults: Dict<string, Value>, options: Dict<string, Value>, ctx: Context, k: string)
    requires options != [] && Valid(options) && KnownRefsResolve(defaults, options, ctx) && k != options[|options| - 1].0
    ensures Get(MaterialProps(defaults, options, ctx), k) ==
      if k in Keys(options) && Known(defaults, k) then
        var i := KeyIndex(options, k);
        Some(MaterialValue(options[i].1, ctx))
      else Get(defaults, k)
    decreases |options|, 0
  {
    var front := options[..|options| - 1];
    var (key, raw) := options[|options| - 1];
    assert KnownRefsResolve(defaults, front, ctx) by {
      forall i | 0 <= i < |front| ensures front[i] == options[i] { }
    }
    ValidFront(options);
    KeysFront(options);
    if Known(MaterialProps(defaults, front, ctx), key) {
      SetGet(MaterialProps(defaults, front, ctx), key, MaterialValue(raw, ctx), k);
    }
    MaterialPropsGet(defaults, front, ctx, k);
    if k in Keys(front) {
      KeyIndexFront(options, k);
    }
  }

  /** The position of `k` among the entries of a well-formed object. */
  function KeyIndex(d: Dict<string, Value>, k: string): (i: nat)
    requires k in Keys(d)
    ensures i < |d| && d[i].0 == k
  {
    if d[0].0 == k then 0 else KeyIndex(d[1..], k) + 1
  }

  lemma KeysFront(d: Dict<string, Value>)
    requires d != []
    ensures Keys(d) == Keys(d[..|d| - 1]) + [d[|d| - 1].0]
  {
  }

  lemma ValidFront(d: Dict<string, Value>)
    requires d != [] && Valid(d)
    ensures Valid(d[..|d| - 1]) && d[|d| - 1].0 !in Keys(d[..|d| - 1])
  {
    KeysFront(d);
    var ks := Keys(d[..|d| - 1]);
    forall i | 0 <= i < |ks| ensures ks[i] != d[|d| - 1].0 {
      assert Keys(d)[i] != Keys(d)[|d| - 1];
    }
  }

  lemma {:induction false} KeyIndexUnique(d: Dict<string, Value>, k: string, j: nat)
    requires Valid(d) && j < |d| && d[j].0 == k
    ensures KeyIndex(d, k) == j
  {
    if d[0].0 != k {
      ValidTail(d);
      assert j > 0;
      KeyIndexUnique(d[1..], k, j - 1);
    }
  }

  lemma KeyIndexFront(d: Dict<string, Value>, k: string)
    requires d != [] && Valid(d) && k in Keys(d[..|d| - 1])
    ensures k in Keys(d) && KeyIndex(d, k) == KeyIndex(d[..|d| - 1], k)
  {
    var front := d[..|d| - 1];
    KeysFront(d);
    KeyIndexUnique(d, k, KeyIndex(front, k));
  }

  lemma KeyIndexLast(d: Dict<string, Value>)
    requires d != [] && Valid(d)
    ensures d[|d| - 1].0 in Keys(d) && KeyIndex(d, d[|d| - 1].0) == |d| - 1
  {
    KeysFront(d);
    KeyIndexUnique(d, d[|d| - 1].0, |d| - 1);
  }

  /** `handleMaterial` warns once for each key of `options` the material does not have, in key order. */
  lemma {:induction false} MaterialWarningsAre(defaults: Dict<string, Value>, options: Dict<string, Value>, ctx: Context)
    requires Valid(options) && KnownRefsResolve(defaults, options, ctx)
    ensures MaterialWarnings(defaults, options, ctx) == UnknownWarnings(defaults, Keys(options))
  {
    if options != [] {
      var front := options[..|options| - 1];
      var key := options[|options| - 1].0;
      assert KnownRefsResolve(defaults, front, ctx) by {
        forall i | 0 <= i < |front| ensures front[i] == options[i] { }
      }
      ValidFront(options);
      MaterialWarningsAre(defaults, front, ctx);
      MaterialPropsGet(defaults, front, ctx, key);
      KeysFront(options);
      assert Keys(options)[..|options| - 1] == Keys(front);
    }
  }

  /**
   * An option the material does not have is only warned about: whatever its
   * value (an unresolvable `$name` included), the properties stay the defaults.
   */
  lemma UnknownKeyWarnsOnly(defaults: Dict<string, Value>, key: string, raw: Value, ctx: Context)
    requires !Known(defaults, key)
    ensures KnownRefsResolve(defaults, [(key, raw)], ctx)
    ensures MaterialProps(defaults, [(key, raw)], ctx) == defaults
    ensures MaterialWarnings(defaults, [(key, raw)], ctx) == [InvalidProperty(key)]
  {
    assert [(key, raw)][..0] == [];
  }

  /** A warning per key of `keys` that `defaults` does not have, in order. */
  function UnknownWarnings(defaults: Dict<string, Value>, keys: seq<string>): seq<string> {
    if keys == [] then []
    else UnknownWarnings(defaults, keys[..|keys| - 1]) + if Known(defaults, keys[|keys| - 1]) then [] else [InvalidProperty(keys[|keys| - 1])]
  }

  /**
   * `handleMaterial(options)` for a fresh material with properties
   * `defaults`: returns the material and the warnings it printed.
   */
  method HandleMaterial(defaults: Dict<string, Value>, options: Dict<string, Value>, ctx: Context)
    returns (material: Value, warnings: seq<string>)
    requires KnownRefsResolve(defaults, options, ctx)
    ensures material == MaterialObj(MaterialProps(defaults, options, ctx))
    ensures warnings == MaterialWarnings(defaults, options, ctx)
  {
    var props := defaults;
    warnings := [];
    for i := 0 to |options|
      invariant KnownRefsResolve(defaults, options[..i], ctx)
      invariant props == MaterialProps(defaults, options[..i], ctx)
      invariant warnings == MaterialWarnings(defaults, options[..i], ctx)
    {
      var (key, raw) := options[i];
      assert options[..i + 1][..i] == options[..i];
      assert KnownRefsResolve(defaults, options[..i + 1], ctx);
      if Get(props, key).None? || Get(props, key).value == Undefined {
        warnings := warnings + [InvalidProperty(key)];
      } else {
        var value := raw;
        if IsString(raw) && raw.s[0] == '$' {
          var resource := ResourceOf(FindResource(raw.s[1..], Assets, ctx));
          if Truthy(resource) {
            value := resource;
          }
        }
        props := Set(props, key, value);
      }
    }
    assert options[..|options|] == options;
    material := MaterialObj(props);
  }

  /** The component options with each value substituted, keys and order unchanged. */
  function Substituted(options: Dict<string, Value>, ctx: Context): (r: Dict<string, Value>)
    requires RefsResolve(options, Materials, ctx)
    ensures |r| == |options|
  {
    if options == [] then []
    else
      var front := options[..|options| - 1];
      var (key, raw) := options[|options| - 1];
      assert RefsResolve(front, Materials, ctx) by {
        forall i | 0 <= i < |front| ensures front[i] == options[i] { }
      }
      Substituted(front, ctx) + [(key, ComponentValue(raw, ctx))]
  }

  /** Entry `i` of the substituted options is entry `i` of the options with its value substituted. */
  lemma {:induction false} SubstitutedAt(options: Dict<string, Value>, ctx: Context, i: nat)
    requires RefsResolve(options, Materials, ctx) && i < |options|
    ensures Substituted(options, ctx)[i] == (options[i].0, ComponentValue(options[i].1, ctx))
  {
    var front := options[..|options| - 1];
    assert RefsResolve(front, Materials, ctx) by {
      forall j | 0 <= j < |front| ensures front[j] == options[j] { }
    }
    if i < |options| - 1 {
      SubstitutedAt(front, ctx, i);
    }
  }

  /** Half way through the component-option loop: the first `i` options substituted, the rest as copied. */
  function Partial(options: Dict<string, Value>, ctx: Context, i: nat): (r: Dict<string, Value>)
    requires RefsResolve(options, Materials, ctx) && i <= |options|
    ensures |r| == |options|
  {
    assert RefsResolve(options[..i], Materials, ctx) by {
      forall j | 0 <= j < i ensures options[..i][j] == options[j] { }
    }
    Substituted(options[..i], ctx) + options[i..]
  }

  /** The entries of a partial copy: substituted before `i`, as copied from `i` on. */
  lemma PartialAt(options: Dict<string, Value>, ctx: Context, i: nat, j: nat)
    requires RefsResolve(options, Materials, ctx) && i <= |options| && j < |options|
    ensures Partial(options, ctx, i)[j] ==
      if j < i then (options[j].0, ComponentValue(options[j].1, ctx)) else options[j]
  {
    assert RefsResolve(options[..i], Materials, ctx) by {
      forall k | 0 <= k < i ensures options[..i][k] == options[k] { }
    }
    if j < i {
      SubstitutedAt(options[..i], ctx, j);
    }
  }

  /** Before the loop the copy is the options; after it, their substitution. */
  lemma PartialEnds(options: Dict<string, Value>, ctx: Context)
    requires RefsResolve(options, Materials, ctx)
    ensures Partial(options, ctx, 0) == options
    ensures Partial(options, ctx, |options|) == Substituted(options, ctx)
  {
    assert options[..0] == [];
    assert options[..|options|] == options;
  }

  /** A partial copy has the keys of `options`, in order. */
  lemma PartialKeys(options: Dict<string, Value>, ctx: Context, i: nat)
    requires Valid(options) && RefsResolve(options, Materials, ctx) && i <= |options|
    ensures Keys(Partial(options, ctx, i)) == Keys(options)
  {
    var p := Partial(options, ctx, i);
    forall j | 0 <= j < |p| ensures p[j].0 == options[j].0 {
      PartialAt(options, ctx, i, j);
    }
  }

  /** A partial copy is a well-formed object. */
  lemma PartialValid(options: Dict<string, Value>, ctx: Context, i: nat)
    requires Valid(options) && RefsResolve(options, Materials, ctx) && i <= |options|
    ensures Valid(Partial(options, ctx, i))
  {
    PartialKeys(options, ctx, i);
  }

  /** Substituting entry `i` of a partial copy in place gives the next partial copy. */
  lemma PartialStep(options: Dict<string, Value>, ctx: Context, i: nat)
    requires Valid(options) && RefsResolve(options, Materials, ctx) && i < |options|
    ensures Partial(options, ctx, i)[i] == options[i]
    ensures Set(Partial(options, ctx, i), options[i].0, ComponentValue(options[i].1, ctx)) == Partial(options, ctx, i + 1)
  {
    var p := Partial(options, ctx, i);
    var q := Partial(options, ctx, i + 1);
    PartialValid(options, ctx, i);
    PartialAt(options, ctx, i, i);
    PartialAt(options, ctx, i + 1, i);
    forall j | 0 <= j < |p| && j != i ensures q[j] == p[j] {
      PartialAt(options, ctx, i, j);
      PartialAt(options, ctx, i + 1, j);
    }
    SetAtEach(p, q, i, ComponentValue(options[i].1, ctx));
  }

  /**
   * The component-option loop of `handleEntity` on the copy
   * `Object.assign({}, entityDesc.componentOptions)`: each value is
   * replaced in place by its substitution.
   */
  method SubstituteOptions(options: Dict<string, Value>, ctx: Context) returns (r: Dict<string, Value>)
    requires Valid(options) && RefsResolve(options, Materials, ctx)
    ensures r == Substituted(options, ctx)
  {
    AssignCopy(options);
    r := Assign([], options);
    PartialEnds(options, ctx);
    for i := 0 to |options|
      invariant r == Partial(options, ctx, i)
    {
      PartialStep(options, ctx, i);
      var (key, raw) := r[i];
      var value := raw;
      if IsString(raw) && raw.s[0] == '$' {
        value := FindResource(raw.s[1..], Materials, ctx);
      }
      r := Set(r, key, value);
    }
  }

  /**
   * After the loop a key holds its option substituted: a `$` reference is
   * replaced by the material it names, anything else keeps its value; the
   * keys are the options' keys, in order.
   */
  lemma SubstitutedGet(options: Dict<string, Value>, ctx: Context, i: nat)
    requires Valid(options) && RefsResolve(options, Materials, ctx) && i < |options|
    ensures Keys(Substituted(options, ctx)) == Keys(options)
    ensures Get(Substituted(options, ctx), options[i].0) == Some(ComponentValue(options[i].1, ctx))
  {
    var r := Substituted(options, ctx);
    forall j | 0 <= j < |r| ensures r[j] == (options[j].0, ComponentValue(options[j].1, ctx)) {
      SubstitutedAt(options, ctx, j);
    }
    assert Keys(r) == Keys(options);
    GetAt(r, i);
  }
}
