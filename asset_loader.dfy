/**
 * The client's asset loader: `load(manifest, callback)` starts one engine
 * load per manifest entry of a known type, and a shared completion closure
 * counts the loads down and calls back once the count reaches zero.
 * Completions arrive later and in any order; here each one is a call of
 * `Batch.Complete`, and the callback's invocations are recorded, not run.
 */
module AssetLoading {
  import opened Wrappers
  import opened Dict
  import opened Strings
  import opened Descriptors

  /** A manifest entry `{type, url, contents}`. */
  datatype Entry = Entry(kind: string, url: string, contents: Value)

  /** A `pc.Asset` the loader creates: its name, type, `file.url` and `file.contents`. */
  datatype Asset = Asset(name: string, kind: string, url: string, contents: Value)

  /** What the loader asks of the engine's asset registry and of the assets it loaded. */
  datatype Call = Add(asset: Asset) | Load(asset: Asset) | Remove(asset: Asset) | Unload(asset: Asset)

  /** `bm_${n}.glb`, the url a glTF load is given. */
  function BmName(n: nat): string {
    "bm_" + NatToString(n) + ".glb"
  }

  /** Different counter values name different files. */
  lemma BmNameInjective(a: nat, b: nat)
    requires BmName(a) == BmName(b)
    ensures a == b
  {
    var s, t := BmName(a), BmName(b);
    assert NatToString(a) == s[3..|s| - 4];
    assert NatToString(b) == t[3..|t| - 4];
    NatToStringInjective(a, b);
  }

  /** The asset `_loadGltf(entry)` creates with the counter at `n`. */
  function GltfAsset(e: Entry, n: nat): Asset {
    Asset("gltf-file", "container", BmName(n), e.contents)
  }

  /** The asset `_loadTexture(entry)` creates. */
  function TextureAsset(e: Entry): Asset {
    Asset("skybox_equi", "texture", e.url, e.contents)
  }

  /** The number of `gltf` entries, each of which advances `numLoads`. */
  function GltfCount(m: Dict<string, Entry>): (c: nat)
    ensures c <= |m|
  {
    if m == [] then 0
    else GltfCount(m[..|m| - 1]) + if m[|m| - 1].1.kind == "gltf" then 1 else 0
  }

  /**
   * The loads `load(m)` starts with the counter at `n`: the key and the new
   * asset of each entry of type `gltf` or `texture`, in key order.  An entry
   * of any other type starts nothing.
   */
  function Started(m: Dict<string, Entry>, n: nat): (s: seq<(string, Asset)>)
    ensures |s| <= |m|
  {
    if m == [] then []
    else
      var front := m[..|m| - 1];
      var (key, e) := m[|m| - 1];
      Started(front, n) + StartOne(key, e, n + GltfCount(front))
  }

  /** The load the `switch` on `entry.type` starts for one key, with the counter at `c`. */
  function StartOne(key: string, e: Entry, c: nat): seq<(string, Asset)> {
    if e.kind == "gltf" then [(key, GltfAsset(e, c))]
    else if e.kind == "texture" then [(key, TextureAsset(e))]
    else []
  }

  /** Every entry has a type the loader knows. */
  predicate KnownTypes(m: Dict<string, Entry>) {
    forall i :: 0 <= i < |m| ==> m[i].1.kind == "gltf" || m[i].1.kind == "texture"
  }

  /** A load starts for every entry exactly when every entry's type is known. */
  lemma {:induction false} StartedAll(m: Dict<string, Entry>, n: nat)
    ensures |Started(m, n)| == |m| <==> KnownTypes(m)
  {
    if m != [] {
      var front := m[..|m| - 1];
      StartedAll(front, n);
      assert forall i :: 0 <= i < |front| ==> front[i] == m[i];
      if !KnownTypes(front) {
        var i :| 0 <= i < |front| && !(front[i].1.kind == "gltf" || front[i].1.kind == "texture");
        assert m[i] == front[i];
      }
    }
  }

  /** The glTF assets one `load` creates are named by the counter values it passes through. */
  lemma {:induction false} StartedGltfNames(m: Dict<string, Entry>, n: nat)
    ensures forall i :: 0 <= i < |Started(m, n)| && Started(m, n)[i].1.kind == "container" ==>
      exists c :: n <= c < n + GltfCount(m) && Started(m, n)[i].1.url == BmName(c)
  {
    if m != [] {
      var front := m[..|m| - 1];
      StartedGltfNames(front, n);
      var s, f := Started(m, n), Started(front, n);
      forall i | 0 <= i < |s| && s[i].1.kind == "container"
        ensures exists c :: n <= c < n + GltfCount(m) && s[i].1.url == BmName(c)
      {
        if i < |f| {
          assert s[i] == f[i];
          var c :| n <= c < n + GltfCount(front) && f[i].1.url == BmName(c);
        } else {
          assert s[i].1.url == BmName(n + GltfCount(front));
        }
      }
    }
  }

  /** The glTF assets one `load` creates all have different urls. */
  lemma {:induction false} StartedGltfDistinct(m: Dict<string, Entry>, n: nat)
    ensures forall i, j ::
      (0 <= i < j < |Started(m, n)| && Started(m, n)[i].1.kind == "container" && Started(m, n)[j].1.kind == "container") ==>
        Started(m, n)[i].1.url != Started(m, n)[j].1.url
  {
    if m != [] {
      var front := m[..|m| - 1];
      StartedGltfDistinct(front, n);
      StartedGltfNames(front, n);
      var s, f := Started(m, n), Started(front, n);
      forall i, j | 0 <= i < j < |s| && s[i].1.kind == "container" && s[j].1.kind == "container"
        ensures s[i].1.url != s[j].1.url
      {
        assert s[i] == f[i];
        if j < |f| {
          assert s[j] == f[j];
        } else {
          var c :| n <= c < n + GltfCount(front) && f[i].1.url == BmName(c);
          assert s[j].1.url == BmName(n + GltfCount(front));
          if s[i].1.url == s[j].1.url {
            BmNameInjective(c, n + GltfCount(front));
          }
        }
      }
    }
  }

  /** A later `load` names its glTF assets after every one an earlier `load` named. */
  lemma SuccessiveLoadsDistinct(m1: Dict<string, Entry>, m2: Dict<string, Entry>, n: nat, i: nat, j: nat)
    requires i < |Started(m1, n)| && Started(m1, n)[i].1.kind == "container"
    requires j < |Started(m2, n + GltfCount(m1))| && Started(m2, n + GltfCount(m1))[j].1.kind == "container"
    ensures Started(m1, n)[i].1.url != Started(m2, n + GltfCount(m1))[j].1.url
  {
    StartedGltfNames(m1, n);
    StartedGltfNames(m2, n + GltfCount(m1));
    var c1 :| n <= c1 < n + GltfCount(m1) && Started(m1, n)[i].1.url == BmName(c1);
    var c2 :| n + GltfCount(m1) <= c2 < n + GltfCount(m1) + GltfCount(m2) && Started(m2, n + GltfCount(m1))[j].1.url == BmName(c2);
    if BmName(c1) == BmName(c2) {
      BmNameInjective(c1, c2);
    }
  }

  /** `registry.add(asset)` then `registry.load(asset)` for each started load. */
  function StartCalls(s: seq<(string, Asset)>): seq<Call> {
    if s == [] then [] else StartCalls(s[..|s| - 1]) + [Add(s[|s| - 1].1), Load(s[|s| - 1].1)]
  }

  /** Each started asset is added to the registry and then loaded, in the order the loads started. */
  lemma {:induction false} StartCallsAt(s: seq<(string, Asset)>)
    ensures |StartCalls(s)| == 2 * |s|
    ensures forall i :: 0 <= i < |s| ==> StartCalls(s)[2 * i] == Add(s[i].1) && StartCalls(s)[2 * i + 1] == Load(s[i].1)
  {
    if s != [] {
      StartCallsAt(s[..|s| - 1]);
    }
  }

  lemma {:induction false} StartCallsAppend(a: seq<(string, Asset)>, b: seq<(string, Asset)>)
    ensures StartCalls(a + b) == StartCalls(a) + StartCalls(b)
  {
    if b != [] {
      var front := b[..|b| - 1];
      var x := b[|b| - 1];
      StartCallsAppend(a, front);
      assert (a + b)[..|a + b| - 1] == a + front && (a + b)[|a + b| - 1] == x;
      assert StartCalls(a + b) == StartCalls(a + front) + [Add(x.1), Load(x.1)];
      assert StartCalls(b) == StartCalls(front) + [Add(x.1), Load(x.1)];
      Assoc(StartCalls(a), StartCalls(front), [Add(x.1), Load(x.1)]);
    } else {
      assert a + b == a;
    }
  }

  /** Starting the loads `one` after those of `started` makes the calls of `started + one`. */
  lemma Extend(base: seq<Call>, started: seq<(string, Asset)>, one: seq<(string, Asset)>, before: seq<Call>, after: seq<Call>)
    requires before == base + StartCalls(started) && after == before + StartCalls(one)
    ensures after == base + StartCalls(started + one)
  {
    StartCallsAppend(started, one);
    Assoc(base, StartCalls(started), StartCalls(one));
  }

  /** `registry.remove(asset)` then `asset.unload()` for each asset. */
  function DestroyCalls(assets: seq<Asset>): seq<Call> {
    if assets == [] then [] else DestroyCalls(assets[..|assets| - 1]) + [Remove(assets[|assets| - 1]), Unload(assets[|assets| - 1])]
  }

  /** Each asset is removed from the registry and then unloaded, in order. */
  lemma {:induction false} DestroyCallsAt(assets: seq<Asset>)
    ensures |DestroyCalls(assets)| == 2 * |assets|
    ensures forall i :: 0 <= i < |assets| ==> DestroyCalls(assets)[2 * i] == Remove(assets[i]) && DestroyCalls(assets)[2 * i + 1] == Unload(assets[i])
  {
    if assets != [] {
      DestroyCallsAt(assets[..|assets| - 1]);
    }
  }

  // ---------------------------------------------------------------------
  // The completion closure of one `load` call
  // ---------------------------------------------------------------------

  /** `remaining`, `lastError` and `assets` of one `load` call, and the callback invocations so far. */
  datatype Pending = Pending(remaining: int, lastError: Value, assets: Dict<string, Value>, fired: seq<(Value, Dict<string, Value>)>)

  /** A `load` or `error` event of the asset started for `key`: the error, if any, and the loaded resource. */
  datatype Completion = Completion(key: string, asset: Asset, err: Value, resource: Value)

  /** Before any completion: `remaining` is the number of manifest keys, `lastError` is `null`, `assets` is `{}`. */
  function Begin(keys: nat): Pending {
    Pending(keys, Null, [], [])
  }

  /** What a completion files under its key: `null` if it failed, else the asset's resource. */
  function Delivered(c: Completion): Value {
    if Truthy(c.err) then Null else c.resource
  }

  /** `cb(key, err, asset)` on the closure's state. */
  function Step(p: Pending, c: Completion): Pending {
    var lastError := if Truthy(c.err) then c.err else p.lastError;
    var assets := Set(p.assets, c.key, Delivered(c));
    var remaining := p.remaining - 1;
    Pending(remaining, lastError, assets, if remaining == 0 then p.fired + [(lastError, assets)] else p.fired)
  }

  /** The closure's state after the completions `cs`, in the order they arrived. */
  function Run(p: Pending, cs: seq<Completion>): Pending {
    if cs == [] then p else Step(Run(p, cs[..|cs| - 1]), cs[|cs| - 1])
  }

  /** The last completion that reported an error. */
  function LastFailure(cs: seq<Completion>): (r: Option<nat>)
    ensures r.Some? ==> r.value < |cs| && Truthy(cs[r.value].err) && forall j :: r.value < j < |cs| ==> !Truthy(cs[j].err)
    ensures r.None? ==> forall j :: 0 <= j < |cs| ==> !Truthy(cs[j].err)
  {
    if cs == [] then None
    else if Truthy(cs[|cs| - 1].err) then Some(|cs| - 1)
    else LastFailure(cs[..|cs| - 1])
  }

  /** The last completion for `key`. */
  function LastFor(cs: seq<Completion>, key: string): (r: Option<nat>)
    ensures r.Some? ==> r.value < |cs| && cs[r.value].key == key && forall j :: r.value < j < |cs| ==> cs[j].key != key
    ensures r.None? ==> forall j :: 0 <= j < |cs| ==> cs[j].key != key
  {
    if cs == [] then None
    else if cs[|cs| - 1].key == key then Some(|cs| - 1)
    else LastFor(cs[..|cs| - 1], key)
  }

  /** Each completion counts `remaining` down by one. */
  lemma {:induction false} RunRemaining(p: Pending, cs: seq<Completion>)
    ensures Run(p, cs).remaining == p.remaining - |cs|
  {
    if cs != [] {
      RunRemaining(p, cs[..|cs| - 1]);
    }
  }

  /** `lastError` is the error of the last completion that failed, and what it was before if none did. */
  lemma {:induction false} RunError(p: Pending, cs: seq<Completion>)
    ensures Run(p, cs).lastError == match LastFailure(cs) case None => p.lastError case Some(i) => cs[i].err
  {
    if cs != [] {
      RunError(p, cs[..|cs| - 1]);
    }
  }

  /** `assets[key]` is what the last completion for `key` delivered, and what it was before if none came. */
  lemma {:induction false} RunAssets(p: Pending, cs: seq<Completion>, key: string)
    ensures Get(Run(p, cs).assets, key) == match LastFor(cs, key) case None => Get(p.assets, key) case Some(i) => Some(Delivered(cs[i]))
  {
    if cs != [] {
      var c := cs[|cs| - 1];
      SetGet(Run(p, cs[..|cs| - 1]).assets, c.key, Delivered(c), key);
      RunAssets(p, cs[..|cs| - 1], key);
    }
  }

  /**
   * The callback fires exactly once, on the `keys`-th completion, with the
   * state the first `keys` completions left; with no keys it never fires.
   */
  lemma {:induction false} FiresOnce(keys: nat, cs: seq<Completion>)
    ensures Run(Begin(keys), cs).fired ==
      if 0 < keys <= |cs| then [(Run(Begin(keys), cs[..keys]).lastError, Run(Begin(keys), cs[..keys]).assets)] else []
  {
    if cs != [] {
      var front := cs[..|cs| - 1];
      FiresOnce(keys, front);
      RunRemaining(Begin(keys), front);
      if keys < |cs| {
        assert front[..keys] == cs[..keys];
      } else if keys == |cs| {
        assert cs[..keys] == cs;
      }
    }
  }

  /** The loads and assets the completions `cs` report. */
  function Loads(cs: seq<Completion>): (s: seq<(string, Asset)>)
    ensures |s| == |cs| && forall i :: 0 <= i < |cs| ==> s[i] == (cs[i].key, cs[i].asset)
  {
    seq(|cs|, i requires 0 <= i < |cs| => (cs[i].key, cs[i].asset))
  }

  /**
   * When every load `load(m)` started has completed once, in any order, the
   * callback has fired once if every entry had a known type and `m` was not
   * empty, with the last error and the delivered assets; otherwise never.
   */
  lemma AllCompleted(m: Dict<string, Entry>, n: nat, cs: seq<Completion>)
    requires multiset(Loads(cs)) == multiset(Started(m, n))
    ensures Run(Begin(|m|), cs).fired ==
      if m != [] && KnownTypes(m) then [(Run(Begin(|m|), cs).lastError, Run(Begin(|m|), cs).assets)] else []
  {
    assert |Loads(cs)| == |Started(m, n)|;
    StartedAll(m, n);
    FiresOnce(|m|, cs);
    assert cs[..|cs|] == cs;
  }

  // ---------------------------------------------------------------------
  // The loader
  // ---------------------------------------------------------------------

  /** `AssetLoader`: the glTF counter, every asset a completion reported, and the calls made on the registry. */
  class AssetLoader {
    var numLoads: nat
    var loadedAssets: seq<Asset>
    var calls: seq<Call>

    /** `new AssetLoader(registry)`. */
    constructor()
      ensures numLoads == 0 && loadedAssets == [] && calls == []
    {
      numLoads := 0;
      loadedAssets := [];
      calls := [];
    }

    /**
     * `load(manifest, callback)`: starts a load for each entry of a known
     * type, and returns the completion closure and the loads it started.
     * `Object.keys` then `manifest[key]` visits the entries of a well-formed
     * object in order.
     */
    method LoadManifest(manifest: Dict<string, Entry>) returns (batch: Batch, started: seq<(string, Asset)>)
      modifies this
      ensures started == Started(manifest, old(numLoads))
      ensures numLoads == old(numLoads) + GltfCount(manifest)
      ensures calls == old(calls) + StartCalls(started)
      ensures loadedAssets == old(loadedAssets)
      ensures fresh(batch) && batch.loader == this && batch.State() == Begin(|manifest|)
    {
      ghost var n := numLoads;
      started := [];
      for i := 0 to |manifest|
        invariant loadedAssets == old(loadedAssets)
        invariant started == Started(manifest[..i], n)
        invariant numLoads == n + GltfCount(manifest[..i])
        invariant calls == old(calls) + StartCalls(started)
      {
        assert manifest[..i + 1][..i] == manifest[..i];
        var (key, entry) := manifest[i];
        ghost var before := calls;
        var one := StartEntry(key, entry);
        Extend(old(calls), started, one, before, calls);
        started := started + one;
      }
      assert manifest[..|manifest|] == manifest;
      batch := new Batch(this, |manifest|);
    }

    /** The `switch (entry.type)` for one key: a glTF or a texture load, or nothing for any other type. */
    method StartEntry(key: string, entry: Entry) returns (one: seq<(string, Asset)>)
      modifies this
      ensures one == StartOne(key, entry, old(numLoads))
      ensures numLoads == old(numLoads) + if entry.kind == "gltf" then 1 else 0
      ensures calls == old(calls) + StartCalls(one) && loadedAssets == old(loadedAssets)
    {
      one := [];
      if entry.kind == "gltf" {
        var asset := LoadGltf(entry);
        one := [(key, asset)];
      } else if entry.kind == "texture" {
        var asset := LoadTexture(entry);
        one := [(key, asset)];
      }
    }

    /** `_loadGltf(entry)`: a container asset named `bm_<numLoads>.glb`, added to the registry and loaded. */
    method LoadGltf(entry: Entry) returns (asset: Asset)
      modifies this
      ensures asset == GltfAsset(entry, old(numLoads)) && numLoads == old(numLoads) + 1
      ensures calls == old(calls) + [Add(asset), Load(asset)] && loadedAssets == old(loadedAssets)
    {
      asset := GltfAsset(entry, numLoads);
      numLoads := numLoads + 1;
      calls := calls + [Add(asset), Load(asset)];
    }

    /** `_loadTexture(entry)`: an equirectangular skybox texture from the entry's url, added to the registry and loaded. */
    method LoadTexture(entry: Entry) returns (asset: Asset)
      modifies this
      ensures asset == TextureAsset(entry) && numLoads == old(numLoads)
      ensures calls == old(calls) + [Add(asset), Load(asset)] && loadedAssets == old(loadedAssets)
    {
      asset := TextureAsset(entry);
      calls := calls + [Add(asset), Load(asset)];
    }

    /** `destroy()`: every asset a completion reported is removed from the registry and unloaded, in order. */
    method Destroy()
      modifies this
      ensures calls == old(calls) + DestroyCalls(loadedAssets)
      ensures loadedAssets == old(loadedAssets) && numLoads == old(numLoads)
    {
      for i := 0 to |loadedAssets|
        invariant loadedAssets == old(loadedAssets) && numLoads == old(numLoads)
        invariant calls == old(calls) + DestroyCalls(loadedAssets[..i])
      {
        assert loadedAssets[..i + 1][..i] == loadedAssets[..i];
        calls := calls + [Remove(loadedAssets[i]), Unload(loadedAssets[i])];
      }
      assert loadedAssets[..|loadedAssets|] == loadedAssets;
    }
  }

  /** The completion closure `cb` of one `load` call. */
  class Batch {
    const loader: AssetLoader
    var remaining: int
    var lastError: Value
    var assets: Dict<string, Value>
    var fired: seq<(Value, Dict<string, Value>)>

    function State(): Pending
      reads this
    {
      Pending(remaining, lastError, assets, fired)
    }

    constructor(loader: AssetLoader, keys: nat)
      ensures this.loader == loader && State() == Begin(keys)
    {
      this.loader := loader;
      remaining := keys;
      lastError := Null;
      assets := [];
      fired := [];
    }

    /** `cb(key, err, asset)`: files the outcome, records the asset, and calls back when the count reaches zero. */
    method Complete(c: Completion)
      modifies this, loader
      ensures State() == Step(old(State()), c)
      ensures loader.loadedAssets == old(loader.loadedAssets) + [c.asset]
      ensures loader.numLoads == old(loader.numLoads) && loader.calls == old(loader.calls)
    {
      if Truthy(c.err) {
        lastError := c.err;
      }
      assets := Set(assets, c.key, if Truthy(c.err) then Null else c.resource);
      loader.loadedAssets := loader.loadedAssets + [c.asset];
      remaining := remaining - 1;
      if remaining == 0 {
        fired := fired + [(lastError, assets)];
      }
    }
  }
}
