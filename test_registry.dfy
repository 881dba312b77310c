/**
 * The test server's registry of tests (test-server/test-registry.js): a
 * plain object from key to test, filled by `register` and read by
 * `getIndex` and `getTest`.
 */
module TestRegistry {
  import opened Wrappers
  import opened Dict
  import opened Descriptors

  /** `test.id` used as a property name: a test without an id is stored under the text "undefined". */
  function IdKey(t: Stage): string {
    match t.id
    case Some(s) => s
    case None => "undefined"
  }

  /** The name of a test, the key the index page and the lookups by test need. */
  function NameKey(t: Stage): string {
    t.name
  }

  /** The registry after registering each of `ts` in turn under `key`. */
  function RegisterAll(d: Dict<string, Stage>, ts: seq<Stage>, key: Stage -> string): Dict<string, Stage> {
    if ts == [] then d
    else Set(RegisterAll(d, ts[..|ts| - 1], key), key(ts[|ts| - 1]), ts[|ts| - 1])
  }

  /** Registering one more test is one more `register` call. */
  lemma RegisterAllSnoc(d: Dict<string, Stage>, ts: seq<Stage>, t: Stage, key: Stage -> string)
    ensures RegisterAll(d, ts + [t], key) == Set(RegisterAll(d, ts, key), key(t), t)
  {
    assert (ts + [t])[..|ts|] == ts;
  }

  /** Registering `ts` and then `us` is registering `ts + us`. */
  lemma {:induction false} RegisterAllAppend(d: Dict<string, Stage>, ts: seq<Stage>, us: seq<Stage>, key: Stage -> string)
    ensures RegisterAll(d, ts + us, key) == RegisterAll(RegisterAll(d, ts, key), us, key)
  {
    if us == [] {
      assert ts + us == ts;
    } else {
      var front := us[..|us| - 1];
      RegisterAllAppend(d, ts, front, key);
      assert (ts + us)[..|ts + us| - 1] == ts + front;
    }
  }

  /** The last of `ts[..n]` that `key` files under `k`. */
  function LastKeyed(ts: seq<Stage>, key: Stage -> string, k: string, n: nat): (r: Option<nat>)
    requires n <= |ts|
    ensures r.Some? ==> r.value < n && key(ts[r.value]) == k
  {
    if n == 0 then None
    else if key(ts[n - 1]) == k then Some(n - 1)
    else LastKeyed(ts, key, k, n - 1)
  }

  /** `LastKeyed` finds a test exactly when one is filed under `k`, and no later test is. */
  lemma {:induction false} LastKeyedSpec(ts: seq<Stage>, key: Stage -> string, k: string, n: nat)
    requires n <= |ts|
    ensures LastKeyed(ts, key, k, n).None? <==> forall i :: 0 <= i < n ==> key(ts[i]) != k
    ensures LastKeyed(ts, key, k, n).Some? ==>
      forall j :: LastKeyed(ts, key, k, n).value < j < n ==> key(ts[j]) != k
  {
    if n > 0 {
      LastKeyedSpec(ts, key, k, n - 1);
    }
  }

  /**
   * Last write wins: after registering `ts`, a key holds the last test filed
   * under it, and a key no test is filed under keeps what it held before.
   */
  lemma {:induction false} RegisterAllGet(d: Dict<string, Stage>, ts: seq<Stage>, key: Stage -> string, k: string)
    ensures Get(RegisterAll(d, ts, key), k) ==
      match LastKeyed(ts, key, k, |ts|)
      case None => Get(d, k)
      case Some(i) => Some(ts[i])
  {
    if ts != [] {
      var front := ts[..|ts| - 1];
      RegisterAllGet(d, front, key, k);
      SetGet(RegisterAll(d, front, key), key(ts[|ts| - 1]), ts[|ts| - 1], k);
      LastKeyedPrefix(ts, key, k, |ts| - 1);
    }
  }

  /** `LastKeyed` over a prefix only looks at the prefix. */
  lemma {:induction false} LastKeyedPrefix(ts: seq<Stage>, key: Stage -> string, k: string, n: nat)
    requires n <= |ts|
    ensures LastKeyed(ts[..n], key, k, n) == LastKeyed(ts, key, k, n)
    decreases n
  {
    if n > 0 {
      LastKeyedPrefix(ts[..n], key, k, n - 1);
      LastKeyedPrefix(ts, key, k, n - 1);
      assert ts[..n][..n - 1] == ts[..n - 1];
    }
  }

  /** The key each of `ts` is filed under, in order. */
  function KeysOf(ts: seq<Stage>, key: Stage -> string): (ks: seq<string>)
    ensures |ks| == |ts| && forall i :: 0 <= i < |ts| ==> ks[i] == key(ts[i])
  {
    if ts == [] then [] else KeysOf(ts[..|ts| - 1], key) + [key(ts[|ts| - 1])]
  }

  /** Registering keeps the registry well formed, and its keys are the old ones and those of the new tests. */
  lemma {:induction false} RegisterAllKeys(d: Dict<string, Stage>, ts: seq<Stage>, key: Stage -> string)
    requires Valid(d)
    ensures Valid(RegisterAll(d, ts, key))
    ensures forall k :: k in Keys(RegisterAll(d, ts, key)) <==> k in Keys(d) || k in KeysOf(ts, key)
  {
    if ts != [] {
      var front := ts[..|ts| - 1];
      var t := ts[|ts| - 1];
      RegisterAllKeys(d, front, key);
      SetKeys(RegisterAll(d, front, key), key(t), t);
      SetValid(RegisterAll(d, front, key), key(t), t);
      assert KeysOf(ts, key) == KeysOf(front, key) + [key(t)];
    }
  }

  /**
   * As written, every test without an id lands on the one key "undefined":
   * the index lists that key alone and it holds the last test registered.
   */
  lemma RegisterAllWithoutIds(ts: seq<Stage>)
    requires ts != [] && forall i :: 0 <= i < |ts| ==> ts[i].id.None?
    ensures Keys(RegisterAll([], ts, IdKey)) == ["undefined"]
    ensures Get(RegisterAll([], ts, IdKey), "undefined") == Some(ts[|ts| - 1])
  {
    RegisterAllOneKey(ts, IdKey, "undefined");
  }

  /** Tests that all share one key leave the registry with that key alone, holding the last of them. */
  lemma {:induction false} RegisterAllOneKey(ts: seq<Stage>, key: Stage -> string, u: string)
    requires ts != [] && forall i :: 0 <= i < |ts| ==> key(ts[i]) == u
    ensures Keys(RegisterAll([], ts, key)) == [u]
    ensures Get(RegisterAll([], ts, key), u) == Some(ts[|ts| - 1])
  {
    var front := ts[..|ts| - 1];
    var t := ts[|ts| - 1];
    var d := RegisterAll([], front, key);
    assert RegisterAll([], ts, key) == Set(d, u, t);
    SetGet(d, u, t, u);
    if front == [] {
      assert Set(d, u, t) == [(u, t)];
    } else {
      assert forall i :: 0 <= i < |front| ==> front[i] == ts[i];
      RegisterAllOneKey(front, key, u);
      SetKeys(d, u, t);
    }
  }

  /** Keyed by name, tests with distinct names are listed in registration order. */
  lemma {:induction false} RegisterAllNamedKeys(ts: seq<Stage>)
    requires NoDuplicates(KeysOf(ts, NameKey))
    ensures Keys(RegisterAll([], ts, NameKey)) == KeysOf(ts, NameKey)
  {
    if ts != [] {
      var front := ts[..|ts| - 1];
      var t := ts[|ts| - 1];
      var names := KeysOf(ts, NameKey);
      assert KeysOf(front, NameKey) == names[..|ts| - 1];
      RegisterAllNamedKeys(front);
      SetKeys(RegisterAll([], front, NameKey), t.name, t);
      assert t.name !in KeysOf(front, NameKey) by {
        forall i | 0 <= i < |front| ensures KeysOf(front, NameKey)[i] != t.name {
          assert names[i] != names[|ts| - 1];
        }
      }
    }
  }

  /** Keyed by name, each of a set of tests with distinct names is fetched by its name. */
  lemma {:induction false} RegisterAllNamedGet(ts: seq<Stage>, i: nat)
    requires NoDuplicates(KeysOf(ts, NameKey)) && i < |ts|
    ensures Get(RegisterAll([], ts, NameKey), ts[i].name) == Some(ts[i])
  {
    var names := KeysOf(ts, NameKey);
    RegisterAllGet([], ts, NameKey, ts[i].name);
    LastKeyedSpec(ts, NameKey, ts[i].name, |ts|);
    var r := LastKeyed(ts, NameKey, ts[i].name, |ts|);
    assert r.Some? by {
      assert NameKey(ts[i]) == ts[i].name;
    }
    assert names[r.value] == names[i];
  }

  class Registry {
    var tests: Dict<string, Stage>

    predicate Valid()
      reads this
    {
      NoDuplicates(Keys(tests))
    }

    /** `new TestRegistry()`: no tests. */
    constructor()
      ensures tests == [] && Valid()
    {
      tests := [];
    }

    /** `register(test)` as written: files the test under `test.id`. */
    method Register(test: Stage)
      requires Valid()
      modifies this
      ensures Valid() && tests == Set(old(tests), IdKey(test), test)
    {
      SetValid(tests, IdKey(test), test);
      tests := Set(tests, IdKey(test), test);
    }

    /** `register(test)` filing the test under its name, as the index page and `getTest` need. */
    method RegisterNamed(test: Stage)
      requires Valid()
      modifies this
      ensures Valid() && tests == Set(old(tests), NameKey(test), test)
    {
      SetValid(tests, NameKey(test), test);
      tests := Set(tests, NameKey(test), test);
    }

    /** `getIndex()`: every registered key, each once, in the order the keys were first registered. */
    method GetIndex() returns (ids: seq<string>)
      requires Valid()
      ensures ids == Keys(tests)
      ensures NoDuplicates(ids)
      ensures forall k :: k in ids <==> Get(tests, k).Some?
    {
      ids := Keys(tests);
    }

    /** `getTest(id)`: the test filed under `id`, or `undefined` when there is none. */
    method GetTest(id: string) returns (t: Option<Stage>)
      ensures t.None? <==> id !in Keys(tests)
      ensures t.Some? ==> (id, t.value) in tests
    {
      t := Get(tests, id);
    }
  }
}
