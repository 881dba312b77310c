/**
 * `Helpers.add` of src/diff.js: a get-or-insert walk down a nested object
 * that creates the missing nodes on a path and never overwrites one.
 *
 * A nested object is kept flat: each node under its path from the root, in
 * the order the nodes were created, so the children of a node come out in
 * the order `Object.entries` gives them.
 */
module NestedTree {
  import opened Wrappers
  import opened Dict

  datatype Node<V> = Inner | Leaf(value: V)

  type Tree<V> = Dict<seq<string>, Node<V>>

  /** The node `Helpers.add` creates at the first `i + 1` names of the path: the last one holds `value`. */
  function Fresh<V>(path: seq<string>, value: V, i: nat): Node<V> {
    if i == |path| - 1 then Leaf(value) else Inner
  }

  /** The nodes on the path, from the first name to the whole path. */
  predicate OnPath(path: seq<string>, q: seq<string>) {
    1 <= |q| <= |path| && q == path[..|q|]
  }

  /** The node the walk wants at each depth of the path, shallowest first. */
  function Wanted<V>(path: seq<string>, value: V): (e: Tree<V>)
    ensures |e| == |path|
  {
    seq(|path|, i requires 0 <= i < |path| => (path[..i + 1], Fresh(path, value, i)))
  }

  /** Each entry of `e` in turn is inserted when its key is missing; present keys are never overwritten. */
  function Fill<K(==,!new), V>(t: Dict<K, V>, e: Dict<K, V>): Dict<K, V>
    decreases |e|
  {
    if e == [] then t
    else
      var l := Fill(t, e[..|e| - 1]);
      var k := e[|e| - 1].0;
      if Has(l, k) then l else Set(l, k, e[|e| - 1].1)
  }

  /** The tree after `Helpers.add(t, path, value)`. */
  function Added<V>(t: Tree<V>, path: seq<string>, value: V): Tree<V> {
    Fill(t, Wanted(path, value))
  }

  /** `Helpers.add`: walks `path`, creating what is missing, and returns the node at its end. */
  method Add<V>(t: Tree<V>, path: seq<string>, value: V) returns (r: Tree<V>, node: Node<V>)
    requires |path| >= 1
    ensures r == Added(t, path, value)
    ensures Get(r, path) == Some(node)
  {
    ghost var e := Wanted(path, value);
    r := t;
    for i := 0 to |path|
      invariant r == Fill(t, e[..i])
    {
      var p := path[..i + 1];
      assert e[..i + 1][..i] == e[..i];
      if !Has(r, p) {
        r := Set(r, p, if i == |path| - 1 then Leaf(value) else Inner);
      }
    }
    assert e[..|path|] == e;
    assert path[..|path|] == path;
    AddedGet(t, path, value, path);
    node := Get(r, path).value;
  }

  lemma KeysAppend<K, V>(d: Dict<K, V>, x: (K, V))
    ensures Keys(d + [x]) == Keys(d) + [x.0]
  {
  }

  /** Looking a key up in an object with one more property at its end. */
  lemma {:induction false} GetAppend<K(!new), V>(d: Dict<K, V>, x: (K, V), k: K)
    ensures Get(d + [x], k) == if Has(d, k) then Get(d, k) else if k == x.0 then Some(x.1) else None
  {
    if d != [] {
      assert (d + [x])[1..] == d[1..] + [x];
      KeysTail(d);
      GetAppend(d[1..], x, k);
    }
  }

  lemma ValidFront<K(!new), V>(e: Dict<K, V>)
    requires e != [] && Valid(e)
    ensures Valid(e[..|e| - 1]) && e[|e| - 1].0 !in Keys(e[..|e| - 1])
  {
    var f := e[..|e| - 1];
    assert e == f + [e[|e| - 1]];
    KeysAppend(f, e[|e| - 1]);
    assert Keys(f) == Keys(e)[..|e| - 1];
  }

  /**
   * Filling in a set of entries with distinct keys: a key that was present
   * keeps its value, a missing one gets the entry's value, and any other key
   * stays missing.
   */
  lemma {:induction false} FillGet<K(!new), V>(t: Dict<K, V>, e: Dict<K, V>, k: K)
    requires Valid(e)
    ensures Get(Fill(t, e), k) == if Has(t, k) then Get(t, k) else Get(e, k)
    decreases |e|
  {
    if e != [] {
      var f := e[..|e| - 1];
      var x := e[|e| - 1];
      assert e == f + [x];
      ValidFront(e);
      GetAppend(f, x, k);
      SetGet(Fill(t, f), x.0, x.1, k);
      FillGet(t, f, k);
      FillGet(t, f, x.0);
    }
  }

  lemma {:induction false} FillValid<K(!new), V>(t: Dict<K, V>, e: Dict<K, V>)
    requires Valid(t)
    ensures Valid(Fill(t, e))
    decreases |e|
  {
    if e != [] {
      var l := Fill(t, e[..|e| - 1]);
      FillValid(t, e[..|e| - 1]);
      if !Has(l, e[|e| - 1].0) {
        SetValid(l, e[|e| - 1].0, e[|e| - 1].1);
      }
    }
  }

  /** Filling in keys that are all present already changes nothing. */
  lemma {:induction false} FillPresent<K(!new), V>(t: Dict<K, V>, e: Dict<K, V>)
    requires forall k :: k in Keys(e) ==> Has(t, k)
    ensures Fill(t, e) == t
    decreases |e|
  {
    if e != [] {
      var f := e[..|e| - 1];
      assert e == f + [e[|e| - 1]];
      KeysAppend(f, e[|e| - 1]);
      FillPresent(t, f);
    }
  }

  /** The wanted nodes are exactly those on the path, one per depth. */
  lemma WantedGet<V>(path: seq<string>, value: V, q: seq<string>)
    ensures Get(Wanted(path, value), q) == if OnPath(path, q) then Some(Fresh(path, value, |q| - 1)) else None
  {
    var e := Wanted(path, value);
    var r := Get(e, q);
    if OnPath(path, q) {
      assert Keys(e)[|q| - 1] == q;
      var j :| 0 <= j < |e| && e[j] == (q, r.value);
      assert |path[..j + 1]| == j + 1;
    }
  }

  lemma WantedValid<V>(path: seq<string>, value: V)
    ensures Valid(Wanted(path, value))
  {
    var e := Wanted(path, value);
    forall i, j | 0 <= i < j < |e| ensures Keys(e)[i] != Keys(e)[j] {
      assert |Keys(e)[i]| == i + 1 && |Keys(e)[j]| == j + 1;
    }
  }

  /**
   * `Helpers.add` never overwrites: the nodes already present keep their
   * values, the missing nodes on the path are created (inner ones empty, the
   * last one holding `value`), and nothing else changes.
   */
  lemma AddedGet<V>(t: Tree<V>, path: seq<string>, value: V, q: seq<string>)
    ensures Get(Added(t, path, value), q)
         == if Has(t, q) || !OnPath(path, q) then Get(t, q)
            else Some(if |q| == |path| then Leaf(value) else Inner)
  {
    WantedValid(path, value);
    FillGet(t, Wanted(path, value), q);
    WantedGet(path, value, q);
  }

  /** The node at the end of the path: the one already there, or the new leaf. */
  lemma AddedAtPath<V>(t: Tree<V>, path: seq<string>, value: V)
    requires |path| >= 1
    ensures Get(Added(t, path, value), path) == if Has(t, path) then Get(t, path) else Some(Leaf(value))
  {
    assert path[..|path|] == path;
    AddedGet(t, path, value, path);
  }

  /** The first object on a path is on it. */
  lemma OnPathHead(path: seq<string>)
    requires |path| >= 1
    ensures OnPath(path, [path[0]])
  {
    assert path[..1] == [path[0]];
  }

  /** Every node on the path exists afterwards. */
  lemma AddedHasPath<V>(t: Tree<V>, path: seq<string>, value: V, q: seq<string>)
    requires OnPath(path, q)
    ensures Has(Added(t, path, value), q)
  {
    AddedGet(t, path, value, q);
  }

  /** `Helpers.add` keeps the object well formed. */
  lemma AddedValid<V>(t: Tree<V>, path: seq<string>, value: V)
    requires Valid(t)
    ensures Valid(Added(t, path, value))
  {
    FillValid(t, Wanted(path, value));
  }

  /** A second add along the same path changes nothing: the first value stays (first write wins). */
  lemma AddedTwice<V>(t: Tree<V>, path: seq<string>, v1: V, v2: V)
    ensures Added(Added(t, path, v1), path, v2) == Added(t, path, v1)
  {
    var t1 := Added(t, path, v1);
    var e := Wanted(path, v2);
    forall k | k in Keys(e) ensures Has(t1, k) {
      var j :| 0 <= j < |e| && Keys(e)[j] == k;
      assert |path[..j + 1]| == j + 1;
      AddedHasPath(t, path, v1, k);
    }
    FillPresent(t1, e);
  }

  /** `q` names a property of the object at `p`. */
  predicate IsChild(q: seq<string>, p: seq<string>) {
    |q| == |p| + 1 && q[..|p|] == p
  }

  /** `Object.entries` of the object at `p`: its properties, in insertion order. */
  function ChildEntries<V>(t: Tree<V>, p: seq<string>): Dict<string, Node<V>> {
    if t == [] then []
    else (if IsChild(t[0].0, p) then [(t[0].0[|p|], t[0].1)] else []) + ChildEntries(t[1..], p)
  }

  /** `Object.keys` of the object at `p`. */
  function Names<V>(t: Tree<V>, p: seq<string>): seq<string> {
    Keys(ChildEntries(t, p))
  }

  /** The object at `p` has property `x` with exactly the node stored under `p + [x]`. */
  lemma {:induction false} ChildEntriesGet<V>(t: Tree<V>, p: seq<string>, x: string)
    ensures Get(ChildEntries(t, p), x) == Get(t, p + [x])
  {
    if t != [] {
      ChildEntriesGet(t[1..], p, x);
      var q := t[0].0;
      var rest := ChildEntries(t[1..], p);
      if IsChild(q, p) {
        var head := (q[|p|], t[0].1);
        assert q == p + [q[|p|]];
        assert ([head] + rest)[1..] == rest;
        assert q == p + [x] <==> q[|p|] == x;
      } else {
        assert q != p + [x];
        assert [] + rest == rest;
      }
    }
  }

  /** `Object.keys` of the object at `p` lists exactly the names with a node below `p`. */
  lemma NamesMember<V>(t: Tree<V>, p: seq<string>, x: string)
    ensures x in Names(t, p) <==> Has(t, p + [x])
  {
    ChildEntriesGet(t, p, x);
  }

  /** The object at `p` has each property once. */
  lemma {:induction false} ChildEntriesValid<V>(t: Tree<V>, p: seq<string>)
    requires Valid(t)
    ensures Valid(ChildEntries(t, p))
  {
    if t != [] {
      ValidTail(t);
      ChildEntriesValid(t[1..], p);
      var q := t[0].0;
      var rest := ChildEntries(t[1..], p);
      if IsChild(q, p) {
        var x := q[|p|];
        assert q == p + [x];
        NamesMember(t[1..], p, x);
        ConsValid((x, t[0].1), rest);
      } else {
        assert [] + rest == rest;
      }
    }
  }

  /**
   * Every node lies at depth 1 to `d`, the nodes at depth `d` are the leaves,
   * and the object holding each node is itself a node (or the root).
   */
  ghost predicate Shaped<V>(t: Tree<V>, d: nat) {
    forall q {:trigger Has(t, q)} :: Has(t, q) ==>
      1 <= |q| <= d && (Get(t, q).value.Leaf? <==> |q| == d) && (|q| > 1 ==> Has(t, q[..|q| - 1]))
  }

  /** Adding along a path of the tree's own depth keeps its shape. */
  lemma AddedShaped<V>(t: Tree<V>, path: seq<string>, value: V)
    requires Shaped(t, |path|) && |path| >= 1
    ensures Shaped(Added(t, path, value), |path|)
  {
    var a := Added(t, path, value);
    forall q | Has(a, q)
      ensures 1 <= |q| <= |path| && (Get(a, q).value.Leaf? <==> |q| == |path|) && (|q| > 1 ==> Has(a, q[..|q| - 1]))
    {
      AddedGet(t, path, value, q);
      if Has(t, q) {
        if |q| > 1 {
          AddedGet(t, path, value, q[..|q| - 1]);
        }
      } else {
        assert OnPath(path, q);
        if |q| > 1 {
          assert q[..|q| - 1] == path[..|q| - 1];
          AddedHasPath(t, path, value, q[..|q| - 1]);
        }
      }
    }
  }

  /** In a shaped tree, the objects holding a node all exist, up to the root. */
  lemma {:induction false} ShapedPrefix<V>(t: Tree<V>, d: nat, q: seq<string>, i: nat)
    requires Shaped(t, d) && Has(t, q) && 1 <= i <= |q|
    ensures Has(t, q[..i])
    decreases |q| - i
  {
    if i < |q| {
      var parent := q[..|q| - 1];
      ShapedPrefix(t, d, parent, i);
      assert parent[..i] == q[..i];
    } else {
      assert q[..i] == q;
    }
  }

  /** Adding along a path that already holds a leaf changes nothing. */
  lemma AddedExisting<V>(t: Tree<V>, path: seq<string>, value: V)
    requires Shaped(t, |path|) && Has(t, path)
    ensures Added(t, path, value) == t
  {
    var e := Wanted(path, value);
    forall k | k in Keys(e) ensures Has(t, k) {
      var j :| 0 <= j < |e| && Keys(e)[j] == k;
      ShapedPrefix(t, |path|, path, j + 1);
    }
    FillPresent(t, e);
  }

  /** Replacing the value of an existing leaf keeps the tree's shape. */
  lemma SetLeafShaped<V>(t: Tree<V>, q: seq<string>, value: V)
    requires Shaped(t, |q|) && Has(t, q)
    ensures Shaped(Set(t, q, Leaf(value)), |q|)
  {
    var s := Set(t, q, Leaf(value));
    forall r | Has(s, r)
      ensures 1 <= |r| <= |q| && (Get(s, r).value.Leaf? <==> |r| == |q|) && (|r| > 1 ==> Has(s, r[..|r| - 1]))
    {
      SetKeys(t, q, Leaf(value));
      SetGet(t, q, Leaf(value), r);
      assert Has(t, r);
      if |r| > 1 {
        var parent := r[..|r| - 1];
        assert Has(t, parent);
        assert |parent| < |q|;
        SetGet(t, q, Leaf(value), parent);
      }
    }
  }
}
