/**
 * A JavaScript plain object used as a dictionary: its own enumerable
 * properties in insertion order.  That is the order `Object.keys`,
 * `Object.entries` and `for ... in` report them in when no name is an
 * array index such as "0" or "10"; JavaScript lists those first, in
 * ascending numeric order, and this model does not.  Assigning to a
 * property that exists keeps its position; a new property goes last.
 */
module Dict {
  import opened Wrappers

  type Dict<K, V> = seq<(K, V)>

  predicate NoDuplicates<T(==)>(s: seq<T>) {
    forall i, j :: 0 <= i < j < |s| ==> s[i] != s[j]
  }

  /** `Object.keys(d)`. */
  function Keys<K, V>(d: Dict<K, V>): (ks: seq<K>)
    ensures |ks| == |d|
    ensures forall i :: 0 <= i < |d| ==> ks[i] == d[i].0
  {
    seq(|d|, i requires 0 <= i < |d| => d[i].0)
  }

  /** A well-formed object has each property once. */
  predicate Valid<K(==), V>(d: Dict<K, V>) {
    NoDuplicates(Keys(d))
  }

  /** `d[k]`, or `None` for `undefined` when `k` is not an own property (inherited names are not modelled). */
  function Get<K(==,!new), V>(d: Dict<K, V>, k: K): (r: Option<V>)
    ensures r.None? <==> k !in Keys(d)
    ensures r.Some? ==> (k, r.value) in d
  {
    if d == [] then None
    else if d[0].0 == k then Some(d[0].1)
    else Get(d[1..], k)
  }

  /** `d.hasOwnProperty(k)`. */
  predicate Has<K(==), V>(d: Dict<K, V>, k: K) {
    k in Keys(d)
  }

  lemma KeysTail<K, V>(d: Dict<K, V>)
    requires d != []
    ensures Keys(d) == [d[0].0] + Keys(d[1..])
  {
  }

  lemma ValidTail<K, V>(d: Dict<K, V>)
    requires d != [] && Valid(d)
    ensures Valid(d[1..]) && d[0].0 !in Keys(d[1..])
  {
    assert Keys(d[1..]) == Keys(d)[1..];
    forall i | 0 <= i < |d| - 1 ensures Keys(d[1..])[i] != d[0].0 {
      assert Keys(d)[i + 1] != Keys(d)[0];
    }
  }

  /** In a well-formed object each entry is what a lookup of its key finds. */
  lemma {:induction false} GetAt<K(!new), V>(d: Dict<K, V>, i: nat)
    requires Valid(d) && i < |d|
    ensures Get(d, d[i].0) == Some(d[i].1)
  {
    if i > 0 {
      ValidTail(d);
      GetAt(d[1..], i - 1);
    }
  }

  /** `d[k] = v`: overwrites in place, or appends a new property. */
  function Set<K(==,!new), V>(d: Dict<K, V>, k: K, v: V): (r: Dict<K, V>)
  {
    if d == [] then [(k, v)]
    else if d[0].0 == k then
      var r := [(k, v)] + d[1..];
      assert r[1..] == d[1..];
      r
    else
      var rest := Set(d[1..], k, v);
      var r := [d[0]] + rest;
      assert r[1..] == rest;
      r
  }

  /** After `d[k] = v`, `k` holds `v` and every other property keeps its value. */
  lemma {:induction false} SetGet<K(!new), V>(d: Dict<K, V>, k: K, v: V, k': K)
    ensures Get(Set(d, k, v), k') == if k' == k then Some(v) else Get(d, k')
  {
    if d != [] && d[0].0 != k {
      SetGet(d[1..], k, v, k');
    }
  }

  /** In a well-formed object, assigning to the property at position `i` replaces that entry alone. */
  lemma {:induction false} SetAt<K(!new), V>(d: Dict<K, V>, i: nat, v: V)
    requires Valid(d) && i < |d|
    ensures Set(d, d[i].0, v) == d[..i] + [(d[i].0, v)] + d[i + 1..]
  {
    var k := d[i].0;
    if i > 0 {
      ValidTail(d);
      assert Keys(d)[0] != Keys(d)[i];
      assert d[1..][i - 1] == d[i];
      SetAt(d[1..], i - 1, v);
      assert d[1..][..i - 1] == d[1..i];
      assert d[1..][i..] == d[i + 1..];
      Assoc([d[0]], d[1..i] + [(k, v)], d[i + 1..]);
      Assoc([d[0]], d[1..i], [(k, v)]);
      assert [d[0]] + d[1..i] == d[..i];
    } else {
      assert d[..0] == [];
    }
  }

  /** Assigning an existing property changes that one entry and no other. */
  lemma SetAtEach<K(!new), V>(d: Dict<K, V>, e: Dict<K, V>, i: nat, v: V)
    requires Valid(d) && i < |d| && |e| == |d|
    requires e[i] == (d[i].0, v) && forall j :: 0 <= j < |d| && j != i ==> e[j] == d[j]
    ensures Set(d, d[i].0, v) == e
  {
    SetAt(d, i, v);
    Replaced(d, e, i, (d[i].0, v));
  }

  /** A sequence that differs from `s` only at `i`, where it holds `x`. */
  lemma Replaced<T>(s: seq<T>, t: seq<T>, i: nat, x: T)
    requires i < |s| && |t| == |s| && t[i] == x
    requires forall j :: 0 <= j < |s| && j != i ==> t[j] == s[j]
    ensures s[..i] + [x] + s[i + 1..] == t
  {
    var r := s[..i] + [x] + s[i + 1..];
    forall j | 0 <= j < |s| ensures r[j] == t[j] {
      if j < i {
        assert r[j] == s[..i][j];
      } else if j > i {
        assert r[j] == s[i + 1..][j - i - 1];
      }
    }
  }

  /** A new property in front of a well-formed object keeps it well formed. */
  lemma ConsValid<K, V>(e: (K, V), d: Dict<K, V>)
    requires Valid(d) && e.0 !in Keys(d)
    ensures Valid([e] + d)
  {
    var c := [e] + d;
    KeysCons(e, d);
    forall i, j | 0 <= i < j < |c| ensures Keys(c)[i] != Keys(c)[j] {
      assert Keys(c)[j] == Keys(d)[j - 1];
      if i > 0 {
        assert Keys(c)[i] == Keys(d)[i - 1];
      }
    }
  }

  lemma KeysCons<K, V>(e: (K, V), d: Dict<K, V>)
    ensures Keys([e] + d) == [e.0] + Keys(d)
  {
    var l, r := Keys([e] + d), [e.0] + Keys(d);
    forall i | 0 <= i < |l| ensures l[i] == r[i] {
      if i > 0 {
        assert ([e] + d)[i] == d[i - 1];
      }
    }
  }

  /** Assigning keeps the position of an existing property and appends a new one. */
  lemma {:induction false} SetKeys<K(!new), V>(d: Dict<K, V>, k: K, v: V)
    ensures Keys(Set(d, k, v)) == if k in Keys(d) then Keys(d) else Keys(d) + [k]
  {
    if d == [] {
      assert Keys([(k, v)]) == [k];
    } else {
      KeysTail(d);
      if d[0].0 != k {
        var rest := Set(d[1..], k, v);
        SetKeys(d[1..], k, v);
        KeysCons(d[0], rest);
        assert Set(d, k, v) == [d[0]] + rest;
        assert k in Keys(d) <==> k in Keys(d[1..]);
        if k !in Keys(d[1..]) {
          Assoc([d[0].0], Keys(d[1..]), [k]);
        }
      } else {
        KeysCons((k, v), d[1..]);
        assert Set(d, k, v) == [(k, v)] + d[1..];
      }
    }
  }

  lemma SetValid<K(!new), V>(d: Dict<K, V>, k: K, v: V)
    requires Valid(d)
    ensures Valid(Set(d, k, v))
  {
    SetKeys(d, k, v);
  }

  /** `Object.assign(t, s)`: the own properties of `s` copied onto `t` in order. */
  function Assign<K(==,!new), V>(t: Dict<K, V>, s: Dict<K, V>): (r: Dict<K, V>)
    decreases |s|
  {
    if s == [] then t else Assign(Set(t, s[0].0, s[0].1), s[1..])
  }

  /**
   * After `Object.assign(t, s)` a property of `s` has the value `s` gives it;
   * every other property keeps the value it had in `t`.
   */
  lemma {:induction false} AssignGet<K(!new), V>(t: Dict<K, V>, s: Dict<K, V>, k: K)
    requires Valid(s)
    ensures Get(Assign(t, s), k) == if k in Keys(s) then Get(s, k) else Get(t, k)
    decreases |s|
  {
    if s != [] {
      KeysTail(s);
      ValidTail(s);
      SetGet(t, s[0].0, s[0].1, k);
      AssignGet(Set(t, s[0].0, s[0].1), s[1..], k);
    }
  }

  lemma KeysSnoc<K, V>(d: Dict<K, V>, e: (K, V))
    ensures Keys(d + [e]) == Keys(d) + [e.0]
  {
  }

  lemma Assoc<T>(a: seq<T>, b: seq<T>, c: seq<T>)
    ensures a + (b + c) == (a + b) + c
  {
  }

  /** Assigning a property the object does not have appends it. */
  lemma {:induction false} SetFresh<K(!new), V>(d: Dict<K, V>, k: K, v: V)
    requires k !in Keys(d)
    ensures Set(d, k, v) == d + [(k, v)]
  {
    if d != [] {
      KeysTail(d);
      SetFresh(d[1..], k, v);
      Assoc([d[0]], d[1..], [(k, v)]);
      assert [d[0]] + d[1..] == d;
    }
  }

  /** `Object.assign(t, s)` with none of the properties of `s` in `t` appends them in order. */
  lemma {:induction false} AssignDisjoint<K(!new), V>(t: Dict<K, V>, s: Dict<K, V>)
    requires Valid(s) && forall i :: 0 <= i < |s| ==> s[i].0 !in Keys(t)
    ensures Assign(t, s) == t + s
    decreases |s|
  {
    if s != [] {
      SetFresh(t, s[0].0, s[0].1);
      ValidTail(s);
      var t' := t + [s[0]];
      KeysSnoc(t, s[0]);
      forall i | 0 <= i < |s[1..]| ensures s[1..][i].0 !in Keys(t') {
        assert s[1..][i] == s[i + 1];
        assert Keys(s)[i + 1] != Keys(s)[0];
      }
      AssignDisjoint(t', s[1..]);
      Assoc(t, [s[0]], s[1..]);
      assert [s[0]] + s[1..] == s;
    }
  }

  /** `Object.assign({}, s)` copies a well-formed object entry for entry. */
  lemma AssignCopy<K(!new), V>(s: Dict<K, V>)
    requires Valid(s)
    ensures Assign([], s) == s
  {
    AssignDisjoint([], s);
  }

  /** `Object.assign` keeps a well-formed object well formed. */
  lemma {:induction false} AssignValid<K(!new), V>(t: Dict<K, V>, s: Dict<K, V>)
    requires Valid(t)
    ensures Valid(Assign(t, s))
    decreases |s|
  {
    if s != [] {
      SetValid(t, s[0].0, s[0].1);
      AssignValid(Set(t, s[0].0, s[0].1), s[1..]);
    }
  }
}
