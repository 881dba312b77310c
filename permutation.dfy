/**
 * The object permutation of src/test-client/permutation.js: a list of
 * axes, each a list of object fragments.  An index names one fragment per
 * axis by mixed-radix decomposition (axis 0 varies fastest), and the
 * selected fragments are merged with `Object.assign`, later axes winning.
 */
module Permutation {
  import opened Wrappers
  import opened Dict

  /** One of the objects an axis offers. */
  type Fragment<V> = Dict<string, V>

  /** The number of permutations: the product of the axis lengths. */
  function Total<V>(data: seq<seq<Fragment<V>>>): nat {
    if data == [] then 1 else |data[0]| * Total(data[1..])
  }

  /** Every axis offers at least one fragment. */
  predicate AllNonEmpty<V>(data: seq<seq<Fragment<V>>>) {
    forall i :: 0 <= i < |data| ==> |data[i]| > 0
  }

  /** The coordinates of `x`: digit `i` in the base of axis `i`, axis 0 least significant. */
  function Coords<V>(data: seq<seq<Fragment<V>>>, x: nat): (c: seq<nat>)
    requires AllNonEmpty(data)
    ensures |c| == |data|
  {
    if data == [] then [] else [x % |data[0]|] + Coords(data[1..], x / |data[0]|)
  }

  /** Coordinates that select a fragment on every axis. */
  predicate InRange<V>(data: seq<seq<Fragment<V>>>, c: seq<nat>) {
    |c| == |data| && forall i :: 0 <= i < |c| ==> c[i] < |data[i]|
  }

  /** The index a coordinate vector stands for: the sum of `c[i]` times the product of the axes before `i`. */
  function Value<V>(data: seq<seq<Fragment<V>>>, c: seq<nat>): nat
    requires |c| == |data|
  {
    if data == [] then 0 else c[0] + |data[0]| * Value(data[1..], c[1..])
  }

  /** The fragments selected by `c`, merged in axis order. */
  function Merged<V>(data: seq<seq<Fragment<V>>>, c: seq<nat>, n: nat): Fragment<V>
    requires InRange(data, c) && n <= |data|
  {
    if n == 0 then [] else Assign(Merged(data, c, n - 1), data[n - 1][c[n - 1]])
  }

  /**
   * What `resolve(idx)` returns.  When some axis is empty the total is 0,
   * `idx % 0` is `NaN`, every lookup is `undefined` and nothing is assigned.
   */
  function Resolved<V>(data: seq<seq<Fragment<V>>>, idx: nat): Fragment<V> {
    if Total(data) == 0 then []
    else
      TotalPositive(data);
      CoordsInRange(data, idx % Total(data));
      Merged(data, Coords(data, idx % Total(data)), |data|)
  }

  /** The size of each dimension as the constructor computes it: 1, then the running product. */
  predicate DimSizesOk<V>(data: seq<seq<Fragment<V>>>, ds: seq<nat>) {
    |ds| == (if |data| == 0 then 1 else |data|)
    && forall i :: 0 <= i < |ds| ==> ds[i] == Total(data[..i])
  }

  // ---------------------------------------------------------------------
  // Arithmetic of Euclidean division, for non-negative operands.

  lemma MulMono(d: int, m: int)
    requires m > 0
    ensures d >= 1 ==> d * m >= m
    ensures d <= -1 ==> d * m <= -m
  {
  }

  /** Division and remainder are the unique quotient and remainder. */
  lemma DivModUnique(x: int, m: int, q: int, r: int)
    requires m > 0 && 0 <= r < m && x == q * m + r
    ensures x / m == q && x % m == r
  {
    var d := q - x / m;
    assert d * m == x % m - r;
    MulMono(d, m);
  }

  /** Splitting a remainder by `a * b` into a remainder by `a` and a digit in base `b`. */
  lemma ModProduct(x: nat, a: nat, b: nat)
    requires a > 0 && b > 0
    ensures x % (a * b) == x % a + a * ((x / a) % b)
    ensures (x % (a * b)) / a == (x / a) % b
    ensures (x % (a * b)) % a == x % a
    ensures x / (a * b) == (x / a) / b
  {
    var q := x / a;
    var r := x % a;
    var q2 := q / b;
    var r2 := q % b;
    assert x == q2 * (a * b) + (r2 * a + r) by {
      assert x == q * a + r;
      assert q == q2 * b + r2;
    }
    assert r2 * a <= (b - 1) * a;
    DivModUnique(x, a * b, q2, r2 * a + r);
    DivModUnique(r2 * a + r, a, r2, r);
  }

  /** A digit below the base followed by a value below a bound stays below base times bound. */
  lemma DigitBound(d: nat, b: nat, v: nat, t: nat)
    requires d < b && v < t
    ensures d + b * v < b * t
  {
    assert b * t - b * v == (t - v) * b;
    MulMono(t - v, b);
  }

  lemma AddMod(x: nat, t: nat)
    requires t > 0
    ensures (x + t) % t == x % t
  {
    DivModUnique(x + t, t, x / t + 1, x % t);
  }

  // ---------------------------------------------------------------------
  // Facts about the total and the dimension sizes.

  lemma {:induction false} TotalPositive<V>(data: seq<seq<Fragment<V>>>)
    ensures Total(data) > 0 <==> AllNonEmpty(data)
  {
    if data != [] {
      TotalPositive(data[1..]);
      if Total(data) > 0 {
        forall i | 0 <= i < |data| ensures |data[i]| > 0 {
          if i > 0 {
            assert data[i] == data[1..][i - 1];
          }
        }
      }
    }
  }

  /** Extending the prefix by one axis multiplies the product by that axis's length. */
  lemma {:induction false} TotalSnoc<V>(data: seq<seq<Fragment<V>>>, i: nat)
    requires i < |data|
    ensures Total(data[..i + 1]) == Total(data[..i]) * |data[i]|
  {
    if i > 0 {
      TotalSnoc(data[1..], i - 1);
      assert data[..i + 1][1..] == data[1..][..i];
      assert data[..i][1..] == data[1..][..i - 1];
    } else {
      assert data[..1][1..] == [];
    }
  }

  /** The last dimension size times the last axis length is the total. */
  lemma LastDimSize<V>(data: seq<seq<Fragment<V>>>, ds: seq<nat>)
    requires DimSizesOk(data, ds) && |data| >= 1
    ensures ds[|data| - 1] * |data[|data| - 1]| == Total(data)
  {
    TotalSnoc(data, |data| - 1);
    assert data[..|data|] == data;
  }

  lemma PrefixNonEmpty<V>(data: seq<seq<Fragment<V>>>, i: nat)
    requires AllNonEmpty(data) && i <= |data|
    ensures AllNonEmpty(data[..i]) && Total(data[..i]) > 0
  {
    TotalPositive(data[..i]);
  }

  // ---------------------------------------------------------------------
  // The mixed-radix decomposition.

  /** Every coordinate selects a fragment of its axis. */
  lemma {:induction false} CoordsInRange<V>(data: seq<seq<Fragment<V>>>, x: nat)
    requires AllNonEmpty(data)
    ensures InRange(data, Coords(data, x))
  {
    if data != [] {
      CoordsInRange(data[1..], x / |data[0]|);
      var c := Coords(data, x);
      forall i | 0 <= i < |c| ensures c[i] < |data[i]| {
        if i > 0 {
          assert c[i] == Coords(data[1..], x / |data[0]|)[i - 1];
        }
      }
    }
  }

  /** Coordinate `i` is the quotient by the product of the axes before `i`, reduced in the base of axis `i`. */
  lemma {:induction false} CoordsAt<V>(data: seq<seq<Fragment<V>>>, x: nat, i: nat)
    requires AllNonEmpty(data) && i < |data|
    ensures Total(data[..i]) > 0
    ensures Coords(data, x)[i] == (x / Total(data[..i])) % |data[i]|
  {
    PrefixNonEmpty(data, i);
    if i > 0 {
      var b := |data[0]|;
      var rest := data[1..];
      assert AllNonEmpty(rest) by {
        forall j | 0 <= j < |rest| ensures |rest[j]| > 0 {
          assert rest[j] == data[j + 1];
        }
      }
      CoordsAt(rest, x / b, i - 1);
      assert data[..i][1..] == rest[..i - 1];
      var t := Total(rest[..i - 1]);
      assert Total(data[..i]) == b * t;
      ModProduct(x, b, t);
      assert Coords(data, x)[i] == Coords(rest, x / b)[i - 1];
      assert data[i] == rest[i - 1];
    }
  }

  /** One step of `resolve`'s loop: from the remainder by the first `i + 1` axes, the quotient by the first `i` is coordinate `i` and the remainder is that by the first `i`. */
  lemma DecomposeStep<V>(data: seq<seq<Fragment<V>>>, y: nat, i: nat)
    requires AllNonEmpty(data) && i < |data|
    ensures Total(data[..i]) > 0 && Total(data[..i + 1]) > 0
    ensures (y % Total(data[..i + 1])) / Total(data[..i]) == Coords(data, y)[i]
    ensures (y % Total(data[..i + 1])) % Total(data[..i]) == y % Total(data[..i])
  {
    PrefixNonEmpty(data, i);
    PrefixNonEmpty(data, i + 1);
    TotalSnoc(data, i);
    ModProduct(y, Total(data[..i]), |data[i]|);
    CoordsAt(data, y, i);
  }

  /** Round trip: the coordinates of `x` stand for `x` reduced modulo the total. */
  lemma {:induction false} ValueOfCoords<V>(data: seq<seq<Fragment<V>>>, x: nat)
    requires AllNonEmpty(data)
    ensures Total(data) > 0
    ensures Value(data, Coords(data, x)) == x % Total(data)
  {
    TotalPositive(data);
    if data != [] {
      var b := |data[0]|;
      ValueOfCoords(data[1..], x / b);
      TotalPositive(data[1..]);
      ModProduct(x, b, Total(data[1..]));
      assert Coords(data, x)[1..] == Coords(data[1..], x / b);
    }
  }

  /** A coordinate vector in range stands for an index below the total. */
  lemma {:induction false} ValueBelowTotal<V>(data: seq<seq<Fragment<V>>>, c: seq<nat>)
    requires InRange(data, c)
    ensures Value(data, c) < Total(data)
  {
    if data != [] {
      assert InRange(data[1..], c[1..]) by {
        forall i | 0 <= i < |c| - 1 ensures c[1..][i] < |data[1..][i]| {
          assert c[1..][i] == c[i + 1] && data[1..][i] == data[i + 1];
        }
      }
      ValueBelowTotal(data[1..], c[1..]);
      DigitBound(c[0], |data[0]|, Value(data[1..], c[1..]), Total(data[1..]));
    }
  }

  /** Every coordinate vector in range is the decomposition of the index it stands for. */
  lemma {:induction false} CoordsOfValue<V>(data: seq<seq<Fragment<V>>>, c: seq<nat>)
    requires InRange(data, c)
    ensures AllNonEmpty(data)
    ensures Coords(data, Value(data, c)) == c
  {
    if data != [] {
      assert |data[0]| > 0;
      CoordsOfValue(data[1..], c[1..]);
      var b := |data[0]|;
      DivModUnique(Value(data, c), b, Value(data[1..], c[1..]), c[0]);
      assert c == [c[0]] + c[1..];
    }
  }

  /** Distinct indices below the total have distinct coordinates. */
  lemma CoordsInjective<V>(data: seq<seq<Fragment<V>>>, x: nat, y: nat)
    requires AllNonEmpty(data) && x < Total(data) && y < Total(data)
    ensures Coords(data, x) == Coords(data, y) <==> x == y
  {
    ValueOfCoords(data, x);
    ValueOfCoords(data, y);
    DivModUnique(x, Total(data), 0, x);
    DivModUnique(y, Total(data), 0, y);
  }

  /** Every coordinate vector in range is reached by exactly one index below the total. */
  lemma CoordsBijective<V>(data: seq<seq<Fragment<V>>>, c: seq<nat>)
    requires InRange(data, c)
    ensures AllNonEmpty(data)
    ensures exists x :: 0 <= x < Total(data) && Coords(data, x) == c
    ensures forall x, y :: 0 <= x < Total(data) && 0 <= y < Total(data) && Coords(data, x) == c && Coords(data, y) == c ==> x == y
  {
    CoordsOfValue(data, c);
    ValueBelowTotal(data, c);
    var v := Value(data, c);
    assert 0 <= v < Total(data) && Coords(data, v) == c;
    forall x, y | 0 <= x < Total(data) && 0 <= y < Total(data) && Coords(data, x) == c && Coords(data, y) == c
      ensures x == y
    {
      CoordsInjective(data, x, y);
    }
  }

  // ---------------------------------------------------------------------
  // What `resolve` returns.

  /** The index wraps: adding the total selects the same permutation. */
  lemma ResolvedPeriodic<V>(data: seq<seq<Fragment<V>>>, idx: nat)
    ensures Resolved(data, idx + Total(data)) == Resolved(data, idx)
  {
    if Total(data) > 0 {
      AddMod(idx, Total(data));
    }
  }

  /** With no axes there is one permutation, the empty object. */
  lemma ResolvedNoAxes<V>(data: seq<seq<Fragment<V>>>, idx: nat)
    requires data == []
    ensures Total(data) == 1 && Resolved(data, idx) == []
  {
  }

  /** Every fragment is a well-formed object. */
  predicate FragmentsValid<V>(data: seq<seq<Fragment<V>>>) {
    forall i, j :: 0 <= i < |data| && 0 <= j < |data[i]| ==> Valid(data[i][j])
  }

  /** The highest axis below `n` whose selected fragment has property `k`. */
  function LastWith<V>(data: seq<seq<Fragment<V>>>, c: seq<nat>, n: nat, k: string): (r: Option<nat>)
    requires InRange(data, c) && n <= |data|
    ensures r.Some? ==> r.value < n && k in Keys(data[r.value][c[r.value]])
  {
    if n == 0 then None
    else if k in Keys(data[n - 1][c[n - 1]]) then Some(n - 1)
    else LastWith(data, c, n - 1, k)
  }

  /** `LastWith` finds an axis exactly when one has the property, and no later axis has it. */
  lemma {:induction false} LastWithSpec<V>(data: seq<seq<Fragment<V>>>, c: seq<nat>, n: nat, k: string)
    requires InRange(data, c) && n <= |data|
    ensures LastWith(data, c, n, k).None? <==> forall i :: 0 <= i < n ==> k !in Keys(data[i][c[i]])
    ensures LastWith(data, c, n, k).Some? ==>
      forall j :: LastWith(data, c, n, k).value < j < n ==> k !in Keys(data[j][c[j]])
  {
    if n > 0 {
      LastWithSpec(data, c, n - 1, k);
    }
  }

  /** A property of the merge has the value the last axis having it gives it, and is absent when no axis has it. */
  lemma {:induction false} MergedGet<V>(data: seq<seq<Fragment<V>>>, c: seq<nat>, n: nat, k: string)
    requires InRange(data, c) && n <= |data| && FragmentsValid(data)
    ensures Get(Merged(data, c, n), k) ==
      match LastWith(data, c, n, k)
      case None => None
      case Some(i) => Get(data[i][c[i]], k)
  {
    if n > 0 {
      MergedGet(data, c, n - 1, k);
      AssignGet(Merged(data, c, n - 1), data[n - 1][c[n - 1]], k);
    }
  }

  /** The merge is a well-formed object. */
  lemma {:induction false} MergedValid<V>(data: seq<seq<Fragment<V>>>, c: seq<nat>, n: nat)
    requires InRange(data, c) && n <= |data|
    ensures Valid(Merged(data, c, n))
  {
    if n > 0 {
      MergedValid(data, c, n - 1);
      AssignValid(Merged(data, c, n - 1), data[n - 1][c[n - 1]]);
    }
  }

  /** `resolve` reads each property from the last axis whose selected fragment has it. */
  lemma ResolvedGet<V>(data: seq<seq<Fragment<V>>>, idx: nat, k: string)
    requires AllNonEmpty(data) && FragmentsValid(data)
    ensures Total(data) > 0 && InRange(data, Coords(data, idx % Total(data)))
    ensures Get(Resolved(data, idx), k) ==
      match LastWith(data, Coords(data, idx % Total(data)), |data|, k)
      case None => None
      case Some(i) => Get(data[i][Coords(data, idx % Total(data))[i]], k)
  {
    TotalPositive(data);
    CoordsInRange(data, idx % Total(data));
    MergedGet(data, Coords(data, idx % Total(data)), |data|, k);
  }

  // ---------------------------------------------------------------------
  // The class.

  class Permutation<V> {
    const data: seq<seq<Fragment<V>>>
    const total: nat
    const dimSizes: seq<nat>

    /** What the constructor establishes: the total and the size of each dimension. */
    predicate Valid() {
      total == Total(data) && DimSizesOk(data, dimSizes)
    }

    /** `new Permutation(data)`: counts the permutations and computes the dimension sizes. */
    constructor(data: seq<seq<Fragment<V>>>)
      ensures this.data == data && Valid()
    {
      var t := 1;
      for i := 0 to |data|
        invariant t == Total(data[..i])
      {
        TotalSnoc(data, i);
        t := t * |data[i]|;
      }
      assert data[..|data|] == data;
      var ds: seq<nat> := [1];
      var i := 1;
      while i < |data|
        invariant 1 <= i <= (if |data| == 0 then 1 else |data|)
        invariant |ds| == i
        invariant forall k :: 0 <= k < i ==> ds[k] == Total(data[..k])
      {
        TotalSnoc(data, i - 1);
        ds := ds + [ds[i - 1] * |data[i - 1]|];
        i := i + 1;
      }
      this.data := data;
      total := t;
      dimSizes := ds;
    }

    /** `resolve(idx)`: wraps the index, decomposes it from the last axis down, then merges the fragments. */
    method Resolve(idx: nat) returns (result: Fragment<V>)
      requires Valid()
      ensures result == Resolved(data, idx)
    {
      if total == 0 {
        return [];
      }
      TotalPositive(data);
      var y := idx % total;
      var coords := Decompose(y);
      CoordsInRange(data, y);
      result := Merge(coords);
    }

    /** The loop of `resolve` that peels off coordinates from the last axis down. */
    method Decompose(y: nat) returns (coords: seq<nat>)
      requires Valid() && AllNonEmpty(data) && y < total
      ensures coords == Coords(data, y)
    {
      ghost var c := Coords(data, y);
      var x := y;
      coords := [];
      var i := |data|;
      assert data[..|data|] == data;
      DivModUnique(y, total, 0, y);
      while i > 0
        invariant 0 <= i <= |data|
        invariant Total(data[..i]) > 0 && x == y % Total(data[..i])
        invariant coords == c[i..]
      {
        i := i - 1;
        DecomposeStep(data, y, i);
        assert dimSizes[i] == Total(data[..i]);
        var coord := x / dimSizes[i];
        coords := [coord] + coords;
        x := x % dimSizes[i];
      }
    }

    /** The loop of `resolve` that assigns the selected fragments in axis order. */
    method Merge(coords: seq<nat>) returns (result: Fragment<V>)
      requires InRange(data, coords)
      ensures result == Merged(data, coords, |data|)
    {
      result := [];
      for j := 0 to |data|
        invariant result == Merged(data, coords, j)
      {
        result := Assign(result, data[j][coords[j]]);
      }
    }
  }
}
