/**
 * The consistency check at the end of `genReport` in src/diff.js, as a
 * specification: the list of problems it reports, in the order it reports
 * them.  The identity tree it walks maps model -> browser -> variant ->
 * engine to the screenshot taken there.  For every (model, browser,
 * variant) it reports each known engine with no screenshot, then compares
 * the screenshot of every other engine present with that of the engine
 * that sorts first.
 */
module Consistency {
  import opened Wrappers
  import opened Dict
  import opened Seqs
  import opened Sorting
  import opened NestedTree
  import opened ImageDiff

  /** The `{ hash, pathname }` record kept for one screenshot. */
  datatype Shot = Shot(hash: string, pathname: string)

  /** One problem reported on the error stream. */
  datatype Violation =
    | Missing(model: string, browser: string, variant: string, engine: string)
    | Mismatch(diff: string, first: string, other: string)

  /** The line written for a problem. */
  function Message(v: Violation): string {
    match v
    case Missing(m, b, va, e) => "missing model=" + m + " browser=" + b + " variant=" + va + " engine=" + e
    case Mismatch(d, first, other) => d + " " + first + " " + other
  }

  /** The lines written for a list of problems, one per problem. */
  function Messages(vs: seq<Violation>): (ms: seq<string>)
    ensures |ms| == |vs|
  {
    if vs == [] then [] else Messages(vs[..|vs| - 1]) + [Message(vs[|vs| - 1])]
  }

  lemma {:induction false} MessagesAt(vs: seq<Violation>, i: nat)
    requires i < |vs|
    ensures Messages(vs)[i] == Message(vs[i])
  {
    if i < |vs| - 1 {
      MessagesAt(vs[..|vs| - 1], i);
    }
  }

  lemma {:induction false} MessagesAppend(a: seq<Violation>, b: seq<Violation>)
    ensures Messages(a + b) == Messages(a) + Messages(b)
    decreases |b|
  {
    if b == [] {
      assert a + b == a;
    } else {
      var front := b[..|b| - 1];
      assert (a + b)[..|a + b| - 1] == a + front;
      MessagesAppend(a, front);
    }
  }

  /** The record stored at a leaf of the identity tree. */
  function ShotAt(t2: Tree<Shot>, q: seq<string>): Shot {
    var r := Get(t2, q);
    if r.Some? && r.value.Leaf? then r.value.value else Shot("", "")
  }

  /** The known engines with no screenshot for (m, b, v), in the order of `engines`. */
  function MissingFor(t2: Tree<Shot>, m: string, b: string, v: string, engines: seq<string>): seq<Violation> {
    if engines == [] then []
    else
      var e := engines[|engines| - 1];
      MissingFor(t2, m, b, v, engines[..|engines| - 1]) + if Has(t2, [m, b, v, e]) then [] else [Missing(m, b, v, e)]
  }

  /** A screenshot agrees with the first one: the same content hash, or images the pixel diff finds equal. */
  predicate Agrees(first: Shot, other: Shot, decode: string -> Png) {
    other.hash == first.hash || DiffText(decode(first.pathname), decode(other.pathname)).None?
  }

  /** The comparison of one screenshot with the first: the pixels are compared only when the hashes differ. */
  function Compared(first: Shot, other: Shot, decode: string -> Png): seq<Violation> {
    if other.hash == first.hash then []
    else
      match DiffText(decode(first.pathname), decode(other.pathname))
      case None => []
      case Some(d) => [Mismatch(d, first.pathname, other.pathname)]
  }

  /** The comparisons of `shots[1]` to `shots[n - 1]` with `shots[0]`. */
  function Mismatches(shots: seq<Shot>, decode: string -> Png, n: nat): seq<Violation>
    requires n <= |shots|
  {
    if n <= 1 then [] else Mismatches(shots, decode, n - 1) + Compared(shots[0], shots[n - 1], decode)
  }

  /** The engines present for (m, b, v), in sorted order. */
  function Present(t2: Tree<Shot>, m: string, b: string, v: string): seq<string> {
    Sort(Names(t2, [m, b, v]))
  }

  /** The records of the engines present for (m, b, v), in sorted order of engine. */
  function ShotsOf(t2: Tree<Shot>, m: string, b: string, v: string): (shots: seq<Shot>)
    ensures |shots| == |Present(t2, m, b, v)|
    ensures forall k :: 0 <= k < |shots| ==> shots[k] == ShotAt(t2, [m, b, v, Present(t2, m, b, v)[k]])
  {
    var present := Present(t2, m, b, v);
    seq(|present|, k requires 0 <= k < |present| => ShotAt(t2, [m, b, v, present[k]]))
  }

  /** Everything reported for one (model, browser, variant). */
  function VariantViolations(t2: Tree<Shot>, engines: seq<string>, decode: string -> Png, m: string, b: string, v: string): seq<Violation> {
    var shots := ShotsOf(t2, m, b, v);
    MissingFor(t2, m, b, v, engines) + Mismatches(shots, decode, |shots|)
  }

  /**
   * Everything reported under the node at path `p` of the identity tree:
   * at a (model, browser, variant) the checks of that variant, above it
   * the reports of each child in insertion order.
   */
  function Walk(t2: Tree<Shot>, engines: seq<string>, decode: string -> Png, p: seq<string>): seq<Violation>
    requires |p| <= 3
    decreases 3 - |p|, 1
  {
    if |p| == 3 then VariantViolations(t2, engines, decode, p[0], p[1], p[2])
    else Joined(Below(t2, engines, decode, p), Names(t2, p))
  }

  /** The children of the node at path `p`, each mapped to what is reported under it. */
  function Below(t2: Tree<Shot>, engines: seq<string>, decode: string -> Png, p: seq<string>): string -> seq<Violation>
    requires |p| < 3
    decreases 3 - |p|, 0
  {
    k => Walk(t2, engines, decode, p + [k])
  }

  lemma BelowAt(t2: Tree<Shot>, engines: seq<string>, decode: string -> Png, p: seq<string>, k: string)
    requires |p| < 3
    ensures Below(t2, engines, decode, p)(k) == Walk(t2, engines, decode, p + [k])
  {
  }

  lemma VariantAt(t2: Tree<Shot>, engines: seq<string>, decode: string -> Png, m: string, b: string, v: string)
    ensures Below(t2, engines, decode, [m, b])(v) == VariantViolations(t2, engines, decode, m, b, v)
  {
    assert [m, b] + [v] == [m, b, v];
  }

  lemma BrowserAt(t2: Tree<Shot>, engines: seq<string>, decode: string -> Png, m: string, b: string)
    ensures Below(t2, engines, decode, [m])(b) == BrowserViolations(t2, engines, decode, m, b)
  {
    assert [m] + [b] == [m, b];
  }

  lemma ModelAt(t2: Tree<Shot>, engines: seq<string>, decode: string -> Png, m: string)
    ensures Below(t2, engines, decode, [])(m) == ModelViolations(t2, engines, decode, m)
  {
    assert [] + [m] == [m];
  }

  /** Everything reported for one (model, browser): its variants in insertion order. */
  function BrowserViolations(t2: Tree<Shot>, engines: seq<string>, decode: string -> Png, m: string, b: string): seq<Violation> {
    Walk(t2, engines, decode, [m, b])
  }

  /** Everything reported for one model: its browsers in insertion order. */
  function ModelViolations(t2: Tree<Shot>, engines: seq<string>, decode: string -> Png, m: string): seq<Violation> {
    Walk(t2, engines, decode, [m])
  }

  /** Everything reported: the models in insertion order. */
  function Violations(t2: Tree<Shot>, engines: seq<string>, decode: string -> Png): seq<Violation> {
    Walk(t2, engines, decode, [])
  }

  lemma MissingForSnoc(t2: Tree<Shot>, m: string, b: string, v: string, engines: seq<string>, i: nat)
    requires i < |engines|
    ensures MissingFor(t2, m, b, v, engines[..i + 1])
         == MissingFor(t2, m, b, v, engines[..i]) + if Has(t2, [m, b, v, engines[i]]) then [] else [Missing(m, b, v, engines[i])]
  {
    assert engines[..i + 1][..i] == engines[..i];
  }

  lemma {:induction false} MissingForMember(t2: Tree<Shot>, m: string, b: string, v: string, engines: seq<string>, x: Violation)
    ensures x in MissingFor(t2, m, b, v, engines)
        <==> x.Missing? && x.model == m && x.browser == b && x.variant == v && x.engine in engines && !Has(t2, [m, b, v, x.engine])
  {
    if engines != [] {
      var front := engines[..|engines| - 1];
      MissingForMember(t2, m, b, v, front, x);
      assert engines == front + [engines[|engines| - 1]];
    }
  }

  /** No missing engine is ever reported for (m, b, v) when every known engine has a screenshot. */
  lemma {:induction false} MissingForEmpty(t2: Tree<Shot>, m: string, b: string, v: string, engines: seq<string>)
    ensures MissingFor(t2, m, b, v, engines) == [] <==> forall e :: e in engines ==> Has(t2, [m, b, v, e])
  {
    if MissingFor(t2, m, b, v, engines) == [] {
      forall e | e in engines ensures Has(t2, [m, b, v, e]) {
        MissingForMember(t2, m, b, v, engines, Missing(m, b, v, e));
      }
    } else {
      var x := MissingFor(t2, m, b, v, engines)[0];
      MissingForMember(t2, m, b, v, engines, x);
    }
  }

  /** The comparison reports nothing exactly when the screenshots agree, and otherwise only a mismatch. */
  lemma ComparedEmpty(first: Shot, other: Shot, decode: string -> Png)
    ensures Compared(first, other, decode) == [] <==> Agrees(first, other, decode)
    ensures forall x :: x in Compared(first, other, decode) ==> x.Mismatch? && x.first == first.pathname && x.other == other.pathname
  {
  }

  lemma {:induction false} MismatchesMember(shots: seq<Shot>, decode: string -> Png, n: nat, x: Violation)
    requires n <= |shots|
    ensures x in Mismatches(shots, decode, n) <==> exists k :: 1 <= k < n && x in Compared(shots[0], shots[k], decode)
  {
    if n > 1 {
      MismatchesMember(shots, decode, n - 1, x);
    }
  }

  /** The comparisons report nothing exactly when every screenshot agrees with the first. */
  lemma {:induction false} MismatchesEmpty(shots: seq<Shot>, decode: string -> Png, n: nat)
    requires n <= |shots|
    ensures Mismatches(shots, decode, n) == [] <==> forall k :: 1 <= k < n ==> Agrees(shots[0], shots[k], decode)
  {
    if n > 1 {
      MismatchesEmpty(shots, decode, n - 1);
      ComparedEmpty(shots[0], shots[n - 1], decode);
    }
  }

  /** The pixel comparison only reports mismatches, never a missing screenshot. */
  lemma MismatchesOnly(shots: seq<Shot>, decode: string -> Png, n: nat, x: Violation)
    requires n <= |shots| && x in Mismatches(shots, decode, n)
    ensures x.Mismatch?
  {
    MismatchesMember(shots, decode, n, x);
    var k :| 1 <= k < n && x in Compared(shots[0], shots[k], decode);
    ComparedEmpty(shots[0], shots[k], decode);
  }

  /** What must hold of (m, b, v) for nothing to be reported about it. */
  predicate VariantOk(t2: Tree<Shot>, engines: seq<string>, decode: string -> Png, m: string, b: string, v: string) {
    (forall e :: e in engines ==> Has(t2, [m, b, v, e]))
    && var shots := ShotsOf(t2, m, b, v);
       forall k :: 1 <= k < |shots| ==> Agrees(shots[0], shots[k], decode)
  }

  lemma VariantViolationsEmpty(t2: Tree<Shot>, engines: seq<string>, decode: string -> Png, m: string, b: string, v: string)
    ensures VariantViolations(t2, engines, decode, m, b, v) == [] <==> VariantOk(t2, engines, decode, m, b, v)
  {
    var shots := ShotsOf(t2, m, b, v);
    MissingForEmpty(t2, m, b, v, engines);
    MismatchesEmpty(shots, decode, |shots|);
  }

  /** The missing screenshots reported for (m, b, v): exactly the known engines with no screenshot. */
  lemma VariantMissing(t2: Tree<Shot>, engines: seq<string>, decode: string -> Png, m: string, b: string, v: string, e: string)
    ensures Missing(m, b, v, e) in VariantViolations(t2, engines, decode, m, b, v) <==> e in engines && !Has(t2, [m, b, v, e])
  {
    var shots := ShotsOf(t2, m, b, v);
    var x := Missing(m, b, v, e);
    MissingForMember(t2, m, b, v, engines, x);
    if x in Mismatches(shots, decode, |shots|) {
      MismatchesOnly(shots, decode, |shots|, x);
    }
  }

  /** A (m, b, v) only reports missing screenshots about itself. */
  lemma VariantMissingOwn(t2: Tree<Shot>, engines: seq<string>, decode: string -> Png, m: string, b: string, v: string, x: Violation)
    requires x in VariantViolations(t2, engines, decode, m, b, v) && x.Missing?
    ensures x.model == m && x.browser == b && x.variant == v
  {
    var shots := ShotsOf(t2, m, b, v);
    MissingForMember(t2, m, b, v, engines, x);
    if x in Mismatches(shots, decode, |shots|) {
      MismatchesOnly(shots, decode, |shots|, x);
    }
  }

  /** The missing screenshots reported for (m, b): those of its variants, and no others. */
  lemma BrowserMissing(t2: Tree<Shot>, engines: seq<string>, decode: string -> Png, m: string, b: string, x: Violation)
    requires x.Missing?
    ensures x in BrowserViolations(t2, engines, decode, m, b)
        <==> x.model == m && x.browser == b && x.variant in Names(t2, [m, b]) && x.engine in engines
             && !Has(t2, [m, b, x.variant, x.engine])
  {
    var f := Below(t2, engines, decode, [m, b]);
    JoinedMember(f, Names(t2, [m, b]), x);
    if x in BrowserViolations(t2, engines, decode, m, b) {
      var v :| v in Names(t2, [m, b]) && x in f(v);
      VariantAt(t2, engines, decode, m, b, v);
      VariantMissingOwn(t2, engines, decode, m, b, v, x);
      VariantMissing(t2, engines, decode, m, b, v, x.engine);
    }
    if x.model == m && x.browser == b {
      VariantAt(t2, engines, decode, m, b, x.variant);
      VariantMissing(t2, engines, decode, m, b, x.variant, x.engine);
      assert x == Missing(m, b, x.variant, x.engine);
    }
  }

  /** The missing screenshots reported for model m: those of its browsers, and no others. */
  lemma ModelMissing(t2: Tree<Shot>, engines: seq<string>, decode: string -> Png, m: string, x: Violation)
    requires x.Missing?
    ensures x in ModelViolations(t2, engines, decode, m)
        <==> x.model == m && x.browser in Names(t2, [m]) && x.variant in Names(t2, [m, x.browser]) && x.engine in engines
             && !Has(t2, [m, x.browser, x.variant, x.engine])
  {
    var f := Below(t2, engines, decode, [m]);
    JoinedMember(f, Names(t2, [m]), x);
    if x in ModelViolations(t2, engines, decode, m) {
      var b :| b in Names(t2, [m]) && x in f(b);
      BrowserAt(t2, engines, decode, m, b);
      BrowserMissing(t2, engines, decode, m, b, x);
    }
    BrowserAt(t2, engines, decode, m, x.browser);
    BrowserMissing(t2, engines, decode, m, x.browser, x);
  }

  /** The missing screenshots reported overall: those of every model, and no others. */
  lemma AllMissing(t2: Tree<Shot>, engines: seq<string>, decode: string -> Png, x: Violation)
    requires x.Missing?
    ensures x in Violations(t2, engines, decode)
        <==> x.model in Names(t2, []) && x.browser in Names(t2, [x.model]) && x.variant in Names(t2, [x.model, x.browser])
             && x.engine in engines && !Has(t2, [x.model, x.browser, x.variant, x.engine])
  {
    var f := Below(t2, engines, decode, []);
    JoinedMember(f, Names(t2, []), x);
    if x in Violations(t2, engines, decode) {
      var m :| m in Names(t2, []) && x in f(m);
      ModelAt(t2, engines, decode, m);
      ModelMissing(t2, engines, decode, m, x);
    }
    ModelAt(t2, engines, decode, x.model);
    ModelMissing(t2, engines, decode, x.model, x);
  }

  /** In a shaped identity tree, (m, b, v) is listed by the walk exactly when it holds a variant object. */
  lemma WalkedIff(t2: Tree<Shot>, m: string, b: string, v: string)
    requires Shaped(t2, 4)
    ensures (m in Names(t2, []) && b in Names(t2, [m]) && v in Names(t2, [m, b])) <==> Has(t2, [m, b, v])
  {
    assert [] + [m] == [m];
    assert [m] + [b] == [m, b];
    assert [m, b] + [v] == [m, b, v];
    NamesMember(t2, [], m);
    NamesMember(t2, [m], b);
    NamesMember(t2, [m, b], v);
    if Has(t2, [m, b, v]) {
      ShapedPrefix(t2, 4, [m, b, v], 1);
      ShapedPrefix(t2, 4, [m, b, v], 2);
      assert [m, b, v][..1] == [m];
      assert [m, b, v][..2] == [m, b];
    }
  }

  /**
   * A missing screenshot is reported exactly for each known engine that has no
   * screenshot in a (model, browser, variant) for which some engine has one.
   */
  lemma MissingReported(t2: Tree<Shot>, engines: seq<string>, decode: string -> Png, m: string, b: string, v: string, e: string)
    requires Shaped(t2, 4)
    ensures Missing(m, b, v, e) in Violations(t2, engines, decode)
        <==> Has(t2, [m, b, v]) && e in engines && !Has(t2, [m, b, v, e])
  {
    AllMissing(t2, engines, decode, Missing(m, b, v, e));
    WalkedIff(t2, m, b, v);
  }

  lemma BrowserEmpty(t2: Tree<Shot>, engines: seq<string>, decode: string -> Png, m: string, b: string)
    ensures BrowserViolations(t2, engines, decode, m, b) == []
        <==> forall v :: v in Names(t2, [m, b]) ==> VariantOk(t2, engines, decode, m, b, v)
  {
    var f := Below(t2, engines, decode, [m, b]);
    JoinedEmpty(f, Names(t2, [m, b]));
    forall v ensures f(v) == [] <==> VariantOk(t2, engines, decode, m, b, v) {
      VariantAt(t2, engines, decode, m, b, v);
      VariantViolationsEmpty(t2, engines, decode, m, b, v);
    }
  }

  lemma ModelEmpty(t2: Tree<Shot>, engines: seq<string>, decode: string -> Png, m: string)
    ensures ModelViolations(t2, engines, decode, m) == []
        <==> forall b, v :: b in Names(t2, [m]) && v in Names(t2, [m, b]) ==> VariantOk(t2, engines, decode, m, b, v)
  {
    var f := Below(t2, engines, decode, [m]);
    JoinedEmpty(f, Names(t2, [m]));
    forall b ensures f(b) == [] <==> forall v :: v in Names(t2, [m, b]) ==> VariantOk(t2, engines, decode, m, b, v) {
      BrowserAt(t2, engines, decode, m, b);
      BrowserEmpty(t2, engines, decode, m, b);
    }
  }

  /** Nothing is reported exactly when every (model, browser, variant) the walk visits is in order. */
  lemma WalkEmpty(t2: Tree<Shot>, engines: seq<string>, decode: string -> Png)
    ensures Violations(t2, engines, decode) == []
        <==> forall m, b, v :: m in Names(t2, []) && b in Names(t2, [m]) && v in Names(t2, [m, b]) ==> VariantOk(t2, engines, decode, m, b, v)
  {
    var f := Below(t2, engines, decode, []);
    JoinedEmpty(f, Names(t2, []));
    forall m
      ensures f(m) == [] <==> forall b, v :: b in Names(t2, [m]) && v in Names(t2, [m, b]) ==> VariantOk(t2, engines, decode, m, b, v)
    {
      ModelAt(t2, engines, decode, m);
      ModelEmpty(t2, engines, decode, m);
    }
  }

  /**
   * Nothing is reported (and the exit code stays 0) exactly when every
   * (model, browser, variant) has a screenshot from every known engine and
   * each of them agrees with the first.
   */
  lemma ViolationsEmpty(t2: Tree<Shot>, engines: seq<string>, decode: string -> Png)
    requires Shaped(t2, 4)
    ensures Violations(t2, engines, decode) == []
        <==> forall m, b, v :: Has(t2, [m, b, v]) ==> VariantOk(t2, engines, decode, m, b, v)
  {
    WalkEmpty(t2, engines, decode);
    forall m, b, v ensures (m in Names(t2, []) && b in Names(t2, [m]) && v in Names(t2, [m, b])) <==> Has(t2, [m, b, v]) {
      WalkedIff(t2, m, b, v);
    }
  }
}
