/** Sequence helpers shared by the report and the consistency check. */
module Seqs {

  /** `f(x)` for each `x` of `xs`, one after another, as a loop over `xs` that appends each output produces them. */
  function Joined<T, U>(f: T -> seq<U>, xs: seq<T>): seq<U> {
    if xs == [] then [] else Joined(f, xs[..|xs| - 1]) + f(xs[|xs| - 1])
  }

  lemma JoinedSnoc<T, U>(f: T -> seq<U>, xs: seq<T>, i: nat)
    requires i < |xs|
    ensures Joined(f, xs[..i + 1]) == Joined(f, xs[..i]) + f(xs[i])
  {
    assert xs[..i + 1][..i] == xs[..i];
  }

  /** An element of the whole comes from the output for one of the `xs`, and every such element is in the whole. */
  lemma {:induction false} JoinedMember<T, U>(f: T -> seq<U>, xs: seq<T>, y: U)
    ensures y in Joined(f, xs) <==> exists x :: x in xs && y in f(x)
  {
    if xs != [] {
      var front := xs[..|xs| - 1];
      var last := xs[|xs| - 1];
      JoinedMember(f, front, y);
      assert xs == front + [last];
      if exists x :: x in xs && y in f(x) {
        var x :| x in xs && y in f(x);
        assert x in front || x == last;
      }
    }
  }

  /** The outputs for a prefix of the `xs` come first, then those for the rest. */
  lemma {:induction false} JoinedSplit<T, U>(f: T -> seq<U>, xs: seq<T>, i: nat)
    requires i <= |xs|
    ensures Joined(f, xs) == Joined(f, xs[..i]) + Joined(f, xs[i..])
  {
    if i == |xs| {
      assert xs[..i] == xs && xs[i..] == [];
    } else {
      var front := xs[..|xs| - 1];
      JoinedSplit(f, front, i);
      assert front[..i] == xs[..i];
      assert xs[i..][..|xs[i..]| - 1] == front[i..];
    }
  }

  /** The whole is empty exactly when the output for each of the `xs` is. */
  lemma {:induction false} JoinedEmpty<T, U>(f: T -> seq<U>, xs: seq<T>)
    ensures Joined(f, xs) == [] <==> forall x :: x in xs ==> f(x) == []
  {
    if xs != [] {
      var front := xs[..|xs| - 1];
      var last := xs[|xs| - 1];
      JoinedEmpty(f, front);
      assert xs == front + [last];
    }
  }

  // Plumbing: identities on slices and concatenation that model nothing of
  // their own; proofs elsewhere call them to keep each step small enough for
  // the solver.

  lemma WholeSlice<T>(s: seq<T>)
    ensures s[..|s|] == s
  {
  }

  lemma AppendAssoc<T>(x: seq<T>, a: seq<T>, b: seq<T>)
    ensures x + a + b == x + (a + b)
  {
  }

  lemma AppendThree<T>(x: seq<T>, a: seq<T>, b: seq<T>, c: seq<T>)
    ensures x + (a + b + c) == x + a + b + c
  {
  }

  /** Indexing past a prefix lands in the middle part. */
  lemma IndexMiddle<T>(a: seq<T>, b: seq<T>, c: seq<T>, j: nat)
    requires j < |b|
    ensures |a| + j < |a + b + c| && (a + b + c)[|a| + j] == b[j]
  {
  }

  lemma AppendFour<T>(x: seq<T>, a: seq<T>, b: seq<T>, c: seq<T>, d: seq<T>)
    ensures x + (a + b + c + d) == x + a + b + c + d
  {
  }
}
