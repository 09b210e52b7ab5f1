/**
 Concatenation of a list of parts, the shape of every "for each item, append
 what it contributes" loop in the program.
 */
module Flatten {

  /** The first `n` parts, concatenated in order. */
  function ConcatUpTo<T>(parts: seq<seq<T>>, n: nat): seq<T>
    requires n <= |parts|
    decreases n
  {
    if n == 0 then [] else ConcatUpTo(parts, n - 1) + parts[n - 1]
  }

  function Concat<T>(parts: seq<seq<T>>): seq<T> {
    ConcatUpTo(parts, |parts|)
  }

  lemma {:induction false} ConcatUpToMembership<T>(parts: seq<seq<T>>, n: nat, x: T)
    requires n <= |parts|
    ensures x in ConcatUpTo(parts, n) <==> exists p :: 0 <= p < n && x in parts[p]
    decreases n
  {
    if n > 0 {
      var prev := ConcatUpTo(parts, n - 1);
      assert ConcatUpTo(parts, n) == prev + parts[n - 1];
      assert x in prev + parts[n - 1] <==> x in prev || x in parts[n - 1];
      ConcatUpToMembership(parts, n - 1, x);
      if x in prev {
        var p :| 0 <= p < n - 1 && x in parts[p];
        assert 0 <= p < n && x in parts[p];
      }
    }
  }

  /** An element of the concatenation is an element of one of the parts, and
      every element of every part is in the concatenation. */
  lemma ConcatMembership<T>(parts: seq<seq<T>>, x: T)
    ensures x in Concat(parts) <==> exists p :: 0 <= p < |parts| && x in parts[p]
  {
    ConcatUpToMembership(parts, |parts|, x);
  }

  lemma {:induction false} ConcatUpToAgree<T>(xs: seq<seq<T>>, ys: seq<seq<T>>, n: nat)
    requires n <= |xs| && n <= |ys|
    requires xs[..n] == ys[..n]
    ensures ConcatUpTo(xs, n) == ConcatUpTo(ys, n)
    decreases n
  {
    if n > 0 {
      assert xs[..n - 1] == xs[..n][..n - 1] && ys[..n - 1] == ys[..n][..n - 1];
      assert xs[n - 1] == xs[..n][n - 1] && ys[n - 1] == ys[..n][n - 1];
      ConcatUpToAgree(xs, ys, n - 1);
    }
  }

  lemma {:induction false} ConcatUpToAppend<T>(a: seq<seq<T>>, b: seq<seq<T>>, n: nat)
    requires n <= |b|
    ensures ConcatUpTo(a + b, |a| + n) == Concat(a) + ConcatUpTo(b, n)
    decreases n
  {
    if n == 0 {
      assert (a + b)[..|a|] == a[..|a|];
      ConcatUpToAgree(a + b, a, |a|);
    } else {
      var m := |a| + n - 1;
      ConcatUpToAppend(a, b, n - 1);
      assert (a + b)[m] == b[n - 1];
      assert ConcatUpTo(a + b, m + 1) == ConcatUpTo(a + b, m) + b[n - 1];
      assert ConcatUpTo(a + b, m) == Concat(a) + ConcatUpTo(b, n - 1);
      assert (Concat(a) + ConcatUpTo(b, n - 1)) + b[n - 1] == Concat(a) + (ConcatUpTo(b, n - 1) + b[n - 1]);
    }
  }

  /** Concatenating two lists of parts in a row concatenates their results. */
  lemma ConcatAppend<T>(a: seq<seq<T>>, b: seq<seq<T>>)
    ensures Concat(a + b) == Concat(a) + Concat(b)
  {
    ConcatUpToAppend(a, b, |b|);
  }

  lemma ConcatSingle<T>(part: seq<T>)
    ensures Concat([part]) == part
  {
    assert ConcatUpTo([part], 0) == [];
  }
}
