/** The two list pipelines the parser builds on: the positions of the
    elements a pattern matches, and `filter` followed by `map`, taken as a
    single partial map over the elements. */
module Seqs {
  import opened Wrappers

  /** The indices of the elements that satisfy `p`, in increasing order. */
  function Where<A>(xs: seq<A>, p: A -> bool): (r: seq<nat>)
    ensures forall k :: 0 <= k < |r| ==> r[k] < |xs| && p(xs[r[k]])
    ensures forall k, k' :: 0 <= k < k' < |r| ==> r[k] < r[k']
    ensures forall i :: 0 <= i < |xs| && p(xs[i]) ==> i in r
  {
    if xs == [] then []
    else
      var n := |xs| - 1;
      var r := Where(xs[..n], p);
      assert forall k :: 0 <= k < |r| ==> xs[..n][r[k]] == xs[r[k]];
      assert forall i :: 0 <= i < n ==> xs[..n][i] == xs[i];
      r + (if p(xs[n]) then [n] else [])
  }

  /** `xs.filter(keep).map(f)`, with `f(x)` defined exactly on the kept
      elements. */
  function Collect<A, B>(xs: seq<A>, f: A -> Option<B>): (r: seq<B>)
    ensures |r| <= |xs|
  {
    if xs == [] then []
    else
      var n := |xs| - 1;
      Collect(xs[..n], f) + (match f(xs[n]) case Some(y) => [y] case None => [])
  }

  lemma {:induction false} CollectAppend<A, B>(xs: seq<A>, ys: seq<A>, f: A -> Option<B>)
    ensures Collect(xs + ys, f) == Collect(xs, f) + Collect(ys, f)
    decreases |ys|
  {
    if ys == [] {
      assert xs + ys == xs;
    } else {
      var n := |ys| - 1;
      assert (xs + ys)[..|xs + ys| - 1] == xs + ys[..n];
      CollectAppend(xs, ys[..n], f);
    }
  }

  lemma CollectOne<A, B>(x: A, f: A -> Option<B>)
    ensures Collect([x], f) == match f(x) case Some(y) => [y] case None => []
  {
    assert [x][..0] == [];
  }

  /** Growing the prefix by one element adds that element's result, if any. */
  lemma CollectPrefix<A, B>(xs: seq<A>, i: nat, f: A -> Option<B>)
    requires i < |xs|
    ensures Collect(xs[..i + 1], f) == Collect(xs[..i], f) + match f(xs[i]) case Some(y) => [y] case None => []
  {
    assert xs[..i + 1][..i] == xs[..i];
  }

  /** Where `f` is defined everywhere, `Collect` is the plain `map`. */
  lemma {:induction false} CollectTotal<A, B>(xs: seq<A>, f: A -> Option<B>, ys: seq<B>)
    requires |ys| == |xs|
    requires forall k :: 0 <= k < |xs| ==> f(xs[k]) == Some(ys[k])
    ensures Collect(xs, f) == ys
  {
    if xs != [] {
      var n := |xs| - 1;
      CollectTotal(xs[..n], f, ys[..n]);
      assert ys == ys[..n] + [ys[n]];
    }
  }

  /** `Collect` keeps one result per element where `f` is defined, in the
      order of the elements: the k-th result comes from the element at
      `idx[k]`, and `idx` lists every such element in increasing order. */
  lemma {:induction false} CollectSources<A, B>(xs: seq<A>, f: A -> Option<B>) returns (idx: seq<nat>)
    ensures |idx| == |Collect(xs, f)|
    ensures forall k :: 0 <= k < |idx| ==> idx[k] < |xs| && f(xs[idx[k]]) == Some(Collect(xs, f)[k])
    ensures forall k, k' :: 0 <= k < k' < |idx| ==> idx[k] < idx[k']
    ensures forall i :: 0 <= i < |xs| && f(xs[i]).Some? ==> i in idx
  {
    if xs == [] {
      idx := [];
    } else {
      var n := |xs| - 1;
      var pre := xs[..n];
      var idx0 := CollectSources(pre, f);
      var c0 := Collect(pre, f);
      if f(xs[n]).Some? {
        idx := idx0 + [n];
        assert Collect(xs, f) == c0 + [f(xs[n]).value];
      } else {
        idx := idx0;
        assert Collect(xs, f) == c0;
      }
      forall k | 0 <= k < |idx|
        ensures idx[k] < |xs| && f(xs[idx[k]]) == Some(Collect(xs, f)[k])
      {
        if k < |idx0| {
          assert pre[idx0[k]] == xs[idx0[k]];
          assert idx[k] == idx0[k] && Collect(xs, f)[k] == c0[k];
        }
      }
      forall i | 0 <= i < |xs| && f(xs[i]).Some?
        ensures i in idx
      {
        if i < n {
          assert pre[i] == xs[i];
        }
      }
    }
  }
}
