/**
 * Reading or writing a sequence one element at a time: the shape shared by the
 * contract block of a data file and the lines written for it.
 */
module Seqs {

  /** `f` applied to each element, in order. */
  function MapSeq<A, B>(f: A -> B, xs: seq<A>): (ys: seq<B>)
    ensures |ys| == |xs|
  {
    if xs == [] then [] else MapSeq(f, xs[..|xs| - 1]) + [f(xs[|xs| - 1])]
  }

  /** Element `i` of the mapped sequence is `f` of element `i`. */
  lemma {:induction false} MapSeqAt<A, B>(f: A -> B, xs: seq<A>, i: nat)
    requires i < |xs|
    ensures MapSeq(f, xs)[i] == f(xs[i])
    decreases |xs|
  {
    if i < |xs| - 1 {
      MapSeqAt(f, xs[..|xs| - 1], i);
    }
  }

  /** Every element of the mapped sequence is `f` of the element at that position. */
  lemma MapSeqEach<A, B>(f: A -> B, xs: seq<A>)
    ensures forall i :: 0 <= i < |xs| ==> MapSeq(f, xs)[i] == f(xs[i])
  {
    forall i | 0 <= i < |xs|
      ensures MapSeq(f, xs)[i] == f(xs[i])
    {
      MapSeqAt(f, xs, i);
    }
  }

  /** Mapping a sequence with a first element maps that element first. */
  lemma {:induction false} MapSeqCons<A, B>(f: A -> B, x: A, xs: seq<A>)
    ensures MapSeq(f, [x] + xs) == [f(x)] + MapSeq(f, xs)
    decreases |xs|
  {
    var ys := [x] + xs;
    if xs != [] {
      MapSeqCons(f, x, xs[..|xs| - 1]);
      assert ys[..|ys| - 1] == [x] + xs[..|xs| - 1];
      assert ys[|ys| - 1] == xs[|xs| - 1];
    }
  }

  /** Mapping with `f` and then with a `g` that undoes `f` on every element gives the elements back. */
  lemma {:induction false} MapSeqInverse<A, B>(f: A -> B, g: B -> A, xs: seq<A>)
    requires forall i :: 0 <= i < |xs| ==> g(f(xs[i])) == xs[i]
    ensures MapSeq(g, MapSeq(f, xs)) == xs
    decreases |xs|
  {
    if xs != [] {
      var init := xs[..|xs| - 1];
      var ys := MapSeq(f, xs);
      MapSeqInverse(f, g, init);
      assert ys[..|ys| - 1] == MapSeq(f, init);
      assert xs == init + [xs[|xs| - 1]];
    }
  }

  /** Elements `b` up to `k` (exclusive) of `xs`, mapped where they stand. */
  function MapRange<A, B>(f: A -> B, xs: seq<A>, b: nat, k: nat): (ys: seq<B>)
    requires b <= k <= |xs|
    ensures |ys| == k - b
    decreases k - b
  {
    if k == b then [] else MapRange(f, xs, b, k - 1) + [f(xs[k - 1])]
  }

  /** Mapping a range in place is mapping the slice. */
  lemma {:induction false} MapRangeSlice<A, B>(f: A -> B, xs: seq<A>, b: nat, k: nat)
    requires b <= k <= |xs|
    ensures MapRange(f, xs, b, k) == MapSeq(f, xs[b..k])
    decreases k - b
  {
    if k > b {
      var s := xs[b..k];
      MapRangeSlice(f, xs, b, k - 1);
      assert s[..|s| - 1] == xs[b..k - 1];
      assert s[|s| - 1] == xs[k - 1];
    }
  }
}
