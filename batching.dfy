/** Consecutive batches of at most `size` elements: the `for (i = 0; i < n; i += size)` loops
    with `subList(i, min(i + size, n))` that the query builder and the resolvers share. */
module Batching {

  function Min(a: int, b: int): int { if a < b then a else b }

  /** The batches of xs, in order: each holds the next min(size, remaining) elements. */
  function Batches<T>(xs: seq<T>, size: nat): (bs: seq<seq<T>>)
    requires size > 0
    ensures forall i :: 0 <= i < |bs| ==> 0 < |bs[i]| <= size
    decreases |xs|
  {
    if xs == [] then []
    else
      var end := Min(size, |xs|);
      [xs[..end]] + Batches(xs[end..], size)
  }

  function Flatten<T>(bs: seq<seq<T>>): seq<T> {
    if bs == [] then [] else bs[0] + Flatten(bs[1..])
  }

  /** The batches concatenate back to the input: nothing is lost, repeated or reordered. */
  lemma {:induction false} BatchesFlatten<T>(xs: seq<T>, size: nat)
    requires size > 0
    ensures Flatten(Batches(xs, size)) == xs
    decreases |xs|
  {
    if xs != [] {
      var end := Min(size, |xs|);
      BatchesFlatten(xs[end..], size);
      assert xs == xs[..end] + xs[end..];
    }
  }

  /** There are ceil(|xs| / size) batches: the count k is the one with (k - 1) * size < |xs| <= k * size. */
  lemma {:induction false} BatchesCount<T>(xs: seq<T>, size: nat)
    requires size > 0
    ensures |xs| <= |Batches(xs, size)| * size
    ensures xs != [] ==> (|Batches(xs, size)| - 1) * size < |xs|
    ensures xs == [] <==> Batches(xs, size) == []
    decreases |xs|
  {
    if xs != [] {
      var end := Min(size, |xs|);
      var k := |Batches(xs[end..], size)|;
      BatchesCount(xs[end..], size);
      assert (k + 1) * size == k * size + size;
    }
  }

  /** Batch i is the slice [i * size, min(i * size + size, |xs|)). */
  lemma {:induction false} BatchesAt<T>(xs: seq<T>, size: nat, i: nat)
    requires size > 0 && i < |Batches(xs, size)|
    ensures i * size < |xs|
    ensures Batches(xs, size)[i] == xs[i * size..Min(i * size + size, |xs|)]
    decreases |xs|
  {
    var end := Min(size, |xs|);
    var tail := xs[end..];
    assert Batches(xs, size) == [xs[..end]] + Batches(tail, size);
    if i > 0 {
      BatchesAt(tail, size, i - 1);
      var a := (i - 1) * size;
      MulPred(i, size);
      assert end == size;
      var b := Min(a + size, |tail|);
      SliceOfSuffix(xs, end, a, b);
    }
  }

  /** The batches of the elements from i on: the next slice of at most size elements, then the
      batches of what follows it. */
  lemma BatchesFrom<T>(xs: seq<T>, size: nat, i: nat)
    requires size > 0 && i < |xs|
    ensures Batches(xs[i..], size) == [xs[i..Min(i + size, |xs|)]] + Batches(xs[Min(i + size, |xs|)..], size)
  {
    var end := Min(size, |xs| - i);
    assert xs[i..][..end] == xs[i..Min(i + size, |xs|)];
    assert xs[i..][end..] == xs[Min(i + size, |xs|)..];
  }

  lemma MulPred(i: nat, size: nat)
    requires i > 0
    ensures (i - 1) * size + size == i * size
  {
  }

  lemma SliceOfSuffix<T>(xs: seq<T>, e: nat, a: nat, b: nat)
    requires e <= |xs| && a <= b <= |xs| - e
    ensures xs[e..][a..b] == xs[e + a..e + b]
  {
  }
}
