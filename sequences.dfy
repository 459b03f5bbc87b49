/** Small facts about sequences that the fold lemmas of the parsers share. */
module Sequences {

  /** Appending is associative. */
  lemma AppendAssoc<T>(a: seq<T>, b: seq<T>, c: seq<T>)
    ensures a + (b + c) == (a + b) + c
  {
  }

  /** Putting the first element of src after m, then the rest, gives m + src. */
  lemma AppendFirst<T>(m: seq<T>, src: seq<T>)
    requires src != []
    ensures (m + [src[0]]) + src[1..] == m + src
  {
    assert src == [src[0]] + src[1..];
  }

  /** Mapping f over xs with element i dropped is mapping it over xs, then dropping result i. */
  lemma MapDrop<A, B>(f: A -> B, xs: seq<A>, ys: seq<B>, zs: seq<B>, i: nat)
    requires i < |xs| && |ys| == |xs| && |zs| == |xs| - 1
    requires forall j :: 0 <= j < |xs| ==> ys[j] == f(xs[j])
    requires forall j :: 0 <= j < |zs| ==> zs[j] == f((xs[..i] + xs[i + 1..])[j])
    ensures zs == ys[..i] + ys[i + 1..]
  {
    forall j | 0 <= j < |zs| ensures zs[j] == (ys[..i] + ys[i + 1..])[j] {
      if j < i {
        assert (xs[..i] + xs[i + 1..])[j] == xs[j];
      } else {
        assert (xs[..i] + xs[i + 1..])[j] == xs[j + 1];
      }
    }
  }

  /** p holds everywhere in a non-empty sequence exactly when it holds at its head and
      everywhere in its tail. */
  lemma AllCons<T>(xs: seq<T>, p: T -> bool)
    requires xs != []
    ensures (forall k :: 0 <= k < |xs| ==> p(xs[k])) <==>
            p(xs[0]) && forall k :: 0 <= k < |xs[1..]| ==> p(xs[1..][k])
  {
    if p(xs[0]) && forall k :: 0 <= k < |xs[1..]| ==> p(xs[1..][k]) {
      forall k | 0 < k < |xs| ensures p(xs[k]) {
        assert xs[k] == xs[1..][k - 1];
      }
    }
  }

  /** p holds somewhere in a non-empty sequence exactly when it holds at its head or
      somewhere in its tail. */
  lemma ExistsCons<T>(xs: seq<T>, p: T -> bool)
    requires xs != []
    ensures (exists k :: 0 <= k < |xs| && p(xs[k])) <==>
            p(xs[0]) || exists k :: 0 <= k < |xs[1..]| && p(xs[1..][k])
  {
    if exists k :: 0 <= k < |xs[1..]| && p(xs[1..][k]) {
      var k :| 0 <= k < |xs[1..]| && p(xs[1..][k]);
      assert xs[k + 1] == xs[1..][k];
    }
    if exists k :: 0 <= k < |xs| && p(xs[k]) {
      var k :| 0 <= k < |xs| && p(xs[k]);
      if k > 0 {
        assert xs[1..][k - 1] == xs[k];
      }
    }
  }
}
