/** Positions of sequences, and sequences with one element left out. */
module Sequences {
  import opened Prelude

  /** The element at a position, if there is one. */
  function At<T>(xs: seq<T>, i: int): Option<T> {
    if 0 <= i < |xs| then Some(xs[i]) else None
  }

  function RemoveAt<T>(xs: seq<T>, i: nat): (r: seq<T>)
    requires i < |xs|
    ensures |r| == |xs| - 1
    ensures forall j {:trigger r[j]} :: 0 <= j < |r| ==> r[j] == xs[if j < i then j else j + 1]
  {
    xs[..i] + xs[i + 1..]
  }

  lemma RemoveAtMultiset<T>(xs: seq<T>, i: nat)
    requires i < |xs|
    ensures multiset(xs) == multiset(RemoveAt(xs, i)) + multiset{xs[i]}
  {
    assert xs == xs[..i] + [xs[i]] + xs[i + 1..];
  }

  lemma RemoveAtContents<T>(xs: seq<T>, i: nat)
    requires NoDup(xs) && i < |xs|
    ensures NoDup(RemoveAt(xs, i))
    ensures forall y :: y in RemoveAt(xs, i) <==> y in xs && y != xs[i]
  {
    forall y | y in xs && y != xs[i]
      ensures y in RemoveAt(xs, i)
    {
      var k :| 0 <= k < |xs| && xs[k] == y;
      assert RemoveAt(xs, i)[if k < i then k else k - 1] == y;
    }
  }

  lemma NoDupTail<T>(xs: seq<T>)
    requires NoDup(xs) && xs != []
    ensures NoDup(xs[1..])
  {
  }

  lemma CutTail<T>(xs: seq<T>, i: nat)
    requires 0 < i < |xs|
    ensures [xs[0]] + (xs[1..][..i - 1] + xs[1..][i..]) == xs[..i] + xs[i + 1..]
  {
  }

  lemma {:induction false} WithoutIsCut<T>(xs: seq<T>, i: nat)
    requires NoDup(xs) && i < |xs|
    ensures Without(xs, xs[i]) == xs[..i] + xs[i + 1..]
    decreases i
  {
    if i == 0 {
      assert xs[..0] + xs[1..] == xs[1..];
    } else {
      NoDupTail(xs);
      WithoutIsCut(xs[1..], i - 1);
      CutTail(xs, i);
    }
  }

  /** Removing an element by value or by position is the same if it occurs once. */
  lemma WithoutIsRemoveAt<T>(xs: seq<T>, i: nat)
    requires NoDup(xs) && i < |xs|
    ensures Without(xs, xs[i]) == RemoveAt(xs, i)
  {
    WithoutIsCut(xs, i);
  }
}
