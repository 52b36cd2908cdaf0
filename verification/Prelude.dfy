/** Small shared vocabulary: optional values, duplicate-free sequences, finite counting. */
module Prelude {

  datatype Option<+T> = None | Some(value: T)

  ghost predicate NoDup<T>(xs: seq<T>) {
    forall i, j :: 0 <= i < j < |xs| ==> xs[i] != xs[j]
  }

  /** `xs` without its first occurrence of `x`. */
  function Without<T(==)>(xs: seq<T>, x: T): seq<T> {
    if xs == [] then []
    else if xs[0] == x then xs[1..]
    else [xs[0]] + Without(xs[1..], x)
  }

  lemma {:induction false} WithoutContents<T>(xs: seq<T>, x: T)
    requires NoDup(xs)
    ensures NoDup(Without(xs, x))
    ensures forall y :: y in Without(xs, x) <==> y in xs && y != x
  {
    if xs != [] {
      WithoutContents(xs[1..], x);
      assert xs == [xs[0]] + xs[1..];
      if xs[0] != x {
        var w := Without(xs[1..], x);
        assert Without(xs, x) == [xs[0]] + w;
        assert xs[0] !in w;
      }
    }
  }

  lemma NoDupCons<T>(x: T, xs: seq<T>)
    requires NoDup(xs) && x !in xs
    ensures NoDup([x] + xs)
  {
  }
}
