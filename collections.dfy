/** Sequence helpers standing in for pandas' `Series.unique()`. */
module Collections {

  predicate NoDuplicates<T(==)>(xs: seq<T>)
  {
    forall i, j :: 0 <= i < j < |xs| ==> xs[i] != xs[j]
  }

  /** `a` is `b` with some elements left out and the rest kept in their order. */
  predicate SubsequenceOf<T(==)>(a: seq<T>, b: seq<T>)
    decreases |b|
  {
    if a == [] then true
    else if b == [] then false
    else (a[0] == b[0] && SubsequenceOf(a[1..], b[1..])) || SubsequenceOf(a, b[1..])
  }

  /** Position of the first occurrence of `x` in `xs`. */
  function FirstIndex<T(==)>(xs: seq<T>, x: T): (i: nat)
    requires x in xs
    ensures i < |xs| && xs[i] == x
    ensures forall j :: 0 <= j < i ==> xs[j] != x
  {
    if xs[0] == x then 0 else 1 + FirstIndex(xs[1..], x)
  }

  /** pandas' `unique`: each value once, in the order it is first seen. */
  function Distinct<T(==, !new)>(xs: seq<T>): (r: seq<T>)
    ensures NoDuplicates(r)
    ensures forall x :: x in r <==> x in xs
    decreases |xs|
  {
    if xs == [] then []
    else
      var d := Distinct(xs[..|xs| - 1]);
      var last := xs[|xs| - 1];
      assert forall x :: x in xs <==> x in xs[..|xs| - 1] || x == last;
      if last in d then d else d + [last]
  }

  lemma {:induction false} FirstIndexOfPrefix<T>(xs: seq<T>, k: nat, x: T)
    requires k <= |xs| && x in xs[..k]
    ensures FirstIndex(xs, x) == FirstIndex(xs[..k], x)
  {
    if xs[0] != x {
      assert xs[1..][..k - 1] == xs[..k][1..];
      FirstIndexOfPrefix(xs[1..], k - 1, x);
    }
  }

  /** The values come out in the order of their first occurrence in the input. */
  lemma {:induction false} DistinctIsFirstSeenOrder<T(!new)>(xs: seq<T>)
    ensures forall i, j :: 0 <= i < j < |Distinct(xs)| ==>
      FirstIndex(xs, Distinct(xs)[i]) < FirstIndex(xs, Distinct(xs)[j])
    decreases |xs|
  {
    if xs != [] {
      var pre := xs[..|xs| - 1];
      var d := Distinct(pre);
      var last := xs[|xs| - 1];
      DistinctIsFirstSeenOrder(pre);
      forall x | x in d ensures FirstIndex(xs, x) == FirstIndex(pre, x) < |pre| {
        FirstIndexOfPrefix(xs, |pre|, x);
      }
      if last !in d {
        assert last !in pre;
        assert FirstIndex(xs, last) == |pre|;
        var r := d + [last];
        assert r == Distinct(xs);
        forall i, j | 0 <= i < j < |r| ensures FirstIndex(xs, r[i]) < FirstIndex(xs, r[j]) {
          assert r[i] in d && r[i] in xs && r[j] in xs;
          if j < |d| { assert r[j] in d; }
        }
      }
    }
  }
}
