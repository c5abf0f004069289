/** Python's string operations used on sheet names and group keys: `<`, `sorted`,
    `str.join`, `str.split` and slicing. Strings are sequences of code points. */
module Strings {

  /** Python's `a < b` on `str`: lexicographic order by code point. */
  predicate LexLess(a: string, b: string)
    decreases |a|
  {
    if |a| == 0 then |b| > 0
    else if |b| == 0 then false
    else a[0] < b[0] || (a[0] == b[0] && LexLess(a[1..], b[1..]))
  }

  lemma {:induction false} LexIrreflexive(a: string)
    ensures !LexLess(a, a)
    decreases |a|
  {
    if |a| > 0 { LexIrreflexive(a[1..]); }
  }

  lemma {:induction false} LexTransitive(a: string, b: string, c: string)
    requires LexLess(a, b) && LexLess(b, c)
    ensures LexLess(a, c)
    decreases |a|
  {
    if |a| > 0 && a[0] == b[0] && b[0] == c[0] {
      LexTransitive(a[1..], b[1..], c[1..]);
    }
  }

  /** Any two different strings are ordered one way or the other. */
  lemma {:induction false} LexTotal(a: string, b: string)
    ensures a == b || LexLess(a, b) || LexLess(b, a)
    decreases |a|
  {
    if |a| > 0 && |b| > 0 && a[0] == b[0] {
      LexTotal(a[1..], b[1..]);
      if a[1..] == b[1..] {
        assert a == [a[0]] + a[1..] && b == [b[0]] + b[1..];
      }
    }
  }

  lemma LexAsymmetric(a: string, b: string)
    requires LexLess(a, b)
    ensures !LexLess(b, a)
  {
    if LexLess(b, a) {
      LexTransitive(a, b, a);
      LexIrreflexive(a);
    }
  }

  /** Non-decreasing, as `sorted` returns. */
  predicate Sorted(xs: seq<string>)
  {
    forall i, j :: 0 <= i < j < |xs| ==> !LexLess(xs[j], xs[i])
  }

  predicate StrictlyIncreasing(xs: seq<string>)
  {
    forall i, j :: 0 <= i < j < |xs| ==> LexLess(xs[i], xs[j])
  }

  function InsertSorted(x: string, xs: seq<string>): (r: seq<string>)
    requires Sorted(xs)
    ensures Sorted(r)
    ensures multiset(r) == multiset(xs) + multiset{x}
  {
    if xs == [] then [x]
    else if LexLess(xs[0], x) then
      var rest := InsertSorted(x, xs[1..]);
      assert xs == [xs[0]] + xs[1..];
      assert forall y :: y in multiset(rest) ==> y == x || y in xs[1..];
      OrderedBefore(xs[0], x, xs[1..], rest);
      [xs[0]] + rest
    else
      forall j | 0 <= j < |xs| ensures !LexLess(xs[j], x) {
        if LexLess(xs[j], x) {
          LexTotal(xs[0], xs[j]);
          if LexLess(xs[0], xs[j]) { LexTransitive(xs[0], xs[j], x); }
        }
      }
      [x] + xs
  }

  /** Helper for InsertSorted: a head that is not above any later element keeps the result sorted. */
  lemma OrderedBefore(h: string, x: string, tail: seq<string>, rest: seq<string>)
    requires LexLess(h, x)
    requires forall j :: 0 <= j < |tail| ==> !LexLess(tail[j], h)
    requires forall y :: y in multiset(rest) ==> y == x || y in tail
    requires Sorted(rest)
    ensures Sorted([h] + rest)
  {
    forall j | 0 <= j < |rest| ensures !LexLess(rest[j], h) {
      assert rest[j] in multiset(rest);
      if rest[j] == x { LexAsymmetric(h, x); }
    }
  }

  /** Python's `sorted` on a list of strings (an insertion sort). */
  function Sort(xs: seq<string>): (r: seq<string>)
    ensures Sorted(r)
    ensures multiset(r) == multiset(xs)
  {
    if xs == [] then []
    else
      assert xs == [xs[0]] + xs[1..];
      InsertSorted(xs[0], Sort(xs[1..]))
  }

  /** Inserting a new value into a strictly increasing list keeps it strictly increasing. */
  lemma {:induction false} InsertStrictlyIncreasing(x: string, xs: seq<string>)
    requires StrictlyIncreasing(xs) && x !in xs
    ensures Sorted(xs)
    ensures StrictlyIncreasing(InsertSorted(x, xs))
  {
    forall i, j | 0 <= i < j < |xs| ensures !LexLess(xs[j], xs[i]) {
      LexAsymmetric(xs[i], xs[j]);
    }
    if xs != [] {
      if LexLess(xs[0], x) {
        InsertStrictlyIncreasing(x, xs[1..]);
        var rest := InsertSorted(x, xs[1..]);
        forall j | 0 <= j < |rest| ensures LexLess(xs[0], rest[j]) {
          assert rest[j] in multiset(rest);
          if rest[j] != x {
            assert rest[j] in xs[1..];
          }
        }
      } else {
        LexTotal(x, xs[0]);
        forall j | 0 <= j < |xs| ensures LexLess(x, xs[j]) {
          if j > 0 { LexTransitive(x, xs[0], xs[j]); }
        }
      }
    }
  }

  /** Sorting values that are all different gives a strictly increasing list of exactly those values. */
  lemma {:induction false} SortDistinct(xs: seq<string>)
    requires forall i, j :: 0 <= i < j < |xs| ==> xs[i] != xs[j]
    ensures StrictlyIncreasing(Sort(xs))
    ensures forall s :: s in Sort(xs) <==> s in xs
  {
    SortSameMembers(xs);
    if xs != [] {
      var rest := Sort(xs[1..]);
      SortDistinct(xs[1..]);
      assert xs[0] !in xs[1..];
      InsertStrictlyIncreasing(xs[0], rest);
    }
  }

  lemma SortSameMembers(xs: seq<string>)
    ensures forall s :: s in Sort(xs) <==> s in xs
  {
    var r := Sort(xs);
    assert forall s :: s in r <==> s in multiset(r);
    assert forall s :: s in xs <==> s in multiset(xs);
  }

  /** Two strictly increasing lists holding the same strings are the same list: a sorted list of
      distinct values is determined by its set of values. */
  lemma {:induction false} StrictlyIncreasingUnique(a: seq<string>, b: seq<string>)
    requires StrictlyIncreasing(a) && StrictlyIncreasing(b)
    requires forall s :: s in a <==> s in b
    ensures a == b
  {
    if a != [] && b != [] {
      assert a[0] == b[0] by {
        HeadIsLeast(a, b[0]);
        HeadIsLeast(b, a[0]);
        if a[0] != b[0] { LexAsymmetric(a[0], b[0]); }
      }
      forall s ensures s in a[1..] <==> s in b[1..] {
        if s in a[1..] {
          var k :| 1 <= k < |a| && a[k] == s;
          LexIrreflexive(a[0]);
          assert s != b[0] && s in b;
          var m :| 0 <= m < |b| && b[m] == s;
          assert b[1..][m - 1] == s;
        }
        if s in b[1..] {
          var k :| 1 <= k < |b| && b[k] == s;
          LexIrreflexive(b[0]);
          assert s != a[0] && s in a;
          var m :| 0 <= m < |a| && a[m] == s;
          assert a[1..][m - 1] == s;
        }
      }
      StrictlyIncreasingUnique(a[1..], b[1..]);
      assert a == [a[0]] + a[1..] && b == [b[0]] + b[1..];
    } else if a != [] {
      HeadIsMember(a);
      assert false;
    } else if b != [] {
      HeadIsMember(b);
      assert false;
    }
  }

  lemma HeadIsMember(a: seq<string>)
    requires a != []
    ensures a[0] in a
  {
  }

  lemma HeadIsLeast(a: seq<string>, s: string)
    requires StrictlyIncreasing(a) && s in a
    ensures s == a[0] || LexLess(a[0], s)
  {
    var k :| 0 <= k < |a| && a[k] == s;
  }

  /** Python's `sep.join(xs)`. */
  function Join(sep: string, xs: seq<string>): string
  {
    if |xs| == 0 then ""
    else if |xs| == 1 then xs[0]
    else xs[0] + sep + Join(sep, xs[1..])
  }

  /** Python's `s.split(c)` for a one-character separator: never an empty list. */
  function Split(s: string, c: char): (r: seq<string>)
    ensures |r| > 0
  {
    if |s| == 0 then [""]
    else
      var rest := Split(s[1..], c);
      if s[0] == c then [""] + rest else [[s[0]] + rest[0]] + rest[1..]
  }

  lemma {:induction false} SplitNoSeparator(a: string, c: char)
    requires c !in a
    ensures Split(a, c) == [a]
  {
    if |a| > 0 {
      SplitNoSeparator(a[1..], c);
      assert a == [a[0]] + a[1..];
    }
  }

  lemma {:induction false} SplitAfterSeparator(a: string, c: char, t: string)
    requires c !in a
    ensures Split(a + [c] + t, c) == [a] + Split(t, c)
  {
    var s := a + [c] + t;
    if |a| == 0 {
      assert s[1..] == t;
    } else {
      assert s[1..] == a[1..] + [c] + t;
      SplitAfterSeparator(a[1..], c, t);
      assert a == [a[0]] + a[1..];
    }
  }

  /** Splitting a join recovers the parts, when no part contains the separator. */
  lemma {:induction false} SplitJoin(xs: seq<string>, c: char)
    requires |xs| > 0
    requires forall i :: 0 <= i < |xs| ==> c !in xs[i]
    ensures Split(Join([c], xs), c) == xs
  {
    if |xs| == 1 {
      SplitNoSeparator(xs[0], c);
    } else {
      SplitJoin(xs[1..], c);
      SplitAfterSeparator(xs[0], c, Join([c], xs[1..]));
      assert xs == [xs[0]] + xs[1..];
    }
  }

  /** Python's `s[:n]`. */
  function Truncate(s: string, n: nat): (r: string)
    ensures |r| <= n
    ensures |r| == if |s| <= n then |s| else n
    ensures r == s[..|r|]
  {
    if |s| <= n then s else s[..n]
  }
}
