/**
  The JavaScript array operations the components use, on `seq`: `Array.prototype.filter`,
  and the insertion-ordered `Set` that `Array.from(new Set(...))` turns back into an array.
*/
module Lists {

  /** `xs.filter(keep)`: every element that passes is kept as often as it occurs, and no
      other element is. */
  function Filter<T(!new)>(xs: seq<T>, keep: T -> bool): (r: seq<T>)
    ensures |r| <= |xs|
    ensures forall x :: x in r <==> x in xs && keep(x)
    ensures forall x :: multiset(r)[x] == if keep(x) then multiset(xs)[x] else 0
  {
    if xs == [] then []
    else
      assert xs == [xs[0]] + xs[1..];
      (if keep(xs[0]) then [xs[0]] else []) + Filter(xs[1..], keep)
  }

  /** `a` is `b` with some elements left out, the rest in the same order. */
  ghost predicate IsSubsequence<T>(a: seq<T>, b: seq<T>)
    decreases |b|
  {
    if a == [] then true
    else if b == [] then false
    else (a[0] == b[0] && IsSubsequence(a[1..], b[1..])) || IsSubsequence(a, b[1..])
  }

  lemma {:induction false} SubsequenceOfEmpty<T>(b: seq<T>)
    ensures IsSubsequence([], b)
  {
  }

  /** A filter keeps the order of what it keeps. */
  lemma {:induction false} FilterIsSubsequence<T(!new)>(xs: seq<T>, keep: T -> bool)
    ensures IsSubsequence(Filter(xs, keep), xs)
  {
    if xs != [] {
      FilterIsSubsequence(xs[1..], keep);
      var rest := Filter(xs[1..], keep);
      if keep(xs[0]) {
        assert Filter(xs, keep) == [xs[0]] + rest;
        assert ([xs[0]] + rest)[1..] == rest;
      } else {
        assert Filter(xs, keep) == rest;
        if rest != [] {
          assert IsSubsequence(rest, xs[1..]);
        }
      }
    }
  }

  /** A filter that keeps everything returns the array unchanged. */
  lemma {:induction false} FilterKeepAll<T(!new)>(xs: seq<T>, keep: T -> bool)
    requires forall x :: x in xs ==> keep(x)
    ensures Filter(xs, keep) == xs
  {
    if xs != [] {
      assert keep(xs[0]);
      assert forall x :: x in xs[1..] ==> x in xs;
      FilterKeepAll(xs[1..], keep);
      assert Filter(xs, keep) == [xs[0]] + xs[1..];
    }
  }

  /** Two tests that agree on every element filter alike. */
  lemma {:induction false} FilterSameTest<T(!new)>(xs: seq<T>, f: T -> bool, g: T -> bool)
    requires forall x :: x in xs ==> f(x) == g(x)
    ensures Filter(xs, f) == Filter(xs, g)
  {
    if xs != [] {
      assert forall x :: x in xs[1..] ==> x in xs;
      FilterSameTest(xs[1..], f, g);
    }
  }

  lemma {:induction false} SubsequenceCons<T>(a: seq<T>, b: seq<T>, x: T)
    requires IsSubsequence(a, b)
    ensures IsSubsequence(a, [x] + b)
  {
    assert ([x] + b)[1..] == b;
  }

  lemma {:induction false} SubsequenceBothCons<T>(a: seq<T>, b: seq<T>, x: T)
    requires IsSubsequence(a, b)
    ensures IsSubsequence([x] + a, [x] + b)
  {
    assert ([x] + a)[1..] == a && ([x] + b)[1..] == b;
  }

  /** A stricter test keeps a subsequence of what a looser test keeps. */
  lemma {:induction false} FilterStricter<T(!new)>(xs: seq<T>, strict: T -> bool, loose: T -> bool)
    requires forall x :: x in xs && strict(x) ==> loose(x)
    ensures IsSubsequence(Filter(xs, strict), Filter(xs, loose))
    decreases |xs|
  {
    if xs != [] {
      var x, tail := xs[0], xs[1..];
      assert forall y :: y in tail ==> y in xs;
      FilterStricter(tail, strict, loose);
      var s, l := Filter(tail, strict), Filter(tail, loose);
      if strict(x) {
        assert Filter(xs, strict) == [x] + s && Filter(xs, loose) == [x] + l;
        SubsequenceBothCons(s, l, x);
      } else if loose(x) {
        assert Filter(xs, strict) == s && Filter(xs, loose) == [x] + l;
        SubsequenceCons(s, l, x);
      } else {
        assert Filter(xs, strict) == s && Filter(xs, loose) == l;
      }
    }
  }

  /** Everything in a subsequence is in the sequence it was taken from. */
  lemma {:induction false} SubsequenceMembers<T>(a: seq<T>, b: seq<T>)
    requires IsSubsequence(a, b)
    ensures forall x :: x in a ==> x in b
    decreases |b|
  {
    if a != [] {
      if a[0] == b[0] && IsSubsequence(a[1..], b[1..]) {
        SubsequenceMembers(a[1..], b[1..]);
        forall x | x in a ensures x in b {
          if x != a[0] {
            assert x in a[1..];
          }
        }
      } else {
        SubsequenceMembers(a, b[1..]);
      }
    }
  }

  // ---------------------------------------------------------------------------------------
  // Insertion-ordered sets

  /** The elements of `xs` in the order a `Set` built by adding them one by one holds them:
      each element once, where it first occurred. */
  function Distinct<T(==,!new)>(xs: seq<T>): seq<T>
    decreases |xs|
  {
    if xs == [] then []
    else
      var d := Distinct(xs[..|xs| - 1]);
      if xs[|xs| - 1] in d then d else d + [xs[|xs| - 1]]
  }

  ghost predicate NoDuplicates<T>(s: seq<T>) {
    forall i, j :: 0 <= i < j < |s| ==> s[i] != s[j]
  }

  /** The position of the first occurrence of `x` in `xs` (or `|xs|` when absent). */
  function FirstIndex<T(==)>(xs: seq<T>, x: T): (k: nat)
    ensures k <= |xs| && (k < |xs| ==> xs[k] == x) && x !in xs[..k]
  {
    if xs == [] then 0
    else if xs[0] == x then 0
    else
      var k := FirstIndex(xs[1..], x);
      assert xs[..k + 1] == [xs[0]] + xs[1..][..k];
      k + 1
  }

  lemma {:induction false} FirstIndexOfPrefix<T(!new)>(xs: seq<T>, y: T, x: T)
    requires x in xs
    ensures FirstIndex(xs + [y], x) == FirstIndex(xs, x)
  {
    var k := FirstIndex(xs, x);
    var zs := xs + [y];
    assert zs[..k] == xs[..k];
    assert zs[k] == x;
  }

  /** The insertion-ordered set: each element exactly once, nothing that is not in `xs`,
      and elements ordered by their first occurrence in `xs`. */
  lemma {:induction false} DistinctSpec<T(!new)>(xs: seq<T>)
    ensures forall x :: x in Distinct(xs) <==> x in xs
    ensures NoDuplicates(Distinct(xs))
    ensures forall i, j :: 0 <= i < j < |Distinct(xs)| ==>
      FirstIndex(xs, Distinct(xs)[i]) < FirstIndex(xs, Distinct(xs)[j])
    decreases |xs|
  {
    if xs != [] {
      var init, last := xs[..|xs| - 1], xs[|xs| - 1];
      assert xs == init + [last];
      DistinctSpec(init);
      var d := Distinct(init);
      forall x | x in init ensures FirstIndex(xs, x) == FirstIndex(init, x) {
        FirstIndexOfPrefix(init, last, x);
      }
      if last !in d {
        var e := d + [last];
        assert FirstIndex(xs, last) == |init| by {
          assert last !in init;
          assert xs[..|init|] == init;
        }
        forall i, j | 0 <= i < j < |e| ensures FirstIndex(xs, e[i]) < FirstIndex(xs, e[j]) {
          if j < |d| {
            assert e[i] == d[i] && e[j] == d[j];
          } else {
            assert e[i] == d[i] && d[i] in init;
            assert FirstIndex(init, d[i]) < |init|;
          }
        }
      }
    }
  }

  /** A sequence whose elements are already distinct is its own insertion-ordered set. */
  lemma {:induction false} DistinctOfDistinctElements<T(!new)>(xs: seq<T>)
    requires NoDuplicates(xs)
    ensures Distinct(xs) == xs
    decreases |xs|
  {
    if xs != [] {
      var init := xs[..|xs| - 1];
      DistinctOfDistinctElements(init);
      assert xs == init + [xs[|xs| - 1]];
    }
  }
}
