/** Cardinality facts behind the pigeonhole arguments. */
module Counting {

  predicate Distinct<T(==)>(xs: seq<T>) {
    forall i, j :: 0 <= i < j < |xs| ==> xs[i] != xs[j]
  }

  /** The ids 1..n. */
  function Upto(n: nat): (r: set<int>)
    ensures |r| == n
    ensures forall x :: x in r <==> 1 <= x <= n
  {
    if n == 0 then {} else Upto(n - 1) + {n}
  }

  lemma {:induction false} DistinctCard<T>(xs: seq<T>)
    requires Distinct(xs)
    ensures |set x | x in xs| == |xs|
  {
    if xs != [] {
      var init, last := xs[..|xs| - 1], xs[|xs| - 1];
      DistinctCard(init);
      assert xs == init + [last];
      assert (set x | x in xs) == (set x | x in init) + {last};
    }
  }

  lemma {:induction false} CardMonotone<T>(a: set<T>, b: set<T>)
    requires a <= b
    ensures |a| <= |b|
  {
    if a != {} {
      var x :| x in a;
      CardMonotone(a - {x}, b - {x});
    }
  }

  /** A subset as large as the whole set is the whole set. */
  lemma SubsetAll<T>(a: set<T>, b: set<T>)
    requires a <= b && |a| >= |b|
    ensures a == b
  {
    forall x | x in b ensures x in a {
      if x !in a {
        CardMonotone(a, b - {x});
      }
    }
  }

  /** Distinct items of a set, as many as the set has, are all of the set. */
  lemma Pigeonhole<T>(xs: seq<T>, all: set<T>)
    requires Distinct(xs) && (forall i :: 0 <= i < |xs| ==> xs[i] in all)
    ensures |xs| <= |all|
    ensures |xs| == |all| ==> (set x | x in xs) == all
  {
    DistinctCard(xs);
    CardMonotone((set x | x in xs), all);
    if |xs| == |all| {
      SubsetAll((set x | x in xs), all);
    }
  }

  /** Distinct ids of 1..n that fill all n places are all of them. */
  lemma FullMeansEveryone(xs: seq<int>, n: nat, id: int)
    requires Distinct(xs) && |xs| >= n && 1 <= id <= n
    requires forall i :: 0 <= i < |xs| ==> 1 <= xs[i] <= n
    ensures id in xs
  {
    Pigeonhole(xs, Upto(n));
    assert id in Upto(n) && id in (set x | x in xs);
  }

  lemma DistinctConcat<T>(a: seq<T>, b: seq<T>)
    requires Distinct(a) && Distinct(b) && forall x :: x in a ==> x !in b
    ensures Distinct(a + b)
  {
    forall i, j | 0 <= i < j < |a + b| ensures (a + b)[i] != (a + b)[j] {
      if i < |a| <= j {
        assert a[i] in a && b[j - |a|] in b;
      }
    }
  }
}
