/**
 `merge_intervals` of the log analyser: overlapping busy intervals of a process become
 disjoint ones, and their total is the time it was busy. Times are whole microseconds, the
 resolution of the log's timestamps.
 */
module Intervals {

  type Interval = (int, int)

  predicate Proper(ivs: seq<Interval>) {
    forall i :: 0 <= i < |ivs| ==> ivs[i].0 <= ivs[i].1
  }

  predicate Ordered(ivs: seq<Interval>) {
    forall i, j :: 0 <= i < j < |ivs| ==> ivs[i].0 <= ivs[j].0
  }

  /** Sorted, and with a gap between any two. */
  predicate Separated(ivs: seq<Interval>) {
    forall i, j :: 0 <= i < j < |ivs| ==> ivs[i].1 < ivs[j].0
  }

  /** The instant x lies in some interval, ends included. */
  predicate Covered(ivs: seq<Interval>, x: int) {
    exists i :: 0 <= i < |ivs| && ivs[i].0 <= x <= ivs[i].1
  }

  function Sum(ivs: seq<Interval>): int {
    if ivs == [] then 0 else Sum(ivs[..|ivs| - 1]) + (ivs[|ivs| - 1].1 - ivs[|ivs| - 1].0)
  }

  // ---------------------------------------------------------------- the measure of a union

  /** The whole numbers from `a` up to, not including, `b`. */
  function Range(a: int, b: int): (r: set<int>)
    ensures forall x :: x in r <==> a <= x < b
    ensures a <= b ==> |r| == b - a
    decreases b - a
  {
    if b <= a then {} else Range(a, b - 1) + {b - 1}
  }

  /**
   Union of the intervals, each prolonged by `c`. With c = 0 it holds the microseconds that pass
   during at least one interval, so its size is the measure of the union; with c = 1, the instants
   that lie in one, ends included.
   */
  function Union(ivs: seq<Interval>, c: nat): set<int> {
    if ivs == [] then {} else Union(ivs[..|ivs| - 1], c) + Range(ivs[|ivs| - 1].0, ivs[|ivs| - 1].1 + c)
  }

  predicate Hit(iv: Interval, c: nat, x: int) {
    iv.0 <= x < iv.1 + c
  }

  lemma {:induction false} InUnion(ivs: seq<Interval>, c: nat, x: int)
    ensures x in Union(ivs, c) <==> exists i :: 0 <= i < |ivs| && Hit(ivs[i], c, x)
  {
    if ivs != [] {
      var init, last := ivs[..|ivs| - 1], ivs[|ivs| - 1];
      InUnion(init, c, x);
      if i :| 0 <= i < |init| && Hit(init[i], c, x) {
        assert Hit(ivs[i], c, x);
      }
      if i :| 0 <= i < |ivs| && Hit(ivs[i], c, x) {
        assert i < |init| ==> Hit(init[i], c, x);
      }
    }
  }

  lemma {:induction false} SeparatedMeasure(ivs: seq<Interval>)
    requires Proper(ivs) && Separated(ivs)
    ensures |Union(ivs, 0)| == Sum(ivs)
  {
    if ivs != [] {
      var init, last := ivs[..|ivs| - 1], ivs[|ivs| - 1];
      SeparatedMeasure(init);
      var mine := Range(last.0, last.1 + 0);
      forall x | x in Union(init, 0) ensures x !in mine {
        InUnion(init, 0, x);
        var i :| 0 <= i < |init| && Hit(init[i], 0, x);
        assert ivs[i].1 < ivs[|ivs| - 1].0;
      }
      assert |Union(init, 0) + mine| == |Union(init, 0)| + |mine|;
    }
  }

  /** Adding up durations counts every overlap again. */
  lemma {:induction false} MeasureAtMostSum(ivs: seq<Interval>)
    requires Proper(ivs)
    ensures |Union(ivs, 0)| <= Sum(ivs)
  {
    if ivs != [] {
      var init, last := ivs[..|ivs| - 1], ivs[|ivs| - 1];
      MeasureAtMostSum(init);
      assert |Union(init, 0) + Range(last.0, last.1 + 0)| <= |Union(init, 0)| + |Range(last.0, last.1 + 0)|;
    }
  }

  // ---------------------------------------------------------------- sorted(..., key=start)

  function Insert(ivs: seq<Interval>, iv: Interval): seq<Interval> {
    if ivs == [] || ivs[|ivs| - 1].0 <= iv.0 then ivs + [iv]
    else Insert(ivs[..|ivs| - 1], iv) + [ivs[|ivs| - 1]]
  }

  /** Python's stable sort by start time. */
  function SortByStart(ivs: seq<Interval>): seq<Interval> {
    if ivs == [] then [] else Insert(SortByStart(ivs[..|ivs| - 1]), ivs[|ivs| - 1])
  }

  lemma {:induction false} InsertPermutes(ivs: seq<Interval>, iv: Interval)
    ensures multiset(Insert(ivs, iv)) == multiset(ivs) + multiset{iv}
  {
    if ivs != [] {
      InsertPermutes(ivs[..|ivs| - 1], iv);
      assert ivs == ivs[..|ivs| - 1] + [ivs[|ivs| - 1]];
    }
  }

  lemma {:induction false} InsertOrders(ivs: seq<Interval>, iv: Interval)
    requires Ordered(ivs)
    ensures Ordered(Insert(ivs, iv))
  {
    if ivs != [] && ivs[|ivs| - 1].0 > iv.0 {
      var init, last := ivs[..|ivs| - 1], ivs[|ivs| - 1];
      InsertOrders(init, iv);
      InsertPermutes(init, iv);
      var r := Insert(init, iv);
      forall i | 0 <= i < |r| ensures r[i].0 <= last.0 {
        assert r[i] in multiset(r);
        assert r[i] == iv || r[i] in init;
      }
    }
  }

  lemma {:induction false} SortIs(ivs: seq<Interval>)
    ensures Ordered(SortByStart(ivs)) && multiset(SortByStart(ivs)) == multiset(ivs)
  {
    if ivs != [] {
      var init, last := ivs[..|ivs| - 1], ivs[|ivs| - 1];
      SortIs(init);
      InsertOrders(SortByStart(init), last);
      InsertPermutes(SortByStart(init), last);
      assert ivs == init + [last];
    }
  }

  // ---------------------------------------------------------------- the merge

  predicate SameUnion(a: seq<Interval>, b: seq<Interval>) {
    Union(a, 0) == Union(b, 0) && Union(a, 1) == Union(b, 1)
  }

  lemma UnionAppend(ivs: seq<Interval>, iv: Interval, c: nat)
    ensures Union(ivs + [iv], c) == Union(ivs, c) + Range(iv.0, iv.1 + c)
  {
    assert (ivs + [iv])[..|ivs|] == ivs;
  }

  lemma AppendUnion(merged: seq<Interval>, ivs: seq<Interval>, iv: Interval, c: nat)
    requires Union(merged, c) == Union(ivs, c)
    ensures Union(merged + [iv], c) == Union(ivs + [iv], c)
  {
    UnionAppend(merged, iv, c);
    UnionAppend(ivs, iv, c);
  }

  lemma InAppend(ivs: seq<Interval>, iv: Interval, c: nat, x: int)
    ensures x in Union(ivs + [iv], c) <==> x in Union(ivs, c) || Hit(iv, c, x)
  {
    UnionAppend(ivs, iv, c);
  }

  /** An interval that starts inside the last one only stretches it. */
  lemma StretchUnion(init: seq<Interval>, last: Interval, ivs: seq<Interval>, iv: Interval, c: nat, end: int)
    requires Union(init + [last], c) == Union(ivs, c) && last.0 <= iv.0 <= last.1 && iv.0 <= iv.1
    requires end == if iv.1 > last.1 then iv.1 else last.1
    ensures Union(init + [(last.0, end)], c) == Union(ivs + [iv], c)
  {
    forall x ensures x in Union(init + [(last.0, end)], c) <==> x in Union(ivs + [iv], c) {
      InAppend(init, last, c, x);
      InAppend(init, (last.0, end), c, x);
      InAppend(ivs, iv, c, x);
    }
  }

  /** One turn of the loop. */
  function Absorb(merged: seq<Interval>, iv: Interval): seq<Interval>
    requires merged != []
  {
    var last := merged[|merged| - 1];
    if iv.0 > last.1 then merged + [iv]
    else merged[..|merged| - 1] + [(last.0, if iv.1 > last.1 then iv.1 else last.1)]
  }

  lemma AbsorbUnion(merged: seq<Interval>, ivs: seq<Interval>, iv: Interval)
    requires merged != [] && SameUnion(merged, ivs) && merged[|merged| - 1].0 <= iv.0 <= iv.1
    ensures SameUnion(Absorb(merged, iv), ivs + [iv])
  {
    var init, last := merged[..|merged| - 1], merged[|merged| - 1];
    assert merged == init + [last];
    if iv.0 > last.1 {
      AppendUnion(merged, ivs, iv, 0);
      AppendUnion(merged, ivs, iv, 1);
    } else {
      var end := if iv.1 > last.1 then iv.1 else last.1;
      StretchUnion(init, last, ivs, iv, 0, end);
      StretchUnion(init, last, ivs, iv, 1, end);
    }
  }

  lemma AbsorbSeparated(merged: seq<Interval>, iv: Interval)
    requires merged != [] && Proper(merged) && Separated(merged) && merged[|merged| - 1].0 <= iv.0 <= iv.1
    ensures var r := Absorb(merged, iv);
            r != [] && Proper(r) && Separated(r) && r[|r| - 1].0 <= iv.0
  {
  }

  /** `merged` is the merge of `ivs`, the last of which starts no later than any interval to come. */
  ghost predicate MergeOf(merged: seq<Interval>, ivs: seq<Interval>) {
    && merged != [] && Proper(merged) && Separated(merged) && SameUnion(merged, ivs)
    && ivs != [] && merged[|merged| - 1].0 <= ivs[|ivs| - 1].0
  }

  lemma AbsorbKeeps(merged: seq<Interval>, ivs: seq<Interval>, iv: Interval)
    requires MergeOf(merged, ivs) && ivs[|ivs| - 1].0 <= iv.0 <= iv.1
    ensures MergeOf(Absorb(merged, iv), ivs + [iv])
  {
    AbsorbUnion(merged, ivs, iv);
    AbsorbSeparated(merged, iv);
  }

  /** One turn of the merging loop. */
  lemma AbsorbNext(merged: seq<Interval>, ordered: seq<Interval>, i: nat)
    requires 0 < i < |ordered| && Proper(ordered) && Ordered(ordered) && MergeOf(merged, ordered[..i])
    ensures MergeOf(Absorb(merged, ordered[i]), ordered[..i + 1])
  {
    AbsorbKeeps(merged, ordered[..i], ordered[i]);
    assert ordered[..i + 1] == ordered[..i] + [ordered[i]];
  }

  method AbsorbOne(merged: seq<Interval>, iv: Interval) returns (r: seq<Interval>)
    requires merged != []
    ensures r == Absorb(merged, iv)
  {
    r := merged;
    var last := merged[|merged| - 1];
    if iv.0 <= last.1 {
      if iv.1 > last.1 {
        r := r[|r| - 1 := (last.0, iv.1)];
      }
    } else {
      r := r + [iv];
    }
  }

  /** The loop over the sorted intervals. */
  method MergeOrdered(ordered: seq<Interval>) returns (merged: seq<Interval>)
    requires ordered != [] && Proper(ordered) && Ordered(ordered)
    ensures MergeOf(merged, ordered)
  {
    merged := [ordered[0]];
    assert ordered[..1] == merged;
    for i := 1 to |ordered|
      invariant MergeOf(merged, ordered[..i])
    {
      AbsorbNext(merged, ordered, i);
      merged := AbsorbOne(merged, ordered[i]);
    }
    assert ordered[..|ordered|] == ordered;
  }

  method TotalOf(ivs: seq<Interval>) returns (total: int)
    ensures total == Sum(ivs)
  {
    total := 0;
    for i := 0 to |ivs|
      invariant total == Sum(ivs[..i])
    {
      total := total + (ivs[i].1 - ivs[i].0);
      assert ivs[..i + 1][..i] == ivs[..i];
    }
    assert ivs[..|ivs|] == ivs;
  }

  lemma PermutedUnion(a: seq<Interval>, b: seq<Interval>, c: nat)
    requires multiset(a) == multiset(b)
    ensures Union(a, c) == Union(b, c)
  {
    forall x ensures x in Union(a, c) <==> x in Union(b, c) {
      InUnion(a, c, x);
      InUnion(b, c, x);
      PermutedHit(a, b, c, x);
      PermutedHit(b, a, c, x);
    }
  }

  lemma PermutedHit(a: seq<Interval>, b: seq<Interval>, c: nat, x: int)
    requires multiset(a) == multiset(b)
    ensures (exists i :: 0 <= i < |a| && Hit(a[i], c, x)) ==> exists j :: 0 <= j < |b| && Hit(b[j], c, x)
  {
    if i :| 0 <= i < |a| && Hit(a[i], c, x) {
      assert a[i] in multiset(a) && a[i] in b;
      var j :| 0 <= j < |b| && b[j] == a[i];
      assert Hit(b[j], c, x);
    }
  }

  lemma PermutedProper(a: seq<Interval>, b: seq<Interval>)
    requires multiset(a) == multiset(b) && Proper(a)
    ensures Proper(b)
  {
    forall i | 0 <= i < |b| ensures b[i].0 <= b[i].1 {
      assert b[i] in multiset(b) && b[i] in a;
    }
  }

  lemma CoveredIs(ivs: seq<Interval>, x: int)
    ensures Covered(ivs, x) <==> x in Union(ivs, 1)
  {
    InUnion(ivs, 1, x);
    if i :| 0 <= i < |ivs| && Hit(ivs[i], 1, x) {
      assert ivs[i].0 <= x <= ivs[i].1;
    }
    if i :| 0 <= i < |ivs| && ivs[i].0 <= x <= ivs[i].1 {
      assert Hit(ivs[i], 1, x);
    }
  }

  /**
   `merge_intervals`: sorted and strictly separated intervals that cover the same instants,
   and as total the measure of the union, which the plain sum of durations never undercuts.
   */
  method MergeIntervals(ivs: seq<Interval>) returns (merged: seq<Interval>, total: int)
    requires Proper(ivs)
    ensures Proper(merged) && Separated(merged)
    ensures forall x :: Covered(merged, x) <==> Covered(ivs, x)
    ensures total == |Union(ivs, 0)| <= Sum(ivs)
  {
    MeasureAtMostSum(ivs);
    if ivs == [] { return [], 0; }
    var ordered := SortByStart(ivs);
    SortIs(ivs);
    PermutedUnion(ivs, ordered, 0);
    PermutedUnion(ivs, ordered, 1);
    PermutedProper(ivs, ordered);
    assert |ordered| == |multiset(ordered)| == |ivs|;
    merged := MergeOrdered(ordered);
    total := TotalOf(merged);
    SeparatedMeasure(merged);
    forall x ensures Covered(merged, x) <==> Covered(ivs, x) {
      CoveredIs(merged, x);
      CoveredIs(ivs, x);
    }
  }
}
