/**
 * Normalisation of a gesture into a point cloud: resampling to a fixed
 * number of points spaced evenly along the path, uniform scaling into the
 * unit box, and translation of the centroid to the origin.
 */
module Normalizer {
  import opened Geometry

  const NumPoints: int := 32
  const Origin: Point := Point(0.0, 0.0, 0)

  /**
   * A JavaScript array of points, shared by reference. Resample splices the
   * points it creates into the array it was given, so every other holder of
   * the same array sees them.
   */
  class PointList {
    var elems: seq<Point>

    constructor (s: seq<Point>)
      ensures elems == s
    {
      elems := s;
    }
  }

  lemma CancelPositive(a: real, b: real, c: real)
    requires 0.0 < c && a * c <= b * c
    ensures a <= b
  {
    if a > b {
      PosMul(a - b, c);
    }
  }

  /** More copies of a positive length add up to more, by at least one length per copy. */
  lemma {:induction false} RepeatGrows(len: real, a: nat, b: nat)
    requires 0.0 < len && a < b
    ensures Repeat(len, a) + len <= Repeat(len, b)
    decreases b - a
  {
    if a + 1 < b {
      RepeatGrows(len, a, b - 1);
    }
    RepeatNonneg(len, a);
  }

  lemma {:induction false} RepeatNonneg(len: real, a: nat)
    requires 0.0 <= len
    ensures 0.0 <= Repeat(len, a)
  {
    if a > 0 {
      RepeatNonneg(len, a - 1);
    }
  }

  /** The only whole number of intervals that a remainder shorter than one interval can leave. */
  lemma WholeIntervals(a: nat, b: nat, len: real, rest: real)
    requires 0.0 < len && 0.0 <= rest < len
    requires Repeat(len, a) + rest == Repeat(len, b)
    ensures a == b
  {
    if a < b {
      RepeatGrows(len, a, b);
    } else if b < a {
      RepeatGrows(len, b, a);
    }
  }

  /**
   * The state of the resampling loop: the interval length `len`, the points
   * `work` with the inserted points spliced in, the position `i`, the
   * distance `acc` walked since the last emitted point and the points `out`
   * emitted so far. What remains of the path, with what was walked, makes up
   * exactly the n - 1 intervals.
   */
  ghost predicate WalkInv(dist: DistanceFn, n: int, len: real, work: seq<Point>, i: int, acc: real, out: seq<Point>)
  {
    NonNegative(dist) && 2 <= n && 0.0 < len && 1 <= i <= |work| && 0.0 <= acc < len && 1 <= |out| <= n
    && Repeat(len, |out| - 1) + acc + ArcLength(dist, work[i - 1..]) == Repeat(len, n - 1)
  }

  /** The path from position i - 1 on is one step followed by the path from i on. */
  lemma ArcLengthFrom(dist: DistanceFn, work: seq<Point>, i: int)
    requires NonNegative(dist) && 1 <= i < |work|
    ensures ArcLength(dist, work[i - 1..]) == Seg(dist, work[i - 1], work[i]) + ArcLength(dist, work[i..])
  {
    assert work[i - 1..][1..] == work[i..];
  }

  lemma SkipStep(dist: DistanceFn, n: int, len: real, work: seq<Point>, i: int, acc: real, out: seq<Point>)
    requires WalkInv(dist, n, len, work, i, acc, out) && i < |work|
    requires work[i].id != work[i - 1].id
    ensures WalkInv(dist, n, len, work, i + 1, acc, out)
  {
    ArcLengthFrom(dist, work, i);
  }

  lemma AccumulateStep(dist: DistanceFn, n: int, len: real, work: seq<Point>, i: int, acc: real, out: seq<Point>)
    requires WalkInv(dist, n, len, work, i, acc, out) && i < |work|
    requires work[i].id == work[i - 1].id && acc + dist(work[i - 1], work[i]) < len
    ensures WalkInv(dist, n, len, work, i + 1, acc + dist(work[i - 1], work[i]), out)
  {
    ArcLengthFrom(dist, work, i);
  }

  /** The fraction of the current step at which the next point falls. */
  function Fraction(len: real, acc: real, d: real): (t: real)
    requires 0.0 <= acc < len <= acc + d
    ensures 0.0 < t <= 1.0 && t * d == len - acc
  {
    (len - acc) / d
  }

  /** The point at distance len - acc along the step from work[i - 1] to work[i], spliced in before work[i]. */
  function Splice(work: seq<Point>, i: int, q: Point): (r: seq<Point>)
    requires 1 <= i < |work|
    ensures |r| == |work| + 1 && r[i] == q && r[..i] == work[..i] && r[i + 1..] == work[i..]
  {
    work[..i] + [q] + work[i..]
  }

  /** The bookkeeping of one emitted point: one interval moves from the remaining path to the emitted points. */
  lemma SplitArith(k: nat, n: nat, len: real, acc: real, d: real, rest: real, t: real)
    requires 1 <= k && 0.0 < len && 0.0 <= acc < len <= acc + d && 0.0 <= rest && t * d == len - acc
    requires 1 <= n && Repeat(len, k - 1) + acc + d + rest == Repeat(len, n - 1)
    ensures k <= n - 1 && Repeat(len, k) + ((1.0 - t) * d + rest) == Repeat(len, n - 1)
  {
    assert (1.0 - t) * d == d - t * d;
    if n - 1 < k {
      RepeatGrows(len, n - 1, k);
    }
  }

  lemma SplitStep(dist: DistanceFn, n: int, len: real, work: seq<Point>, i: int, acc: real, out: seq<Point>)
    requires IsEuclidean(dist) && WalkInv(dist, n, len, work, i, acc, out) && i < |work|
    requires work[i].id == work[i - 1].id && acc + dist(work[i - 1], work[i]) >= len
    ensures var q := Interp(work[i - 1], work[i], Fraction(len, acc, dist(work[i - 1], work[i])));
            WalkInv(dist, n, len, Splice(work, i, q), i + 1, 0.0, out + [q])
  {
    var d := dist(work[i - 1], work[i]);
    var t := Fraction(len, acc, d);
    var q := Interp(work[i - 1], work[i], t);
    InterpSplitsDistance(dist, work[i - 1], work[i], t);
    SplitStepWith(dist, n, len, work, i, acc, out, t, q);
  }

  lemma SplitStepWith(dist: DistanceFn, n: int, len: real, work: seq<Point>, i: int, acc: real, out: seq<Point>, t: real, q: Point)
    requires WalkInv(dist, n, len, work, i, acc, out) && i < |work|
    requires work[i].id == work[i - 1].id && acc + dist(work[i - 1], work[i]) >= len
    requires t == Fraction(len, acc, dist(work[i - 1], work[i])) && q.id == work[i].id
    requires dist(q, work[i]) == (1.0 - t) * dist(work[i - 1], work[i])
    ensures WalkInv(dist, n, len, Splice(work, i, q), i + 1, 0.0, out + [q])
  {
    var d := dist(work[i - 1], work[i]);
    var w := Splice(work, i, q);
    var rest := ArcLength(dist, work[i..]);
    ArcLengthFrom(dist, work, i);
    assert w[i..] == [q] + work[i..];
    ArcLengthFrom(dist, w, i + 1);
    SplitArith(|out|, n, len, acc, d, rest, t);
  }

  /** The length of a path with q spliced in at i: the old prefix, the steps into and out of q, the old suffix. */
  lemma SpliceSplit(dist: DistanceFn, work: seq<Point>, i: int, q: Point)
    requires NonNegative(dist) && 1 <= i < |work|
    ensures ArcLength(dist, Splice(work, i, q)) ==
            ArcLength(dist, work[..i]) + Seg(dist, work[i - 1], q) + Seg(dist, q, work[i]) + ArcLength(dist, work[i..])
  {
    var w := Splice(work, i, q);
    ArcLengthSplit(dist, w, i);
    assert w[..i + 1] == work[..i] + [q];
    ArcLengthAppend(dist, work[..i], q);
    assert work[..i][i - 1] == work[i - 1];
    assert w[i..][1..] == work[i..];
  }

  /** The length of a path split around its step from i - 1 to i. */
  lemma StepSplit(dist: DistanceFn, work: seq<Point>, i: int)
    requires NonNegative(dist) && 1 <= i < |work|
    ensures ArcLength(dist, work) ==
            ArcLength(dist, work[..i]) + Seg(dist, work[i - 1], work[i]) + ArcLength(dist, work[i..])
  {
    ArcLengthSplit(dist, work, i - 1);
    assert work[..i - 1 + 1] == work[..i];
    ArcLengthFrom(dist, work, i);
  }

  /**
   * A splice at a fraction t of one in-stroke step leaves the path length
   * unchanged, given that the new point divides the step in the ratio t : 1 - t.
   */
  lemma SpliceKeepsLength(dist: DistanceFn, work: seq<Point>, i: int, t: real)
    requires NonNegative(dist) && 1 <= i < |work| && work[i].id == work[i - 1].id
    requires dist(work[i - 1], Interp(work[i - 1], work[i], t)) == t * dist(work[i - 1], work[i])
    requires dist(Interp(work[i - 1], work[i], t), work[i]) == (1.0 - t) * dist(work[i - 1], work[i])
    ensures ArcLength(dist, Splice(work, i, Interp(work[i - 1], work[i], t))) == ArcLength(dist, work)
  {
    var d := dist(work[i - 1], work[i]);
    SpliceSplit(dist, work, i, Interp(work[i - 1], work[i], t));
    StepSplit(dist, work, i);
    assert t * d + (1.0 - t) * d == d;
  }

  datatype Resampling = Resampling(out: seq<Point>, spliced: seq<Point>)

  /** The resampling loop, one position at a time. */
  function Walk(dist: DistanceFn, n: int, len: real, work: seq<Point>, i: int, acc: real, out: seq<Point>): (r: Resampling)
    requires IsEuclidean(dist) && WalkInv(dist, n, len, work, i, acc, out)
    ensures |r.spliced| >= |work| && |r.out| >= |out|
    decreases n - |out|, |work| - i
  {
    if i == |work| then Resampling(out, work)
    else if work[i].id != work[i - 1].id then
      SkipStep(dist, n, len, work, i, acc, out);
      Walk(dist, n, len, work, i + 1, acc, out)
    else
      var d := dist(work[i - 1], work[i]);
      if acc + d >= len then
        var q := Interp(work[i - 1], work[i], Fraction(len, acc, d));
        SplitStep(dist, n, len, work, i, acc, out);
        Walk(dist, n, len, Splice(work, i, q), i + 1, 0.0, out + [q])
      else
        AccumulateStep(dist, n, len, work, i, acc, out);
        Walk(dist, n, len, work, i + 1, acc + d, out)
  }

  /** The walk emits exactly n points in all and keeps the points already emitted. */
  lemma {:induction false} WalkCount(dist: DistanceFn, n: int, len: real, work: seq<Point>, i: int, acc: real, out: seq<Point>)
    requires IsEuclidean(dist) && WalkInv(dist, n, len, work, i, acc, out)
    ensures var r := Walk(dist, n, len, work, i, acc, out);
            |r.out| == n && r.out[..|out|] == out
    decreases n - |out|, |work| - i
  {
    if i == |work| {
      assert work[i - 1..] == [work[i - 1]];
      WholeIntervals(|out| - 1, n - 1, len, acc);
    } else if work[i].id != work[i - 1].id {
      SkipStep(dist, n, len, work, i, acc, out);
      WalkCount(dist, n, len, work, i + 1, acc, out);
    } else {
      var d := dist(work[i - 1], work[i]);
      if acc + d >= len {
        var q := Interp(work[i - 1], work[i], Fraction(len, acc, d));
        SplitStep(dist, n, len, work, i, acc, out);
        WalkCount(dist, n, len, Splice(work, i, q), i + 1, 0.0, out + [q]);
        var r := Walk(dist, n, len, Splice(work, i, q), i + 1, 0.0, out + [q]);
        assert r.out[..|out|] == (r.out[..|out| + 1])[..|out|];
      } else {
        AccumulateStep(dist, n, len, work, i, acc, out);
        WalkCount(dist, n, len, work, i + 1, acc + d, out);
      }
    }
  }

  /** The point the walk splices in at a step does not change the path length. */
  lemma SplitKeepsLength(dist: DistanceFn, len: real, work: seq<Point>, i: int, acc: real)
    requires IsEuclidean(dist) && 1 <= i < |work| && work[i].id == work[i - 1].id
    requires 0.0 <= acc < len <= acc + dist(work[i - 1], work[i])
    ensures var w := Splice(work, i, Interp(work[i - 1], work[i], Fraction(len, acc, dist(work[i - 1], work[i]))));
            ArcLength(dist, w) == ArcLength(dist, work)
  {
    InterpSplitsDistance(dist, work[i - 1], work[i], Fraction(len, acc, dist(work[i - 1], work[i])));
    SpliceKeepsLength(dist, work, i, Fraction(len, acc, dist(work[i - 1], work[i])));
  }

  /** The points the walk splices in do not change the path length. */
  lemma {:induction false} WalkKeepsLength(dist: DistanceFn, n: int, len: real, work: seq<Point>, i: int, acc: real, out: seq<Point>)
    requires IsEuclidean(dist) && WalkInv(dist, n, len, work, i, acc, out)
    ensures var r := Walk(dist, n, len, work, i, acc, out);
            ArcLength(dist, r.spliced) == ArcLength(dist, work)
    decreases n - |out|, |work| - i
  {
    if i == |work| {
    } else if work[i].id != work[i - 1].id {
      SkipStep(dist, n, len, work, i, acc, out);
      WalkKeepsLength(dist, n, len, work, i + 1, acc, out);
    } else {
      var d := dist(work[i - 1], work[i]);
      if acc + d >= len {
        var q := Interp(work[i - 1], work[i], Fraction(len, acc, d));
        SplitStep(dist, n, len, work, i, acc, out);
        SplitKeepsLength(dist, len, work, i, acc);
        WalkKeepsLength(dist, n, len, Splice(work, i, q), i + 1, 0.0, out + [q]);
      } else {
        AccumulateStep(dist, n, len, work, i, acc, out);
        WalkKeepsLength(dist, n, len, work, i + 1, acc + d, out);
      }
    }
  }

  /** A splice before position i leaves the last point where it was. */
  lemma SpliceKeepsLast(work: seq<Point>, i: int, q: Point)
    requires 1 <= i < |work|
    ensures Splice(work, i, q)[|work|] == work[|work| - 1]
  {
    assert Splice(work, i, q)[|work|] == Splice(work, i, q)[i + 1..][|work| - i - 1];
  }

  /** The points the walk splices in do not change the last point. */
  lemma {:induction false} WalkKeepsLast(dist: DistanceFn, n: int, len: real, work: seq<Point>, i: int, acc: real, out: seq<Point>)
    requires IsEuclidean(dist) && WalkInv(dist, n, len, work, i, acc, out)
    ensures var r := Walk(dist, n, len, work, i, acc, out);
            r.spliced[|r.spliced| - 1] == work[|work| - 1]
    decreases n - |out|, |work| - i
  {
    if i == |work| {
    } else if work[i].id != work[i - 1].id {
      SkipStep(dist, n, len, work, i, acc, out);
      WalkKeepsLast(dist, n, len, work, i + 1, acc, out);
    } else {
      var d := dist(work[i - 1], work[i]);
      if acc + d >= len {
        var q := Interp(work[i - 1], work[i], Fraction(len, acc, d));
        SplitStep(dist, n, len, work, i, acc, out);
        SpliceKeepsLast(work, i, q);
        WalkKeepsLast(dist, n, len, Splice(work, i, q), i + 1, 0.0, out + [q]);
      } else {
        AccumulateStep(dist, n, len, work, i, acc, out);
        WalkKeepsLast(dist, n, len, work, i + 1, acc + d, out);
      }
    }
  }

  /** A splice adds its point to the list and removes none. */
  lemma SpliceKeepsPoints(work: seq<Point>, i: int, q: Point)
    requires 1 <= i < |work|
    ensures multiset(Splice(work, i, q)) == multiset(work) + multiset{q}
  {
    assert work == work[..i] + work[i..];
  }

  /** The list the walk splices into grows by exactly the points it emits. */
  lemma {:induction false} WalkKeepsPoints(dist: DistanceFn, n: int, len: real, work: seq<Point>, i: int, acc: real, out: seq<Point>)
    requires IsEuclidean(dist) && WalkInv(dist, n, len, work, i, acc, out)
    ensures GrowsByEmitted(work, out, Walk(dist, n, len, work, i, acc, out))
    decreases n - |out|, |work| - i
  {
    if i == |work| {
      assert out[|out|..] == [];
    } else if work[i].id != work[i - 1].id {
      SkipStep(dist, n, len, work, i, acc, out);
      WalkKeepsPoints(dist, n, len, work, i + 1, acc, out);
    } else {
      var d := dist(work[i - 1], work[i]);
      if acc + d >= len {
        var q := Interp(work[i - 1], work[i], Fraction(len, acc, d));
        SplitStep(dist, n, len, work, i, acc, out);
        WalkKeepsPoints(dist, n, len, Splice(work, i, q), i + 1, 0.0, out + [q]);
        WalkCount(dist, n, len, Splice(work, i, q), i + 1, 0.0, out + [q]);
        SpliceGrows(work, i, q, out, Walk(dist, n, len, Splice(work, i, q), i + 1, 0.0, out + [q]));
      } else {
        AccumulateStep(dist, n, len, work, i, acc, out);
        WalkKeepsPoints(dist, n, len, work, i + 1, acc + d, out);
      }
    }
  }

  /** The walk's list is the list it started from plus the points it emitted after out. */
  ghost predicate GrowsByEmitted(work: seq<Point>, out: seq<Point>, r: Resampling)
  {
    |out| <= |r.out| && multiset(r.spliced) == multiset(work) + multiset(r.out[|out|..])
  }

  /** One splice and the growth that follows it add up to the growth by all the points emitted from here on. */
  lemma SpliceGrows(work: seq<Point>, i: int, q: Point, out: seq<Point>, r: Resampling)
    requires 1 <= i < |work| && GrowsByEmitted(Splice(work, i, q), out + [q], r)
    requires r.out[..|out| + 1] == out + [q]
    ensures GrowsByEmitted(work, out, r)
  {
    SpliceKeepsPoints(work, i, q);
    assert r.out[|out|] == r.out[..|out| + 1][|out|] == q;
    assert r.out[|out|..] == [q] + r.out[|out| + 1..];
  }

  /**
   * Where the emitted points are: the k-th at position pos[k] of the list,
   * in increasing order, at path length k intervals from its start; every
   * one but the first between two points of its own stroke.
   */
  ghost predicate Placed(dist: DistanceFn, len: real, work: seq<Point>, i: int, out: seq<Point>, pos: seq<int>)
    requires NonNegative(dist)
  {
    |pos| == |out| && i <= |work| && InOrder(pos, i) && AtIntervals(dist, len, work, out, pos) && WithinStrokes(work, out, pos)
  }

  /** Positions below i, increasing. */
  ghost predicate InOrder(pos: seq<int>, i: int)
  {
    && (forall k :: 0 <= k < |pos| ==> 0 <= pos[k] < i)
    && (forall k1, k2 :: 0 <= k1 < k2 < |pos| ==> pos[k1] < pos[k2])
  }

  ghost predicate AtIntervals(dist: DistanceFn, len: real, work: seq<Point>, out: seq<Point>, pos: seq<int>)
    requires NonNegative(dist) && |pos| == |out|
  {
    forall k :: 0 <= k < |pos| && 0 <= pos[k] < |work| ==> work[pos[k]] == out[k] && ArcLength(dist, work[..pos[k] + 1]) == Repeat(len, k)
  }

  ghost predicate WithinStrokes(work: seq<Point>, out: seq<Point>, pos: seq<int>)
    requires |pos| == |out|
  {
    forall k :: 1 <= k < |pos| ==>
      1 <= pos[k] && pos[k] + 1 < |work| && work[pos[k] - 1].id == out[k].id && work[pos[k] + 1].id == out[k].id
  }

  /** The path walked so far is the intervals emitted plus the distance since the last emitted point. */
  ghost predicate Walked(dist: DistanceFn, len: real, work: seq<Point>, i: int, acc: real, out: seq<Point>)
    requires NonNegative(dist) && 0 <= i <= |work| && 1 <= |out|
  {
    ArcLength(dist, work[..i]) == Repeat(len, |out| - 1) + acc
  }

  /** A step that is not split moves the position on by one and adds its length to the distance walked. */
  lemma StepPlaced(dist: DistanceFn, n: int, len: real, work: seq<Point>, i: int, acc: real, out: seq<Point>, pos: seq<int>)
    requires WalkInv(dist, n, len, work, i, acc, out) && i < |work|
    requires Placed(dist, len, work, i, out, pos) && Walked(dist, len, work, i, acc, out)
    ensures Placed(dist, len, work, i + 1, out, pos)
    ensures Walked(dist, len, work, i + 1, acc + Seg(dist, work[i - 1], work[i]), out)
  {
    assert work[..i + 1] == work[..i] + [work[i]];
    ArcLengthAppend(dist, work[..i], work[i]);
  }

  /** A splice at i leaves the points placed before i where they were. */
  lemma SpliceKeepsPlaced(dist: DistanceFn, len: real, work: seq<Point>, i: int, q: Point, out: seq<Point>, pos: seq<int>)
    requires NonNegative(dist) && 1 <= i < |work| && q.id == work[i].id && Placed(dist, len, work, i, out, pos)
    ensures Placed(dist, len, Splice(work, i, q), i + 1, out, pos)
  {
    var w := Splice(work, i, q);
    forall k | 0 <= k < |pos|
      ensures w[pos[k]] == out[k] && ArcLength(dist, w[..pos[k] + 1]) == Repeat(len, k)
    {
      assert w[..pos[k] + 1] == work[..i][..pos[k] + 1] == work[..pos[k] + 1];
    }
    assert WithinStrokes(w, out, pos);
  }

  lemma InOrderNext(pos: seq<int>, i: int, p: int)
    requires InOrder(pos, i) && (forall k :: 0 <= k < |pos| ==> pos[k] < p) && 0 <= p < i
    ensures InOrder(pos + [p], i)
  {
    var pos' := pos + [p];
    forall k1, k2 | 0 <= k1 < k2 < |pos'|
      ensures pos'[k1] < pos'[k2]
    {
      assert pos'[k1] == pos[k1];
    }
  }

  lemma AtIntervalsNext(dist: DistanceFn, len: real, w: seq<Point>, out: seq<Point>, pos: seq<int>, q: Point, p: int)
    requires NonNegative(dist) && |pos| == |out| && AtIntervals(dist, len, w, out, pos)
    requires 0 <= p < |w| && w[p] == q && ArcLength(dist, w[..p + 1]) == Repeat(len, |out|)
    ensures AtIntervals(dist, len, w, out + [q], pos + [p])
  {
    var out', pos' := out + [q], pos + [p];
    forall k | 0 <= k < |pos'| && 0 <= pos'[k] < |w|
      ensures w[pos'[k]] == out'[k] && ArcLength(dist, w[..pos'[k] + 1]) == Repeat(len, k)
    {
      if k < |pos| {
        assert pos'[k] == pos[k] && out'[k] == out[k];
      }
    }
  }

  lemma WithinStrokesNext(w: seq<Point>, out: seq<Point>, pos: seq<int>, q: Point, p: int)
    requires |pos| == |out| && WithinStrokes(w, out, pos)
    requires 1 <= |out| ==> 1 <= p && p + 1 < |w| && w[p - 1].id == q.id && w[p + 1].id == q.id
    ensures WithinStrokes(w, out + [q], pos + [p])
  {
    var out', pos' := out + [q], pos + [p];
    forall k | 1 <= k < |pos'|
      ensures 1 <= pos'[k] && pos'[k] + 1 < |w| && w[pos'[k] - 1].id == out'[k].id && w[pos'[k] + 1].id == out'[k].id
    {
      if k < |pos| {
        assert pos'[k] == pos[k] && out'[k] == out[k];
      }
    }
  }

  /** A point at position p after all the placed ones, at path length one more interval, is placed next. */
  lemma PlaceNext(dist: DistanceFn, len: real, w: seq<Point>, j: int, out: seq<Point>, pos: seq<int>, q: Point, p: int)
    requires NonNegative(dist) && Placed(dist, len, w, j, out, pos)
    requires (forall k :: 0 <= k < |pos| ==> pos[k] < p) && 0 <= p < j
    requires w[p] == q && ArcLength(dist, w[..p + 1]) == Repeat(len, |out|)
    requires 1 <= |out| ==> 1 <= p && p + 1 < |w| && w[p - 1].id == q.id && w[p + 1].id == q.id
    ensures Placed(dist, len, w, j, out + [q], pos + [p])
  {
    InOrderNext(pos, j, p);
    AtIntervalsNext(dist, len, w, out, pos, q, p);
    WithinStrokesNext(w, out, pos, q, p);
  }

  /** The step from a to the point spliced in covers exactly what was left of the interval. */
  lemma SplitSegment(dist: DistanceFn, a: Point, b: Point, len: real, acc: real)
    requires IsEuclidean(dist) && a.id == b.id && 0.0 <= acc < len <= acc + dist(a, b)
    ensures Seg(dist, a, Interp(a, b, Fraction(len, acc, dist(a, b)))) == len - acc
  {
    InterpSplitsDistance(dist, a, b, Fraction(len, acc, dist(a, b)));
  }

  lemma OneMoreInterval(total: real, before: real, len: real, acc: real, k: nat)
    requires 1 <= k && before == Repeat(len, k - 1) + acc && total == before + (len - acc)
    ensures total == Repeat(len, k)
  {
  }

  /** The emitted point is spliced in at i, one interval after the previous one; the points placed before i stay where they were. */
  lemma SplitPlaced(dist: DistanceFn, n: int, len: real, work: seq<Point>, i: int, acc: real, out: seq<Point>, pos: seq<int>)
    requires IsEuclidean(dist) && WalkInv(dist, n, len, work, i, acc, out) && i < |work|
    requires work[i].id == work[i - 1].id && acc + dist(work[i - 1], work[i]) >= len
    requires Placed(dist, len, work, i, out, pos) && Walked(dist, len, work, i, acc, out)
    ensures var q := Interp(work[i - 1], work[i], Fraction(len, acc, dist(work[i - 1], work[i])));
            var w := Splice(work, i, q);
            Placed(dist, len, w, i + 1, out + [q], pos + [i]) && Walked(dist, len, w, i + 1, 0.0, out + [q])
  {
    var d := dist(work[i - 1], work[i]);
    var t := Fraction(len, acc, d);
    var q := Interp(work[i - 1], work[i], t);
    var w := Splice(work, i, q);
    SplitSegment(dist, work[i - 1], work[i], len, acc);
    assert w[..i + 1] == work[..i] + [q];
    ArcLengthAppend(dist, work[..i], q);
    assert work[..i][i - 1] == work[i - 1];
    OneMoreInterval(ArcLength(dist, w[..i + 1]), ArcLength(dist, work[..i]), len, acc, |out|);
    SpliceKeepsPlaced(dist, len, work, i, q, out, pos);
    PlaceNext(dist, len, w, i + 1, out, pos, q, i);
  }

  /** pos' starts with the positions in pos. */
  ghost predicate Extends(pos': seq<int>, pos: seq<int>)
  {
    |pos| <= |pos'| && forall k :: 0 <= k < |pos| ==> pos'[k] == pos[k]
  }

  lemma ExtendsOne(pos': seq<int>, pos: seq<int>, p: int)
    requires Extends(pos', pos + [p])
    ensures Extends(pos', pos)
  {
    forall k | 0 <= k < |pos|
      ensures pos'[k] == pos[k]
    {
      assert (pos + [p])[k] == pos[k];
    }
  }

  /** The walk places every point it emits. */
  lemma {:induction false} WalkPlaces(dist: DistanceFn, n: int, len: real, work: seq<Point>, i: int, acc: real, out: seq<Point>, pos: seq<int>)
    returns (pos': seq<int>)
    requires IsEuclidean(dist) && WalkInv(dist, n, len, work, i, acc, out)
    requires Placed(dist, len, work, i, out, pos) && Walked(dist, len, work, i, acc, out)
    ensures var r := Walk(dist, n, len, work, i, acc, out);
            Placed(dist, len, r.spliced, |r.spliced|, r.out, pos')
    ensures Extends(pos', pos)
    decreases n - |out|, |work| - i
  {
    if i == |work| {
      pos' := pos;
    } else if work[i].id != work[i - 1].id {
      SkipStep(dist, n, len, work, i, acc, out);
      StepPlaced(dist, n, len, work, i, acc, out, pos);
      pos' := WalkPlaces(dist, n, len, work, i + 1, acc, out, pos);
    } else {
      var d := dist(work[i - 1], work[i]);
      if acc + d >= len {
        var q := Interp(work[i - 1], work[i], Fraction(len, acc, d));
        SplitStep(dist, n, len, work, i, acc, out);
        SplitPlaced(dist, n, len, work, i, acc, out, pos);
        pos' := WalkPlaces(dist, n, len, Splice(work, i, q), i + 1, 0.0, out + [q], pos + [i]);
        ExtendsOne(pos', pos, i);
      } else {
        AccumulateStep(dist, n, len, work, i, acc, out);
        StepPlaced(dist, n, len, work, i, acc, out, pos);
        pos' := WalkPlaces(dist, n, len, work, i + 1, acc + d, out, pos);
      }
    }
  }

  /** Interval length: the whole path divided into n - 1 equal parts. */
  function Interval(dist: DistanceFn, s: seq<Point>, n: int): (len: real)
    requires IsEuclidean(dist) && 2 <= n && 0.0 < ArcLength(dist, s)
    ensures 0.0 < len && Repeat(len, n - 1) == ArcLength(dist, s)
  {
    var len := ArcLength(dist, s) / ((n - 1) as real);
    RepeatIsProduct(len, n - 1);
    len
  }

  lemma WalkStart(dist: DistanceFn, s: seq<Point>, n: int)
    requires IsEuclidean(dist) && 2 <= n && 0.0 < ArcLength(dist, s)
    ensures |s| >= 2 && WalkInv(dist, n, Interval(dist, s, n), s, 1, 0.0, [s[0]])
  {
    assert s[0..] == s;
  }

  /**
   * Resampling of a path with a positive length into n points: the points
   * emitted by the walk, completed by a copy of the last point when the walk
   * falls one short.
   */
  function Resampled(dist: DistanceFn, s: seq<Point>, n: int): (r: Resampling)
    requires IsEuclidean(dist) && 2 <= n && 0.0 < ArcLength(dist, s)
    ensures |r.out| == n
  {
    WalkStart(dist, s, n);
    WalkCount(dist, n, Interval(dist, s, n), s, 1, 0.0, [s[0]]);
    var w := Walk(dist, n, Interval(dist, s, n), s, 1, 0.0, [s[0]]);
    var last := w.spliced[|w.spliced| - 1];
    if |w.out| == n - 1 then
      Resampling(w.out + [Point(last.x, last.y, last.id)], w.spliced)
    else w
  }

  /**
   * Resampling yields exactly n points, the first of them the first input
   * point; the points spliced into the input leave its path length and its
   * last point as they were and remove none of its points. In exact
   * arithmetic the walk never falls short, so the completion step never
   * applies.
   */
  lemma ResampledFacts(dist: DistanceFn, s: seq<Point>, n: int)
    requires IsEuclidean(dist) && 2 <= n && 0.0 < ArcLength(dist, s)
    ensures var w := Walk(dist, n, Interval(dist, s, n), s, 1, 0.0, [s[0]]);
            |w.out| == n && Resampled(dist, s, n) == w
    ensures var r := Resampled(dist, s, n);
            |r.out| == n && r.out[0] == s[0]
            && ArcLength(dist, r.spliced) == ArcLength(dist, s)
            && |r.spliced| >= |s| && r.spliced[|r.spliced| - 1] == s[|s| - 1]
            && multiset(r.spliced) == multiset(s) + multiset(r.out[1..])
  {
    WalkStart(dist, s, n);
    WalkCount(dist, n, Interval(dist, s, n), s, 1, 0.0, [s[0]]);
    WalkKeepsLength(dist, n, Interval(dist, s, n), s, 1, 0.0, [s[0]]);
    WalkKeepsLast(dist, n, Interval(dist, s, n), s, 1, 0.0, [s[0]]);
    WalkKeepsPoints(dist, n, Interval(dist, s, n), s, 1, 0.0, [s[0]]);
  }

  /** Consecutive placed points are one interval of path length apart. */
  lemma PlacedSpacing(dist: DistanceFn, len: real, w: seq<Point>, j: int, out: seq<Point>, pos: seq<int>, k: int)
    requires NonNegative(dist) && Placed(dist, len, w, j, out, pos) && 0 <= k && k + 1 < |pos|
    ensures ArcLength(dist, w[pos[k]..pos[k + 1] + 1]) == len
  {
    var p, p' := pos[k], pos[k + 1];
    var prefix := w[..p' + 1];
    ArcLengthSplit(dist, prefix, p);
    assert prefix[..p + 1] == w[..p + 1] && prefix[p..] == w[p..p' + 1];
    assert ArcLength(dist, w[..p + 1]) == Repeat(len, k);
    assert ArcLength(dist, prefix) == Repeat(len, k + 1);
  }

  /**
   * Where the resampled points are: the k-th of them is spliced into the
   * list at pos[k], the first where the path starts, in increasing order,
   * k intervals of path length from the start and so one interval from the
   * one before; every one but the first lies inside a stroke, between two
   * points carrying its stroke id.
   */
  lemma ResampledPlaces(dist: DistanceFn, s: seq<Point>, n: int) returns (pos: seq<int>)
    requires IsEuclidean(dist) && 2 <= n && 0.0 < ArcLength(dist, s)
    ensures var r := Resampled(dist, s, n);
            Placed(dist, Interval(dist, s, n), r.spliced, |r.spliced|, r.out, pos) && pos[0] == 0
    ensures var r := Resampled(dist, s, n);
            forall k :: 0 <= k < n - 1 ==> ArcLength(dist, r.spliced[pos[k]..pos[k + 1] + 1]) == Interval(dist, s, n)
  {
    var len := Interval(dist, s, n);
    WalkStart(dist, s, n);
    ResampledFacts(dist, s, n);
    assert s[..1] == [s[0]];
    assert Placed(dist, len, s, 1, [s[0]], [0]);
    pos := WalkPlaces(dist, n, len, s, 1, 0.0, [s[0]], [0]);
    var r := Resampled(dist, s, n);
    forall k | 0 <= k < n - 1
      ensures ArcLength(dist, r.spliced[pos[k]..pos[k + 1] + 1]) == len
    {
      PlacedSpacing(dist, len, r.spliced, |r.spliced|, r.out, pos, k);
    }
  }

  /** The source's loop: walks the path, emitting and splicing in a point each time a whole interval is covered. */
  method Resample(dist: DistanceFn, points: PointList, n: int) returns (newpoints: seq<Point>)
    requires IsEuclidean(dist) && 2 <= n && 0.0 < ArcLength(dist, points.elems)
    modifies points
    ensures Resampling(newpoints, points.elems) == Resampled(dist, old(points.elems), n)
    ensures |newpoints| == n && newpoints[0] == old(points.elems)[0]
    ensures ArcLength(dist, points.elems) == ArcLength(dist, old(points.elems))
  {
    ghost var s := points.elems;
    var total := PathLength(dist, points.elems);
    var len := total / ((n - 1) as real);
    assert len == Interval(dist, s, n);
    WalkStart(dist, s, n);
    var acc := 0.0;
    newpoints := [points.elems[0]];
    var i := 1;
    while i < |points.elems|
      invariant WalkInv(dist, n, len, points.elems, i, acc, newpoints)
      invariant Walk(dist, n, len, points.elems, i, acc, newpoints) == Walk(dist, n, len, s, 1, 0.0, [s[0]])
      decreases n - |newpoints|, |points.elems| - i
    {
      if points.elems[i].id == points.elems[i - 1].id {
        var d := dist(points.elems[i - 1], points.elems[i]);
        if acc + d >= len {
          SplitStep(dist, n, len, points.elems, i, acc, newpoints);
          var q := Interp(points.elems[i - 1], points.elems[i], Fraction(len, acc, d));
          newpoints := newpoints + [q];
          points.elems := Splice(points.elems, i, q);
          acc := 0.0;
        } else {
          AccumulateStep(dist, n, len, points.elems, i, acc, newpoints);
          acc := acc + d;
        }
      } else {
        SkipStep(dist, n, len, points.elems, i, acc, newpoints);
      }
      i := i + 1;
    }
    var last := points.elems[|points.elems| - 1];
    if |newpoints| == n - 1 {
      newpoints := newpoints + [Point(last.x, last.y, last.id)];
    }
    ResampledFacts(dist, s, n);
  }

  /** The larger side of the bounding box. */
  function Extent(s: seq<Point>): real
    requires |s| > 0
  {
    Max(Greatest(s, X) - Least(s, X), Greatest(s, Y) - Least(s, Y))
  }

  function ScalePoint(p: Point, minX: real, minY: real, size: real): Point
    requires size != 0.0
  {
    Point((p.x - minX) / size, (p.y - minY) / size, p.id)
  }

  /** Every point shifted by (minX, minY) and divided by size, in order. */
  function ScaledBy(s: seq<Point>, minX: real, minY: real, size: real): (r: seq<Point>)
    requires size != 0.0
    ensures |r| == |s| && forall i :: 0 <= i < |s| ==> r[i] == ScalePoint(s[i], minX, minY, size)
  {
    if |s| == 0 then [] else ScaledBy(s[..|s| - 1], minX, minY, size) + [ScalePoint(s[|s| - 1], minX, minY, size)]
  }

  /** Uniform scaling that takes the bounding box's lower-left corner to the origin and its larger side to 1. */
  function Scaled(s: seq<Point>): (r: seq<Point>)
    requires |s| == 0 || 0.0 < Extent(s)
  {
    if |s| == 0 then [] else ScaledBy(s, Least(s, X), Least(s, Y), Extent(s))
  }

  lemma DivMono(a: real, b: real, k: real)
    requires a <= b && 0.0 < k
    ensures a / k <= b / k
  {
    assert (a / k) * k == a && (b / k) * k == b;
    CancelPositive(a / k, b / k, k);
  }

  lemma DivSelf(a: real)
    requires a != 0.0
    ensures a / a == 1.0
  {
  }

  lemma DivDiff(a: real, b: real, c: real, k: real)
    requires k != 0.0
    ensures (a - c) / k - (b - c) / k == (a - b) / k
  {
    var u, v, w := (a - c) / k, (b - c) / k, (a - b) / k;
    assert u * k == a - c && v * k == b - c && w * k == a - b;
    assert (u - v) * k == w * k;
    if u - v != w {
      MulCancel(u - v, w, k);
    }
  }

  lemma MulCancel(x: real, y: real, k: real)
    requires k != 0.0 && x * k == y * k
    ensures x == y
  {
    assert (x - y) * k == 0.0;
  }

  /** Scaling keeps the shape: every coordinate difference shrinks by the same factor. */
  lemma ScaledKeepsShape(s: seq<Point>, i: int, j: int)
    requires 0 < |s| && 0.0 < Extent(s) && 0 <= i < |s| && 0 <= j < |s|
    ensures Scaled(s)[i].x - Scaled(s)[j].x == (s[i].x - s[j].x) / Extent(s)
    ensures Scaled(s)[i].y - Scaled(s)[j].y == (s[i].y - s[j].y) / Extent(s)
  {
    DivDiff(s[i].x, s[j].x, Least(s, X), Extent(s));
    DivDiff(s[i].y, s[j].y, Least(s, Y), Extent(s));
  }

  /**
   * Along one axis, coordinates between lo and hi, both attained, shifted by
   * lo and divided by a size at least hi - lo, fall between 0 and 1 with
   * least 0 and greatest (hi - lo) / size.
   */
  lemma ShiftScaleAxis(s: seq<Point>, r: seq<Point>, a: Axis, lo: real, hi: real, size: real, k: int, m: int)
    requires |s| == |r| && 0.0 < size && hi - lo <= size
    requires forall i :: 0 <= i < |s| ==> lo <= Coord(s[i], a) <= hi
    requires forall i :: 0 <= i < |s| ==> Coord(r[i], a) == (Coord(s[i], a) - lo) / size
    requires 0 <= k < |s| && Coord(s[k], a) == lo && 0 <= m < |s| && Coord(s[m], a) == hi
    ensures forall i :: 0 <= i < |r| ==> 0.0 <= Coord(r[i], a) <= 1.0
    ensures Least(r, a) == 0.0 && Greatest(r, a) == (hi - lo) / size
  {
    forall i | 0 <= i < |s|
      ensures 0.0 <= Coord(r[i], a) <= (hi - lo) / size
    {
      DivMono(0.0, Coord(s[i], a) - lo, size);
      DivMono(Coord(s[i], a) - lo, hi - lo, size);
    }
    DivMono(hi - lo, size, size);
    DivSelf(size);
    assert Coord(r[k], a) == 0.0 / size == 0.0;
    LeastIs(r, a, 0.0, k);
    GreatestIs(r, a, (hi - lo) / size, m);
  }

  /** Along one axis, every scaled coordinate is the original shifted by that axis's corner and divided by size. */
  lemma ScaledByAxis(s: seq<Point>, minX: real, minY: real, size: real, a: Axis, lo: real)
    requires size != 0.0 && lo == Coord(Point(minX, minY, 0), a)
    ensures forall i :: 0 <= i < |s| ==> Coord(ScaledBy(s, minX, minY, size)[i], a) == (Coord(s[i], a) - lo) / size
  {
  }

  lemma {:induction false} ScaledAxis(s: seq<Point>, a: Axis)
    requires 0 < |s| && 0.0 < Extent(s)
    ensures forall i :: 0 <= i < |s| ==> 0.0 <= Coord(Scaled(s)[i], a) <= 1.0
    ensures Least(Scaled(s), a) == 0.0
    ensures Greatest(Scaled(s), a) == (Greatest(s, a) - Least(s, a)) / Extent(s)
  {
    var r, size := Scaled(s), Extent(s);
    var lo, hi := Least(s, a), Greatest(s, a);
    LeastBounds(s, a);
    GreatestBounds(s, a);
    var k :| 0 <= k < |s| && Coord(s[k], a) == lo;
    var m :| 0 <= m < |s| && Coord(s[m], a) == hi;
    ScaledByAxis(s, Least(s, X), Least(s, Y), size, a, lo);
    ShiftScaleAxis(s, r, a, lo, hi, size, k, m);
  }

  /** Every scaled coordinate lies in [0, 1], and the scaled points touch both axes. */
  lemma {:induction false} ScaledInUnitBox(s: seq<Point>)
    requires 0 < |s| && 0.0 < Extent(s)
    ensures forall i :: 0 <= i < |s| ==> 0.0 <= Scaled(s)[i].x <= 1.0 && 0.0 <= Scaled(s)[i].y <= 1.0
    ensures Least(Scaled(s), X) == 0.0 && Least(Scaled(s), Y) == 0.0
  {
    ScaledAxis(s, X);
    ScaledAxis(s, Y);
    assert forall i :: 0 <= i < |s| ==> Coord(Scaled(s)[i], X) == Scaled(s)[i].x && Coord(Scaled(s)[i], Y) == Scaled(s)[i].y;
  }

  lemma MaxOverMax(a: real, b: real, m: real, p: real, q: real)
    requires 0.0 <= a && 0.0 <= b && m == Max(a, b) && 0.0 < m && p == a / m && q == b / m
    ensures Max(p, q) == 1.0
  {
    if a >= b {
      DivMono(b, a, a);
      DivSelf(a);
    } else {
      DivMono(a, b, b);
      DivSelf(b);
    }
  }

  /** The larger side of the scaled points' bounding box is exactly 1. */
  lemma {:induction false} ScaledExtentOne(s: seq<Point>)
    requires 0 < |s| && 0.0 < Extent(s)
    ensures Extent(Scaled(s)) == 1.0
  {
    var r, size := Scaled(s), Extent(s);
    ScaledAxis(s, X);
    ScaledAxis(s, Y);
    var w, h := Greatest(s, X) - Least(s, X), Greatest(s, Y) - Least(s, Y);
    LeastAtMostGreatest(s, X);
    LeastAtMostGreatest(s, Y);
    MaxOverMax(w, h, size, Greatest(r, X) - Least(r, X), Greatest(r, Y) - Least(r, Y));
  }

  /** The source's first loop of Scale: the bounding box of the points. */
  method BoundingBox(points: seq<Point>) returns (minX: real, maxX: real, minY: real, maxY: real)
    requires |points| > 0
    ensures minX == Least(points, X) && maxX == Greatest(points, X)
    ensures minY == Least(points, Y) && maxY == Greatest(points, Y)
  {
    minX, maxX, minY, maxY := points[0].x, points[0].x, points[0].y, points[0].y;
    assert points[..1] == [points[0]];
    for i := 1 to |points|
      invariant minX == Least(points[..i], X) && maxX == Greatest(points[..i], X)
      invariant minY == Least(points[..i], Y) && maxY == Greatest(points[..i], Y)
    {
      LeastGreatestStep(points, X, i);
      LeastGreatestStep(points, Y, i);
      minX := Min(minX, points[i].x);
      minY := Min(minY, points[i].y);
      maxX := Max(maxX, points[i].x);
      maxY := Max(maxY, points[i].y);
    }
    assert points[..|points|] == points;
  }

  /** The source's Scale: the bounding box, then the scaled copy built by a second loop. */
  method Scale(points: seq<Point>) returns (newpoints: seq<Point>)
    requires |points| == 0 || 0.0 < Extent(points)
    ensures newpoints == Scaled(points)
  {
    if |points| == 0 {
      return [];
    }
    var minX, maxX, minY, maxY := BoundingBox(points);
    var size := Max(maxX - minX, maxY - minY);
    assert size == Extent(points);
    newpoints := [];
    for i := 0 to |points|
      invariant newpoints == ScaledBy(points[..i], minX, minY, size)
    {
      assert points[..i + 1][..i] == points[..i];
      newpoints := newpoints + [Point((points[i].x - minX) / size, (points[i].y - minY) / size, points[i].id)];
    }
    assert points[..|points|] == points;
    assert Scaled(points) == ScaledBy(points, minX, minY, size);
  }

  function TranslatePoint(p: Point, dx: real, dy: real): Point {
    Point(p.x + dx, p.y + dy, p.id)
  }

  /** Every point moved by (dx, dy), in order. */
  function TranslatedBy(s: seq<Point>, dx: real, dy: real): (r: seq<Point>)
    ensures |r| == |s| && forall i :: 0 <= i < |s| ==> r[i] == TranslatePoint(s[i], dx, dy)
  {
    if |s| == 0 then [] else TranslatedBy(s[..|s| - 1], dx, dy) + [TranslatePoint(s[|s| - 1], dx, dy)]
  }

  /** Translation that moves the centroid onto pt. */
  function Translated(s: seq<Point>, pt: Point): (r: seq<Point>)
  {
    if |s| == 0 then [] else TranslatedBy(s, pt.x - MeanPoint(s).x, pt.y - MeanPoint(s).y)
  }

  /** Moving every point by (dx, dy) adds n copies of the offset to the coordinate sums. */
  lemma {:induction false} SumTranslated(s: seq<Point>, dx: real, dy: real)
    ensures SumOf(TranslatedBy(s, dx, dy), X) == SumOf(s, X) + Repeat(dx, |s|)
    ensures SumOf(TranslatedBy(s, dx, dy), Y) == SumOf(s, Y) + Repeat(dy, |s|)
  {
    if |s| > 0 {
      var t := TranslatedBy(s, dx, dy);
      SumTranslated(s[..|s| - 1], dx, dy);
      assert t[..|s| - 1] == TranslatedBy(s[..|s| - 1], dx, dy);
    }
  }

  lemma MeanShift(total: real, n: real, p: real)
    requires 0.0 < n
    ensures (total + n * (p - total / n)) / n == p
  {
    assert n * (total / n) == total;
    assert n * (p - total / n) == n * p - total;
  }

  /** Translation keeps the shape: coordinate differences are unchanged. */
  lemma {:induction false} TranslatedKeepsShape(s: seq<Point>, pt: Point, i: int, j: int)
    requires 0 <= i < |s| && 0 <= j < |s|
    ensures Translated(s, pt)[i].x - Translated(s, pt)[j].x == s[i].x - s[j].x
    ensures Translated(s, pt)[i].y - Translated(s, pt)[j].y == s[i].y - s[j].y
  {
  }

  /** After translation the centroid is at pt. */
  lemma {:induction false} TranslatedMean(s: seq<Point>, pt: Point)
    requires |s| > 0
    ensures MeanPoint(Translated(s, pt)).x == pt.x && MeanPoint(Translated(s, pt)).y == pt.y
  {
    var n := |s| as real;
    var sx, sy := SumOf(s, X), SumOf(s, Y);
    var dx, dy := pt.x - sx / n, pt.y - sy / n;
    var t := TranslatedBy(s, dx, dy);
    SumTranslated(s, dx, dy);
    MeanOfShifted(SumOf(t, X), sx, n, Repeat(dx, |s|), dx, |s|, pt.x);
    MeanOfShifted(SumOf(t, Y), sy, n, Repeat(dy, |s|), dy, |s|, pt.y);
  }

  /** A total raised by n copies of (p - mean) has mean p. */
  lemma MeanOfShifted(shifted: real, total: real, n: real, rep: real, d: real, k: nat, p: real)
    requires 0 < k && n == k as real && d == p - total / n && rep == Repeat(d, k) && shifted == total + rep
    ensures shifted / n == p
  {
    RepeatIsProduct(d, k);
    MeanShift(total, n, p);
  }

  /** Along one axis, moving every point by the same offset moves the least and the greatest coordinate by it. */
  lemma TranslatedBounds(s: seq<Point>, dx: real, dy: real, a: Axis)
    requires |s| > 0
    ensures var off := Coord(Point(dx, dy, 0), a);
            Least(TranslatedBy(s, dx, dy), a) == Least(s, a) + off
            && Greatest(TranslatedBy(s, dx, dy), a) == Greatest(s, a) + off
  {
    var t, off := TranslatedBy(s, dx, dy), Coord(Point(dx, dy, 0), a);
    assert forall i :: 0 <= i < |s| ==> Coord(t[i], a) == Coord(s[i], a) + off;
    LeastBounds(s, a);
    GreatestBounds(s, a);
    var k :| 0 <= k < |s| && Coord(s[k], a) == Least(s, a);
    var m :| 0 <= m < |s| && Coord(s[m], a) == Greatest(s, a);
    LeastIs(t, a, Least(s, a) + off, k);
    GreatestIs(t, a, Greatest(s, a) + off, m);
  }

  /** Translation keeps the bounding box's sides, so its larger side too. */
  lemma TranslatedKeepsExtent(s: seq<Point>, pt: Point)
    requires |s| > 0
    ensures Extent(Translated(s, pt)) == Extent(s)
  {
    TranslatedBounds(s, pt.x - MeanPoint(s).x, pt.y - MeanPoint(s).y, X);
    TranslatedBounds(s, pt.x - MeanPoint(s).x, pt.y - MeanPoint(s).y, Y);
  }

  /** The source's loop: the centroid, then the translated copy. */
  method TranslateTo(points: seq<Point>, pt: Point) returns (newpoints: seq<Point>)
    ensures newpoints == Translated(points, pt)
  {
    if |points| == 0 {
      return [];
    }
    var c := Centroid(points);
    newpoints := [];
    for i := 0 to |points|
      invariant newpoints == TranslatedBy(points[..i], pt.x - c.x, pt.y - c.y)
    {
      assert points[..i + 1][..i] == points[..i];
      newpoints := newpoints + [Point(points[i].x + pt.x - c.x, points[i].y + pt.y - c.y, points[i].id)];
    }
    assert points[..|points|] == points;
  }

  /** A named template: the gesture's points resampled, scaled and translated. */
  datatype PointCloud = PointCloud(name: string, points: seq<Point>)

  /**
   * The gestures the normalisation is defined for: a path of positive length
   * whose resampled points do not all coincide. Other gestures divide by zero
   * in the source.
   */
  ghost predicate Normalizable(dist: DistanceFn, s: seq<Point>)
  {
    IsEuclidean(dist) && 0.0 < ArcLength(dist, s) && 0.0 < Extent(Resampled(dist, s, NumPoints).out)
  }

  /** Resampling, scaling into the unit box and moving the centroid to the origin, in that order. */
  function Normalized(dist: DistanceFn, s: seq<Point>): seq<Point>
    requires Normalizable(dist, s)
  {
    Translated(Scaled(Resampled(dist, s, NumPoints).out), Origin)
  }

  /**
   * A normalised gesture has NumPoints points, with its centroid at the
   * origin and the larger side of its bounding box exactly 1.
   */
  lemma NormalizedFacts(dist: DistanceFn, s: seq<Point>)
    requires Normalizable(dist, s)
    ensures |Normalized(dist, s)| == NumPoints
    ensures MeanPoint(Normalized(dist, s)).x == 0.0 && MeanPoint(Normalized(dist, s)).y == 0.0
    ensures Extent(Normalized(dist, s)) == 1.0
  {
    var r := Resampled(dist, s, NumPoints).out;
    TranslatedMean(Scaled(r), Origin);
    ScaledExtentOne(r);
    TranslatedKeepsExtent(Scaled(r), Origin);
  }

  /** The source's constructor: the three steps in turn, with the resampling splicing into the caller's array. */
  method NewPointCloud(dist: DistanceFn, name: string, points: PointList) returns (cloud: PointCloud)
    requires Normalizable(dist, points.elems)
    modifies points
    ensures cloud == PointCloud(name, Normalized(dist, old(points.elems)))
    ensures points.elems == Resampled(dist, old(points.elems), NumPoints).spliced
  {
    var resampled := Resample(dist, points, NumPoints);
    var scaled := Scale(resampled);
    var translated := TranslateTo(scaled, Origin);
    cloud := PointCloud(name, translated);
  }
}
