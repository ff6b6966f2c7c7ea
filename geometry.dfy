/** Points, Euclidean distance, path length, centroid and bounding box. */
module Geometry {

  /** A sampled pen position, tagged with the stroke it belongs to. */
  datatype Point = Point(x: real, y: real, id: int)

  /** The shape of the distance function every computation is given. */
  type DistanceFn = (Point, Point) -> real

  function Min(a: real, b: real): real { if a <= b then a else b }
  function Max(a: real, b: real): real { if a >= b then a else b }

  function SqDist(p: Point, q: Point): real {
    (q.x - p.x) * (q.x - p.x) + (q.y - p.y) * (q.y - p.y)
  }

  /**
   * Dafny has no square root, so the Euclidean distance is characterised
   * instead: `dist(p, q)` is the nonnegative number whose square is the
   * squared coordinate difference. Only one function has this property.
   */
  ghost predicate IsEuclidean(dist: DistanceFn) {
    NonNegative(dist) && forall p: Point, q: Point :: dist(p, q) * dist(p, q) == SqDist(p, q)
  }

  /** The part of being a distance that path lengths need. */
  ghost predicate NonNegative(dist: DistanceFn) {
    forall p: Point, q: Point :: 0.0 <= dist(p, q)
  }

  lemma PosMul(c: real, d: real)
    requires 0.0 < c && 0.0 < d
    ensures 0.0 < c * d
  {
  }

  lemma DiffSquares(a: real, b: real)
    ensures a * a - b * b == (a - b) * (a + b)
  {
  }

  lemma NonnegMul(a: real, b: real)
    requires 0.0 <= a && 0.0 <= b
    ensures 0.0 <= a * b
  {
  }

  /** Two nonnegative numbers with the same square are equal. */
  lemma NonnegRootUnique(a: real, b: real)
    requires 0.0 <= a && 0.0 <= b && a * a == b * b
    ensures a == b
  {
    DiffSquares(a, b);
    if a > b { PosMul(a - b, a + b); } else if a < b { PosMul(b - a, a + b); }
  }

  lemma DistanceSymmetric(dist: DistanceFn, p: Point, q: Point)
    requires IsEuclidean(dist)
    ensures dist(p, q) == dist(q, p)
  {
    assert SqDist(p, q) == SqDist(q, p);
    NonnegRootUnique(dist(p, q), dist(q, p));
  }

  /** Points with the same coordinates are at distance zero, whatever their strokes. */
  lemma DistanceToSamePlace(dist: DistanceFn, p: Point, q: Point)
    requires IsEuclidean(dist) && p.x == q.x && p.y == q.y
    ensures dist(p, q) == 0.0
  {
    assert SqDist(p, q) == 0.0 * 0.0;
    NonnegRootUnique(dist(p, q), 0.0);
  }

  lemma PosMulIs(c: real, d: real, r: real)
    requires 0.0 < c && 0.0 < d && r == c * d
    ensures 0.0 < r
  {
    PosMul(c, d);
  }

  /** A number times itself, kept as one term so that its sign can be stated. */
  function Sq(a: real): real { a * a }

  lemma SqPositive(a: real)
    requires a != 0.0
    ensures 0.0 < Sq(a)
  {
    if a > 0.0 {
      PosMulIs(a, a, Sq(a));
    } else {
      PosMulIs(-a, -a, Sq(a));
    }
  }

  lemma SqNonneg(a: real)
    ensures 0.0 <= Sq(a)
  {
    if a != 0.0 {
      SqPositive(a);
    } else {
      assert Sq(a) == Sq(0.0) == 0.0;
    }
  }

  /** Points in different places are at a positive squared distance. */
  lemma SqDistPositive(p: Point, q: Point)
    requires p.x != q.x || p.y != q.y
    ensures 0.0 < SqDist(p, q)
  {
    assert SqDist(p, q) == Sq(q.x - p.x) + Sq(q.y - p.y);
    SqNonneg(q.x - p.x);
    SqNonneg(q.y - p.y);
    if p.x != q.x {
      SqPositive(q.x - p.x);
    } else {
      SqPositive(q.y - p.y);
    }
  }

  /** Points at distance zero have the same coordinates, whatever their strokes. */
  lemma DistanceZeroIsSamePlace(dist: DistanceFn, p: Point, q: Point)
    requires IsEuclidean(dist) && dist(p, q) == 0.0
    ensures p.x == q.x && p.y == q.y
  {
    assert SqDist(p, q) == 0.0 * 0.0;
    if p.x != q.x || p.y != q.y {
      SqDistPositive(p, q);
      assert false;
    }
  }

  /** The point at fraction `t` of the way from `a` to `b`, in the stroke of `b`. */
  function Interp(a: Point, b: Point, t: real): Point {
    Point(a.x + t * (b.x - a.x), a.y + t * (b.y - a.y), b.id)
  }

  lemma ScaledSquares(dx: real, dy: real, d: real, t: real)
    requires d * d == dx * dx + dy * dy
    ensures (t * dx) * (t * dx) + (t * dy) * (t * dy) == (t * d) * (t * d)
  {
    assert (t * dx) * (t * dx) + (t * dy) * (t * dy) == (t * t) * (dx * dx + dy * dy);
    assert (t * d) * (t * d) == (t * t) * (d * d);
  }

  /** A step whose coordinate differences are those of another scaled by t >= 0 is t times as long. */
  lemma ScaledStep(dist: DistanceFn, p: Point, q: Point, a: Point, b: Point, t: real)
    requires IsEuclidean(dist) && 0.0 <= t
    requires q.x - p.x == t * (b.x - a.x) && q.y - p.y == t * (b.y - a.y)
    ensures dist(p, q) == t * dist(a, b)
  {
    var d := dist(a, b);
    assert d * d == SqDist(a, b);
    ScaledSquares(b.x - a.x, b.y - a.y, d, t);
    assert SqDist(p, q) == (t * d) * (t * d);
    NonnegMul(t, d);
    NonnegRootUnique(dist(p, q), t * d);
  }

  /** Cutting a segment at fraction t splits its length into t and 1 - t of the whole. */
  lemma InterpSplitsDistance(dist: DistanceFn, a: Point, b: Point, t: real)
    requires IsEuclidean(dist) && 0.0 <= t <= 1.0
    ensures dist(a, Interp(a, b, t)) == t * dist(a, b)
    ensures dist(Interp(a, b, t), b) == (1.0 - t) * dist(a, b)
  {
    var q := Interp(a, b, t);
    ScaledStep(dist, a, q, a, b, t);
    assert b.x - q.x == (1.0 - t) * (b.x - a.x) && b.y - q.y == (1.0 - t) * (b.y - a.y);
    ScaledStep(dist, q, b, a, b, 1.0 - t);
  }

  /** The length contributed by the step from p to q: zero across a stroke boundary. */
  function Seg(dist: DistanceFn, p: Point, q: Point): real {
    if p.id == q.id then dist(p, q) else 0.0
  }

  /** Length of a multi-stroke path, measured only between consecutive points of one stroke. */
  function ArcLength(dist: DistanceFn, s: seq<Point>): (r: real)
    requires NonNegative(dist)
    ensures 0.0 <= r
  {
    if |s| < 2 then 0.0 else Seg(dist, s[0], s[1]) + ArcLength(dist, s[1..])
  }

  /** Path length is additive at any point of the path. */
  lemma {:induction false} ArcLengthSplit(dist: DistanceFn, s: seq<Point>, k: int)
    requires NonNegative(dist) && 0 <= k < |s|
    ensures ArcLength(dist, s) == ArcLength(dist, s[..k + 1]) + ArcLength(dist, s[k..])
  {
    if k > 0 {
      ArcLengthSplit(dist, s[1..], k - 1);
      assert s[1..][..k] == s[..k + 1][1..];
      assert s[1..][k - 1..] == s[k..];
    }
  }

  /** A stroke boundary contributes nothing: the path length falls apart into the two sides. */
  lemma ArcLengthAtStrokeBoundary(dist: DistanceFn, s: seq<Point>, k: int)
    requires NonNegative(dist) && 0 <= k && k + 1 < |s| && s[k].id != s[k + 1].id
    ensures ArcLength(dist, s) == ArcLength(dist, s[..k + 1]) + ArcLength(dist, s[k + 1..])
  {
    ArcLengthSplit(dist, s, k);
    assert s[k..][1..] == s[k + 1..];
  }

  /** Appending a point adds the length of the last step only. */
  lemma ArcLengthAppend(dist: DistanceFn, s: seq<Point>, p: Point)
    requires NonNegative(dist) && |s| > 0
    ensures ArcLength(dist, s + [p]) == ArcLength(dist, s) + Seg(dist, s[|s| - 1], p)
  {
    var t := s + [p];
    ArcLengthSplit(dist, t, |s| - 1);
    assert t[..|s|] == s;
    assert t[|s| - 1..] == [s[|s| - 1], p];
  }

  /** The source's loop: adds up the in-stroke steps from the front. */
  method PathLength(dist: DistanceFn, points: seq<Point>) returns (d: real)
    requires NonNegative(dist)
    ensures d == ArcLength(dist, points)
  {
    d := 0.0;
    var i := 1;
    while i < |points|
      invariant |points| == 0 ==> d == 0.0
      invariant |points| > 0 ==> i <= |points| && d == ArcLength(dist, points[..i])
    {
      if points[i].id == points[i - 1].id {
        d := d + dist(points[i - 1], points[i]);
      }
      ArcLengthAppend(dist, points[..i], points[i]);
      assert points[..i + 1] == points[..i] + [points[i]];
      i := i + 1;
    }
    if |points| > 0 {
      assert points[..i] == points;
    }
  }

  /** n copies of d added up: multiplication by a count, kept linear for the solver. */
  function Repeat(d: real, n: nat): real {
    if n == 0 then 0.0 else Repeat(d, n - 1) + d
  }

  lemma {:induction false} RepeatIsProduct(d: real, n: nat)
    ensures Repeat(d, n) == (n as real) * d
  {
    if n > 0 {
      RepeatIsProduct(d, n - 1);
      assert ((n - 1) as real) * d + d == (n as real) * d;
    }
  }

  /** The two coordinate axes; the source repeats each coordinate computation once per axis. */
  datatype Axis = X | Y

  function Coord(p: Point, a: Axis): real {
    match a
    case X => p.x
    case Y => p.y
  }

  /** Least coordinate, folded from the left as the source's loops do. */
  function Least(s: seq<Point>, a: Axis): real
    requires |s| > 0
  {
    if |s| == 1 then Coord(s[0], a) else Min(Least(s[..|s| - 1], a), Coord(s[|s| - 1], a))
  }

  /** Greatest coordinate, folded from the left as the source's loops do. */
  function Greatest(s: seq<Point>, a: Axis): real
    requires |s| > 0
  {
    if |s| == 1 then Coord(s[0], a) else Max(Greatest(s[..|s| - 1], a), Coord(s[|s| - 1], a))
  }

  /** The fold's result is a lower bound on the coordinates, attained by one of the points. */
  lemma {:induction false} LeastBounds(s: seq<Point>, a: Axis)
    requires |s| > 0
    ensures forall i :: 0 <= i < |s| ==> Least(s, a) <= Coord(s[i], a)
    ensures exists i :: 0 <= i < |s| && Coord(s[i], a) == Least(s, a)
  {
    if |s| > 1 {
      var t := s[..|s| - 1];
      LeastBounds(t, a);
      var j :| 0 <= j < |t| && Coord(t[j], a) == Least(t, a);
      forall i | 0 <= i < |s|
        ensures Least(s, a) <= Coord(s[i], a)
      {
        if i < |t| {
          assert t[i] == s[i];
        }
      }
      if Coord(s[|s| - 1], a) < Least(t, a) {
        assert Coord(s[|s| - 1], a) == Least(s, a);
      } else {
        assert Coord(s[j], a) == Least(s, a);
      }
    } else {
      assert Coord(s[0], a) == Least(s, a);
    }
  }

  /** The fold's result is an upper bound on the coordinates, attained by one of the points. */
  lemma {:induction false} GreatestBounds(s: seq<Point>, a: Axis)
    requires |s| > 0
    ensures forall i :: 0 <= i < |s| ==> Coord(s[i], a) <= Greatest(s, a)
    ensures exists i :: 0 <= i < |s| && Coord(s[i], a) == Greatest(s, a)
  {
    if |s| > 1 {
      var t := s[..|s| - 1];
      GreatestBounds(t, a);
      var j :| 0 <= j < |t| && Coord(t[j], a) == Greatest(t, a);
      forall i | 0 <= i < |s|
        ensures Coord(s[i], a) <= Greatest(s, a)
      {
        if i < |t| {
          assert t[i] == s[i];
        }
      }
      if Coord(s[|s| - 1], a) > Greatest(t, a) {
        assert Coord(s[|s| - 1], a) == Greatest(s, a);
      } else {
        assert Coord(s[j], a) == Greatest(s, a);
      }
    } else {
      assert Coord(s[0], a) == Greatest(s, a);
    }
  }

  /** The least coordinate is at most the greatest. */
  lemma LeastAtMostGreatest(s: seq<Point>, a: Axis)
    requires |s| > 0
    ensures Least(s, a) <= Greatest(s, a)
  {
    LeastBounds(s, a);
    GreatestBounds(s, a);
    assert Least(s, a) <= Coord(s[0], a) <= Greatest(s, a);
  }

  /** A lower bound that is attained is the least coordinate. */
  lemma LeastIs(s: seq<Point>, a: Axis, m: real, k: int)
    requires 0 <= k < |s| && Coord(s[k], a) == m && forall i :: 0 <= i < |s| ==> m <= Coord(s[i], a)
    ensures Least(s, a) == m
  {
    LeastBounds(s, a);
  }

  /** An upper bound that is attained is the greatest coordinate. */
  lemma GreatestIs(s: seq<Point>, a: Axis, m: real, k: int)
    requires 0 <= k < |s| && Coord(s[k], a) == m && forall i :: 0 <= i < |s| ==> Coord(s[i], a) <= m
    ensures Greatest(s, a) == m
  {
    GreatestBounds(s, a);
  }

  /** One more point extends the fold by one step. */
  lemma LeastGreatestStep(s: seq<Point>, a: Axis, i: int)
    requires 0 < i < |s|
    ensures Least(s[..i + 1], a) == Min(Least(s[..i], a), Coord(s[i], a))
    ensures Greatest(s[..i + 1], a) == Max(Greatest(s[..i], a), Coord(s[i], a))
  {
    assert s[..i + 1][..i] == s[..i];
  }

  /** Sum of one coordinate over all points, added up from the front. */
  function SumOf(s: seq<Point>, a: Axis): real {
    if |s| == 0 then 0.0 else SumOf(s[..|s| - 1], a) + Coord(s[|s| - 1], a)
  }

  lemma {:induction false} SumBounds(s: seq<Point>, a: Axis, lo: real, hi: real)
    requires forall i :: 0 <= i < |s| ==> lo <= Coord(s[i], a) <= hi
    ensures Repeat(lo, |s|) <= SumOf(s, a) <= Repeat(hi, |s|)
  {
    if |s| > 0 {
      SumBounds(s[..|s| - 1], a, lo, hi);
    }
  }

  /** Arithmetic mean of all coordinates, strokes ignored; the result is in stroke 0. */
  function MeanPoint(s: seq<Point>): Point
    requires |s| > 0
  {
    Point(SumOf(s, X) / (|s| as real), SumOf(s, Y) / (|s| as real), 0)
  }

  /** The source's loop: sums both coordinates, then divides by the count. */
  method Centroid(points: seq<Point>) returns (c: Point)
    requires |points| > 0
    ensures c == MeanPoint(points)
  {
    var x, y := 0.0, 0.0;
    for i := 0 to |points|
      invariant x == SumOf(points[..i], X) && y == SumOf(points[..i], Y)
    {
      assert points[..i + 1][..i] == points[..i];
      x := x + points[i].x;
      y := y + points[i].y;
    }
    assert points[..|points|] == points;
    x := x / (|points| as real);
    y := y / (|points| as real);
    c := Point(x, y, 0);
  }

  /** A total between n times lo and n times hi has its mean between lo and hi. */
  lemma MeanBounds(total: real, n: real, lo: real, hi: real)
    requires 0.0 < n && n * lo <= total <= n * hi
    ensures lo <= total / n <= hi
  {
    var m := total / n;
    assert total == n * m;
  }

  /** The mean of one coordinate lies within any bounds of its values. */
  lemma MeanWithin(s: seq<Point>, a: Axis, lo: real, hi: real)
    requires |s| > 0 && forall i :: 0 <= i < |s| ==> lo <= Coord(s[i], a) <= hi
    ensures lo <= SumOf(s, a) / (|s| as real) <= hi
  {
    SumBounds(s, a, lo, hi);
    RepeatIsProduct(lo, |s|);
    RepeatIsProduct(hi, |s|);
    MeanBounds(SumOf(s, a), |s| as real, lo, hi);
  }

  /** The centroid lies inside every axis-aligned box that holds all the points. */
  lemma MeanPointInBox(s: seq<Point>, minX: real, maxX: real, minY: real, maxY: real)
    requires |s| > 0
    requires forall i :: 0 <= i < |s| ==> minX <= s[i].x <= maxX && minY <= s[i].y <= maxY
    ensures minX <= MeanPoint(s).x <= maxX && minY <= MeanPoint(s).y <= maxY
  {
    MeanWithin(s, X, minX, maxX);
    MeanWithin(s, Y, minY, maxY);
  }
}
