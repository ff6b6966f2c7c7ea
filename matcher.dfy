/**
 * The greedy point-cloud matcher: each point of one cloud, visited in
 * circular order from a start index, is matched to the nearest point of the
 * other cloud not matched yet, and the distances are added up with weights
 * that decay along the walk. The match distance of two clouds is the least
 * such sum over a sample of start indices, taken in both directions.
 */
module Matcher {
  import opened Geometry

  /**
   * The best candidate a scan has found so far: none yet (the source keeps
   * index -1 and distance +Infinity), or an index with its distance.
   */
  datatype Best = NoneYet | Best(index: int, d: real)

  /**
   * The scan of pts2[..j] for the unmatched point nearest to p. Only a
   * strictly smaller distance replaces the current candidate.
   */
  function Scan(dist: DistanceFn, p: Point, pts2: seq<Point>, matched: seq<bool>, j: int): Best
    requires 0 <= j <= |pts2| == |matched|
  {
    if j == 0 then NoneYet
    else
      var b := Scan(dist, p, pts2, matched, j - 1);
      if !matched[j - 1] && (b.NoneYet? || dist(p, pts2[j - 1]) < b.d) then Best(j - 1, dist(p, pts2[j - 1])) else b
  }

  /** The scan finds nothing exactly when every scanned point is matched already. */
  lemma {:induction false} ScanFindsUnmatched(dist: DistanceFn, p: Point, pts2: seq<Point>, matched: seq<bool>, j: int)
    requires 0 <= j <= |pts2| == |matched|
    ensures Scan(dist, p, pts2, matched, j).NoneYet? <==> forall i :: 0 <= i < j ==> matched[i]
  {
    if j > 0 {
      ScanFindsUnmatched(dist, p, pts2, matched, j - 1);
    }
  }

  /**
   * What the scan finds is an unmatched point at least distance among the
   * unmatched ones, and the first of them: every unmatched point before it
   * is strictly farther.
   */
  lemma {:induction false} ScanFindsNearest(dist: DistanceFn, p: Point, pts2: seq<Point>, matched: seq<bool>, j: int)
    requires 0 <= j <= |pts2| == |matched|
    ensures var b := Scan(dist, p, pts2, matched, j);
            b.Best? ==>
              0 <= b.index < j && !matched[b.index] && b.d == dist(p, pts2[b.index])
              && (forall i :: 0 <= i < j && !matched[i] ==> b.d <= dist(p, pts2[i]))
              && (forall i :: 0 <= i < b.index && !matched[i] ==> b.d < dist(p, pts2[i]))
  {
    if j > 0 {
      ScanFindsNearest(dist, p, pts2, matched, j - 1);
      ScanFindsUnmatched(dist, p, pts2, matched, j - 1);
    }
  }

  /** Number of matched points. */
  function CountTrue(s: seq<bool>): nat {
    if |s| == 0 then 0 else CountTrue(s[..|s| - 1]) + (if s[|s| - 1] then 1 else 0)
  }

  /** Marking one more point as matched raises the count by one. */
  lemma {:induction false} CountTrueMark(s: seq<bool>, j: int)
    requires 0 <= j < |s| && !s[j]
    ensures CountTrue(s[j := true]) == CountTrue(s) + 1
  {
    var t := s[j := true];
    if j < |s| - 1 {
      assert t[..|s| - 1] == s[..|s| - 1][j := true];
      CountTrueMark(s[..|s| - 1], j);
    } else {
      assert t[..|s| - 1] == s[..|s| - 1];
    }
  }

  /** The count is at most the length, and reaches it only when every point is matched. */
  lemma {:induction false} CountTrueFull(s: seq<bool>)
    ensures CountTrue(s) <= |s|
    ensures CountTrue(s) == |s| <==> forall i :: 0 <= i < |s| ==> s[i]
  {
    if |s| > 0 {
      CountTrueFull(s[..|s| - 1]);
    }
  }

  function NoneMatched(n: nat): (r: seq<bool>)
    ensures |r| == n && CountTrue(r) == 0 && forall i :: 0 <= i < n ==> !r[i]
  {
    if n == 0 then [] else NoneMatched(n - 1) + [false]
  }

  /** While fewer than all points are matched, the full scan finds an unmatched one. */
  lemma ScanFindsSome(dist: DistanceFn, p: Point, pts2: seq<Point>, matched: seq<bool>)
    requires |pts2| == |matched| && CountTrue(matched) < |matched|
    ensures var b := Scan(dist, p, pts2, matched, |pts2|);
            b.Best? && 0 <= b.index < |pts2| && !matched[b.index]
  {
    CountTrueFull(matched);
    ScanFindsUnmatched(dist, p, pts2, matched, |pts2|);
    ScanFindsNearest(dist, p, pts2, matched, |pts2|);
  }

  /** The state of the greedy matching after some rounds: which points of pts2 are taken, in which order, and at which distances. */
  datatype Matching = Matching(matched: seq<bool>, order: seq<int>, dists: seq<real>)

  /** The weight of the k-th visited point of n: 1 - k/n. */
  function Weight(k: int, n: int): real
    requires 0 < n
  {
    1.0 - (k as real) / (n as real)
  }

  /** The distances of the rounds, the k-th weighted by 1 - k/n, added up in order. */
  function WeightedSum(ds: seq<real>, n: int): real
    requires 0 < n
  {
    if |ds| == 0 then 0.0 else WeightedSum(ds[..|ds| - 1], n) + Weight(|ds| - 1, n) * ds[|ds| - 1]
  }

  lemma WeightedSumAppend(ds: seq<real>, n: int, d: real, sum: real, w: real)
    requires 0 < n && sum == WeightedSum(ds, n) && w == Weight(|ds|, n)
    ensures WeightedSum(ds + [d], n) == sum + w * d
  {
    assert (ds + [d])[..|ds|] == ds;
  }

  /** The index of pts1 visited in round k: the walk goes round from start, back to 0 after n - 1. */
  function Visited(start: int, k: int, n: int): (r: int)
    requires 0 <= start < n && 0 <= k <= n
    ensures 0 <= r < n
  {
    if start + k < n then start + k else start + k - n
  }

  /** Round k of the greedy matching: the nearest unmatched point to the one visited is matched and its weighted distance added. */
  function Round(dist: DistanceFn, pts1: seq<Point>, pts2: seq<Point>, start: int, k: int, m: Matching): (r: Matching)
    requires 0 < |pts1| == |pts2| == |m.matched| && 0 <= start < |pts1| && 0 <= k < |pts1| && CountTrue(m.matched) < |pts2|
    ensures |r.matched| == |pts2| && |r.order| == |m.order| + 1 && |r.dists| == |m.dists| + 1
    ensures CountTrue(r.matched) == CountTrue(m.matched) + 1
  {
    var n := |pts1|;
    var p := pts1[Visited(start, k, n)];
    ScanFindsSome(dist, p, pts2, m.matched);
    var b := Scan(dist, p, pts2, m.matched, n);
    CountTrueMark(m.matched, b.index);
    Matching(m.matched[b.index := true], m.order + [b.index], m.dists + [b.d])
  }

  /**
   * The first k rounds of the greedy matching from start. Round r takes the
   * point of pts1 visited r-th, matches it to the nearest unmatched point of
   * pts2 and adds that distance with weight 1 - r/n.
   */
  function Rounds(dist: DistanceFn, pts1: seq<Point>, pts2: seq<Point>, start: int, k: int): (m: Matching)
    requires 0 < |pts1| == |pts2| && 0 <= start < |pts1| && 0 <= k <= |pts1|
    ensures |m.matched| == |pts2| && |m.order| == k && |m.dists| == k && CountTrue(m.matched) == k
  {
    if k == 0 then Matching(NoneMatched(|pts1|), [], [])
    else Round(dist, pts1, pts2, start, k - 1, Rounds(dist, pts1, pts2, start, k - 1))
  }

  /** The weighted greedy matching of pts1 to pts2 from start: the sum after all n rounds. */
  function CloudCost(dist: DistanceFn, pts1: seq<Point>, pts2: seq<Point>, start: int): real
    requires 0 < |pts1| == |pts2| && 0 <= start < |pts1|
  {
    WeightedSum(Rounds(dist, pts1, pts2, start, |pts1|).dists, |pts1|)
  }

  /** The rounds walk round the cloud: every index is visited once, and the walk is back at start after n rounds and not before. */
  lemma VisitedOnce(start: int, k1: int, k2: int, n: int)
    requires 0 <= start < n && 0 <= k1 < k2 <= n
    ensures 0 <= Visited(start, k1, n) < n
    ensures k2 < n ==> Visited(start, k1, n) != Visited(start, k2, n)
    ensures Visited(start, k2, n) == start <==> k2 == n
  {
  }

  lemma ModBelow(x: int, n: int)
    requires 0 <= x < n
    ensures x % n == x
  {
  }

  lemma ModOnceOver(x: int, n: int)
    requires n <= x < 2 * n
    ensures x % n == x - n
  {
  }

  /** The source's step i = (i + 1) % n moves to the next visited index. */
  lemma VisitedNext(start: int, k: int, n: int, i: int)
    requires 0 <= start < n && 0 <= k < n && i == Visited(start, k, n)
    ensures (i + 1) % n == Visited(start, k + 1, n)
    ensures (i + 1) % n == start <==> k + 1 == n
  {
    if i + 1 < n {
      ModBelow(i + 1, n);
    } else {
      ModOnceOver(n, n);
    }
  }

  /** The source's weight, computed from the visited index, is 1 - k/n. */
  lemma WeightOfRound(start: int, k: int, n: int)
    requires 0 <= start < n && 0 <= k < n
    ensures (Visited(start, k, n) - start + n) % n == k
  {
    if start + k < n {
      ModOnceOver(k + n, n);
    } else {
      ModBelow(k, n);
    }
  }

  /** Every weight lies in (0, 1]. */
  lemma WeightInRange(k: int, n: int)
    requires 0 <= k < n
    ensures 0.0 < Weight(k, n) <= 1.0
  {
    var w := (k as real) / (n as real);
    assert w * (n as real) == k as real;
  }

  /**
   * The bookkeeping of a matching: every chosen index is in range, a point
   * is marked matched exactly when it was chosen, and none was chosen twice.
   */
  ghost predicate Consistent(matched: seq<bool>, order: seq<int>)
  {
    && (forall r :: 0 <= r < |order| ==> 0 <= order[r] < |matched|)
    && (forall j :: 0 <= j < |matched| ==> (matched[j] <==> j in order))
    && (forall r1, r2 :: 0 <= r1 < r2 < |order| ==> order[r1] != order[r2])
  }

  /** Choosing an unmatched point keeps the bookkeeping consistent. */
  lemma ChooseKeepsConsistent(matched: seq<bool>, order: seq<int>, c: int)
    requires Consistent(matched, order) && 0 <= c < |matched| && !matched[c]
    ensures Consistent(matched[c := true], order + [c])
  {
    var matched', order' := matched[c := true], order + [c];
    assert c !in order;
    forall j | 0 <= j < |matched|
      ensures matched'[j] <==> j in order'
    {
      assert j in order' <==> j in order || j == c;
    }
    forall r1, r2 | 0 <= r1 < r2 < |order'|
      ensures order'[r1] != order'[r2]
    {
      assert order'[r1] == order[r1] && order[r1] in order;
    }
  }

  /** Every round keeps the bookkeeping consistent. */
  lemma {:induction false} RoundsChooseDistinct(dist: DistanceFn, pts1: seq<Point>, pts2: seq<Point>, start: int, k: int)
    requires 0 < |pts1| == |pts2| && 0 <= start < |pts1| && 0 <= k <= |pts1|
    ensures Consistent(Rounds(dist, pts1, pts2, start, k).matched, Rounds(dist, pts1, pts2, start, k).order)
  {
    if k > 0 {
      RoundsChooseDistinct(dist, pts1, pts2, start, k - 1);
      var m := Rounds(dist, pts1, pts2, start, k - 1);
      var p := pts1[Visited(start, k - 1, |pts1|)];
      ScanFindsSome(dist, p, pts2, m.matched);
      var c := Scan(dist, p, pts2, m.matched, |pts2|).index;
      ChooseKeepsConsistent(m.matched, m.order, c);
    } else {
      assert NoneMatched(|pts1|) == Rounds(dist, pts1, pts2, start, 0).matched;
    }
  }

  /** After all n rounds the chosen indices are a permutation of 0 .. n - 1: each point of pts2 is matched exactly once. */
  lemma MatchesEveryPointOnce(dist: DistanceFn, pts1: seq<Point>, pts2: seq<Point>, start: int)
    requires 0 < |pts1| == |pts2| && 0 <= start < |pts1|
    ensures var m := Rounds(dist, pts1, pts2, start, |pts1|);
            |m.order| == |pts2|
            && (forall j :: 0 <= j < |pts2| ==> j in m.order)
            && (forall r1, r2 :: 0 <= r1 < r2 < |m.order| ==> m.order[r1] != m.order[r2])
  {
    var m := Rounds(dist, pts1, pts2, start, |pts1|);
    RoundsChooseDistinct(dist, pts1, pts2, start, |pts1|);
    CountTrueFull(m.matched);
  }

  /**
   * The point chosen in round r is the nearest one still unmatched to the
   * point visited in that round, and the lowest-indexed of those at that
   * distance.
   */
  lemma RoundChoosesNearest(dist: DistanceFn, pts1: seq<Point>, pts2: seq<Point>, start: int, r: int)
    requires 0 < |pts1| == |pts2| && 0 <= start < |pts1| && 0 <= r < |pts1|
    ensures var before := Rounds(dist, pts1, pts2, start, r).matched;
            var p := pts1[Visited(start, r, |pts1|)];
            var c := Rounds(dist, pts1, pts2, start, r + 1).order[r];
            0 <= c < |pts2| && !before[c]
            && (forall j :: 0 <= j < |pts2| && !before[j] ==> dist(p, pts2[c]) <= dist(p, pts2[j]))
            && (forall j :: 0 <= j < c && !before[j] ==> dist(p, pts2[c]) < dist(p, pts2[j]))
  {
    var m := Rounds(dist, pts1, pts2, start, r);
    var p := pts1[Visited(start, r, |pts1|)];
    ScanFindsSome(dist, p, pts2, m.matched);
    ScanFindsNearest(dist, p, pts2, m.matched, |pts1|);
    var b := Scan(dist, p, pts2, m.matched, |pts2|);
    assert Rounds(dist, pts1, pts2, start, r + 1).order[r] == b.index;
  }

  /** Each round records the distance from the visited point to the point it chose. */
  lemma {:induction false} RoundsRecordDistances(dist: DistanceFn, pts1: seq<Point>, pts2: seq<Point>, start: int, k: int)
    requires 0 < |pts1| == |pts2| && 0 <= start < |pts1| && 0 <= k <= |pts1|
    ensures var m := Rounds(dist, pts1, pts2, start, k);
            forall r :: 0 <= r < k ==> 0 <= m.order[r] < |pts2| && m.dists[r] == dist(pts1[Visited(start, r, |pts1|)], pts2[m.order[r]])
  {
    if k > 0 {
      RoundsRecordDistances(dist, pts1, pts2, start, k - 1);
      var m := Rounds(dist, pts1, pts2, start, k - 1);
      var p := pts1[Visited(start, k - 1, |pts1|)];
      ScanFindsSome(dist, p, pts2, m.matched);
      ScanFindsNearest(dist, p, pts2, m.matched, |pts2|);
    }
  }

  /** Nonnegative distances under weights in (0, 1] add up to a nonnegative sum. */
  lemma {:induction false} WeightedSumNonnegative(ds: seq<real>, n: int)
    requires 0 < n && |ds| <= n && forall r :: 0 <= r < |ds| ==> 0.0 <= ds[r]
    ensures 0.0 <= WeightedSum(ds, n)
  {
    if |ds| > 0 {
      WeightedSumNonnegative(ds[..|ds| - 1], n);
      WeightInRange(|ds| - 1, n);
      NonnegMul(Weight(|ds| - 1, n), ds[|ds| - 1]);
    }
  }

  /** With nonnegative distances the cloud distance is never negative. */
  lemma CloudCostNonnegative(dist: DistanceFn, pts1: seq<Point>, pts2: seq<Point>, start: int)
    requires NonNegative(dist) && 0 < |pts1| == |pts2| && 0 <= start < |pts1|
    ensures 0.0 <= CloudCost(dist, pts1, pts2, start)
  {
    RoundsRecordDistances(dist, pts1, pts2, start, |pts1|);
    WeightedSumNonnegative(Rounds(dist, pts1, pts2, start, |pts1|).dists, |pts1|);
  }

  /**
   * Matching a cloud against itself, after k rounds: every point still to be
   * visited has a partner, a point in the same place that is not matched
   * yet, and no two of them share one.
   */
  ghost predicate Partnered(a: seq<Point>, start: int, k: int, matched: seq<bool>, partner: seq<int>)
    requires 0 <= start < |a| && 0 <= k <= |a| && |matched| == |a|
  {
    && |partner| == |a|
    && (forall r :: k <= r < |a| ==>
          var u := Visited(start, r, |a|);
          0 <= partner[u] < |a| && !matched[partner[u]] && a[partner[u]].x == a[u].x && a[partner[u]].y == a[u].y)
    && (forall r1, r2 :: k <= r1 < r2 < |a| ==> partner[Visited(start, r1, |a|)] != partner[Visited(start, r2, |a|)])
  }

  /** Before the first round every point is its own partner. */
  lemma PartneredAtStart(a: seq<Point>, start: int) returns (partner: seq<int>)
    requires 0 <= start < |a|
    ensures Partnered(a, start, 0, NoneMatched(|a|), partner)
  {
    partner := seq(|a|, j => j);
    forall r1, r2 | 0 <= r1 < r2 < |a|
      ensures partner[Visited(start, r1, |a|)] != partner[Visited(start, r2, |a|)]
    {
      VisitedOnce(start, r1, r2, |a|);
    }
  }

  /**
   * A round of matching a cloud against itself finds a point in the place of
   * the visited one, at distance zero, and the partners can be rearranged so
   * that the points still to be visited keep theirs.
   */
  lemma PartneredRound(dist: DistanceFn, a: seq<Point>, start: int, k: int, partner: seq<int>) returns (partner': seq<int>)
    requires IsEuclidean(dist) && 0 <= start < |a| && 0 <= k < |a|
    requires Partnered(a, start, k, Rounds(dist, a, a, start, k).matched, partner)
    ensures Partnered(a, start, k + 1, Rounds(dist, a, a, start, k + 1).matched, partner')
    ensures Rounds(dist, a, a, start, k + 1).dists == Rounds(dist, a, a, start, k).dists + [0.0]
  {
    var n, m := |a|, Rounds(dist, a, a, start, k);
    var i := Visited(start, k, n);
    var w := partner[i];
    ScanFindsSome(dist, a[i], a, m.matched);
    ScanFindsNearest(dist, a[i], a, m.matched, n);
    var b := Scan(dist, a[i], a, m.matched, n);
    var c := b.index;
    DistanceToSamePlace(dist, a[i], a[w]);
    assert b.d == 0.0;
    DistanceZeroIsSamePlace(dist, a[i], a[c]);
    var matched' := m.matched[c := true];
    assert Rounds(dist, a, a, start, k + 1).matched == matched';
    if r' :| k + 1 <= r' < n && partner[Visited(start, r', n)] == c {
      VisitedOnce(start, k, r', n);
      partner' := partner[Visited(start, r', n) := w];
      PartnerHandedOver(a, start, k, m.matched, partner, c, r');
    } else {
      partner' := partner;
      forall r | k + 1 <= r < n
        ensures !matched'[partner[Visited(start, r, n)]]
      {
      }
    }
  }

  /**
   * The point matched in round k was the partner of a later point r': that
   * point takes over the partner of the point visited in round k, which is
   * in the same place.
   */
  lemma PartnerHandedOver(a: seq<Point>, start: int, k: int, matched: seq<bool>, partner: seq<int>, c: int, r': int)
    requires 0 <= start < |a| && 0 <= k < r' < |a| && |matched| == |a| && 0 <= c < |a|
    requires Partnered(a, start, k, matched, partner)
    requires partner[Visited(start, r', |a|)] == c
    requires var i := Visited(start, k, |a|); a[c].x == a[i].x && a[c].y == a[i].y
    ensures Partnered(a, start, k + 1, matched[c := true],
                      partner[Visited(start, r', |a|) := partner[Visited(start, k, |a|)]])
  {
    var n := |a|;
    var i, u' := Visited(start, k, n), Visited(start, r', n);
    var partner' := partner[u' := partner[i]];
    forall r | k + 1 <= r < n
      ensures var u := Visited(start, r, n);
              0 <= partner'[u] < n && !matched[c := true][partner'[u]]
              && a[partner'[u]].x == a[u].x && a[partner'[u]].y == a[u].y
    {
      if r != r' {
        if r < r' { VisitedOnce(start, r, r', n); } else { VisitedOnce(start, r', r, n); }
      }
      VisitedOnce(start, k, r, n);
    }
    forall r1, r2 | k + 1 <= r1 < r2 < n
      ensures partner'[Visited(start, r1, n)] != partner'[Visited(start, r2, n)]
    {
      VisitedOnce(start, r1, r2, n);
      VisitedOnce(start, k, r1, n);
      VisitedOnce(start, k, r2, n);
      if r1 != r' && r1 < r' { VisitedOnce(start, r1, r', n); }
      if r1 > r' { VisitedOnce(start, r', r1, n); }
      if r2 != r' && r2 < r' { VisitedOnce(start, r2, r', n); }
      if r2 > r' { VisitedOnce(start, r', r2, n); }
    }
  }

  /** Every round of matching a cloud against itself records distance zero. */
  lemma {:induction false} SelfRounds(dist: DistanceFn, a: seq<Point>, start: int, k: int) returns (partner: seq<int>)
    requires IsEuclidean(dist) && 0 <= start < |a| && 0 <= k <= |a|
    ensures Partnered(a, start, k, Rounds(dist, a, a, start, k).matched, partner)
    ensures forall r :: 0 <= r < k ==> Rounds(dist, a, a, start, k).dists[r] == 0.0
  {
    if k == 0 {
      partner := PartneredAtStart(a, start);
    } else {
      var before := SelfRounds(dist, a, start, k - 1);
      partner := PartneredRound(dist, a, start, k - 1, before);
    }
  }

  /** Zero distances add up to zero, whatever their weights. */
  lemma {:induction false} WeightedSumZero(ds: seq<real>, n: int)
    requires 0 < n && forall r :: 0 <= r < |ds| ==> ds[r] == 0.0
    ensures WeightedSum(ds, n) == 0.0
  {
    if |ds| > 0 {
      WeightedSumZero(ds[..|ds| - 1], n);
    }
  }

  /** A cloud matched against itself costs nothing, from every start. */
  lemma CloudCostSelf(dist: DistanceFn, a: seq<Point>, start: int)
    requires IsEuclidean(dist) && 0 <= start < |a|
    ensures CloudCost(dist, a, a, start) == 0.0
  {
    var partner := SelfRounds(dist, a, start, |a|);
    WeightedSumZero(Rounds(dist, a, a, start, |a|).dists, |a|);
  }

  /** The match distance is never negative: it is the cost of one start, in one direction. */
  lemma MatchDistanceNonnegative(dist: DistanceFn, a: seq<Point>, b: seq<Point>)
    requires NonNegative(dist) && 0 < |a| == |b|
    ensures 0.0 <= MatchDistance(dist, a, b)
  {
    MatchDistanceIsLeast(dist, a, b);
    var s :| s in Starts(|a|, FloorSqrt(|a|), 0) && MatchDistance(dist, a, b) == StartCost(dist, a, b, s);
    CloudCostNonnegative(dist, a, b, s);
    CloudCostNonnegative(dist, b, a, s);
  }

  /** The match distance of a cloud to itself is zero. */
  lemma MatchDistanceSelf(dist: DistanceFn, a: seq<Point>)
    requires IsEuclidean(dist) && 0 < |a|
    ensures MatchDistance(dist, a, a) == 0.0
  {
    MatchDistanceIsLeast(dist, a, a);
    var s :| s in Starts(|a|, FloorSqrt(|a|), 0) && MatchDistance(dist, a, a) == StartCost(dist, a, a, s);
    CloudCostSelf(dist, a, s);
  }

  /** The scan's sentinel: index -1 stands for no candidate yet. */
  function Found(index: int, min: real): Best {
    if index == -1 then NoneYet else Best(index, min)
  }

  /** The source's fresh array of n flags, each set to false by a loop. */
  method NewUnmatched(n: nat) returns (matched: array<bool>)
    ensures fresh(matched) && matched[..] == NoneMatched(n)
  {
    matched := new bool[n];
    for k := 0 to n
      invariant forall j :: 0 <= j < k ==> !matched[j]
    {
      matched[k] := false;
    }
    assert matched[..] == NoneMatched(n);
  }

  /** The inner loop of one round: the first nearest point of pts2 to p that is not matched yet, -1 if there is none. */
  method NearestUnmatched(dist: DistanceFn, p: Point, pts2: seq<Point>, matched: array<bool>) returns (index: int, min: real)
    requires matched.Length == |pts2|
    ensures Found(index, min) == Scan(dist, p, pts2, matched[..], |pts2|)
  {
    index := -1;
    min := 0.0;  // stands for +Infinity while index is -1
    for j := 0 to |pts2|
      invariant -1 <= index < |pts2|
      invariant Found(index, min) == Scan(dist, p, pts2, matched[..], j)
    {
      if !matched[j] {
        var d := dist(p, pts2[j]);
        if index == -1 || d < min {
          min := d;
          index := j;
        }
      }
    }
  }

  /** The source's loop: a boolean array of matched points and a do-while round the cloud from start, one round per point. */
  method CloudDistance(dist: DistanceFn, pts1: seq<Point>, pts2: seq<Point>, start: int) returns (sum: real)
    requires 0 < |pts1| == |pts2| && 0 <= start < |pts1|
    ensures sum == CloudCost(dist, pts1, pts2, start)
  {
    var n := |pts1|;
    var matched := NewUnmatched(n);
    sum := 0.0;
    var i := start;
    ghost var k := 0;
    while true
      invariant 0 <= k < n && i == Visited(start, k, n)
      invariant matched.Length == n
      invariant Progress(dist, pts1, pts2, start, k, matched[..], sum)
      decreases n - k
    {
      sum := MatchRound(dist, pts1, pts2, start, matched, i, sum, k);
      VisitedNext(start, k, n, i);
      i := (i + 1) % n;
      k := k + 1;
      if i == start {
        CostAfterAllRounds(dist, pts1, pts2, start, k, matched[..], sum);
        break;
      }
    }
  }

  /**
   * The body of the source's do-while: match the visited point pts1[i] to
   * its nearest unmatched point, mark that point and add the weighted
   * distance to the running sum.
   */
  method MatchRound(dist: DistanceFn, pts1: seq<Point>, pts2: seq<Point>, start: int, matched: array<bool>, i: int, sum: real, ghost k: int)
    returns (newSum: real)
    requires 0 < |pts1| == |pts2| && 0 <= start < |pts1| && 0 <= k < |pts1| && i == Visited(start, k, |pts1|)
    requires matched.Length == |pts1| && Progress(dist, pts1, pts2, start, k, matched[..], sum)
    modifies matched
    ensures Progress(dist, pts1, pts2, start, k + 1, matched[..], newSum)
  {
    var n := |pts1|;
    var index, min := NearestUnmatched(dist, pts1[i], pts2, matched);
    var weight := 1.0 - (((i - start + n) % n) as real) / (n as real);
    RoundStep(dist, pts1, pts2, start, k, i, matched[..], sum, index, min, weight);
    ghost var before := matched[..];
    matched[index] := true;
    assert matched[..] == before[index := true];
    newSum := sum + weight * min;
  }

  /** After k rounds: the matched flags and the running sum are those of the first k rounds. */
  ghost predicate Progress(dist: DistanceFn, pts1: seq<Point>, pts2: seq<Point>, start: int, k: int, matched: seq<bool>, sum: real)
    requires 0 < |pts1| == |pts2| && 0 <= start < |pts1| && 0 <= k <= |pts1|
  {
    var m := Rounds(dist, pts1, pts2, start, k);
    matched == m.matched && sum == WeightedSum(m.dists, |pts1|)
  }

  /** One round of the source's loop: marking the scan's choice and adding its weighted distance makes progress to round k + 1. */
  lemma RoundStep(dist: DistanceFn, pts1: seq<Point>, pts2: seq<Point>, start: int, k: int, i: int,
                  matched: seq<bool>, sum: real, index: int, min: real, weight: real)
    requires 0 < |pts1| == |pts2| && 0 <= start < |pts1| && 0 <= k < |pts1| && i == Visited(start, k, |pts1|)
    requires Progress(dist, pts1, pts2, start, k, matched, sum)
    requires Found(index, min) == Scan(dist, pts1[i], pts2, matched, |pts2|)
    requires weight == 1.0 - (((i - start + |pts1|) % |pts1|) as real) / (|pts1| as real)
    ensures 0 <= index < |pts2|
    ensures Progress(dist, pts1, pts2, start, k + 1, matched[index := true], sum + weight * min)
  {
    var ds := Rounds(dist, pts1, pts2, start, k).dists;
    NextRound(dist, pts1, pts2, start, k, matched, index, min);
    SumStep(ds, ds + [min], start, k, |pts1|, i, weight, min, sum);
  }

  /** Once the walk is back at its start all n rounds are done and the running sum is the cloud distance. */
  lemma CostAfterAllRounds(dist: DistanceFn, pts1: seq<Point>, pts2: seq<Point>, start: int, k: int, matched: seq<bool>, sum: real)
    requires 0 < |pts1| == |pts2| && 0 <= start < |pts1| && k == |pts1|
    requires Progress(dist, pts1, pts2, start, k, matched, sum)
    ensures sum == CloudCost(dist, pts1, pts2, start)
  {
  }

  /** The source's weight for the point visited in round k is that round's weight, so the running sum extends to round k + 1. */
  lemma SumStep(ds: seq<real>, next: seq<real>, start: int, k: int, n: int, i: int, weight: real, min: real, sum: real)
    requires 0 <= start < n && 0 <= k < n && i == Visited(start, k, n) && |ds| == k
    requires weight == 1.0 - (((i - start + n) % n) as real) / (n as real)
    requires sum == WeightedSum(ds, n) && next == ds + [min]
    ensures sum + weight * min == WeightedSum(next, n)
  {
    WeightOfVisit(start, k, n, i, weight);
    WeightedSumAppend(ds, n, min, sum, weight);
  }

  /** The source's weight formula, applied to the index visited in round k, gives that round's weight. */
  lemma WeightOfVisit(start: int, k: int, n: int, i: int, weight: real)
    requires 0 <= start < n && 0 <= k < n && i == Visited(start, k, n)
    requires weight == 1.0 - (((i - start + n) % n) as real) / (n as real)
    ensures weight == Weight(k, n)
  {
    WeightOfRound(start, k, n);
  }

  /** What the scan of round k finds is the next round's choice. */
  lemma NextRound(dist: DistanceFn, pts1: seq<Point>, pts2: seq<Point>, start: int, k: int, matched: seq<bool>, index: int, min: real)
    requires 0 < |pts1| == |pts2| && 0 <= start < |pts1| && 0 <= k < |pts1|
    requires matched == Rounds(dist, pts1, pts2, start, k).matched
    requires Found(index, min) == Scan(dist, pts1[Visited(start, k, |pts1|)], pts2, matched, |pts2|)
    ensures 0 <= index < |pts2|
    ensures Rounds(dist, pts1, pts2, start, k + 1).matched == matched[index := true]
    ensures Rounds(dist, pts1, pts2, start, k + 1).dists == Rounds(dist, pts1, pts2, start, k).dists + [min]
  {
    ScanFindsSome(dist, pts1[Visited(start, k, |pts1|)], pts2, matched);
  }

  /** Math.floor(Math.pow(n, 0.5)): the integer square root, rounded down. */
  function FloorSqrt(n: nat): nat {
    if n == 0 then 0
    else
      var r := FloorSqrt(n - 1);
      if (r + 1) * (r + 1) <= n then r + 1 else r
  }

  /** FloorSqrt(n) is the largest number whose square is at most n. */
  lemma {:induction false} FloorSqrtIsRoot(n: nat)
    ensures FloorSqrt(n) * FloorSqrt(n) <= n < (FloorSqrt(n) + 1) * (FloorSqrt(n) + 1)
  {
    if n > 0 {
      FloorSqrtIsRoot(n - 1);
      var r := FloorSqrt(n - 1);
      if (r + 1) * (r + 1) <= n {
        assert (r + 1) * (r + 1) == n;
        assert (r + 2) * (r + 2) == n + 2 * r + 3;
      }
    }
  }

  /** The stride is at least 1 for a non-empty cloud. */
  lemma FloorSqrtPositive(n: nat)
    requires 1 <= n
    ensures 1 <= FloorSqrt(n)
  {
    FloorSqrtIsRoot(n);
  }

  /** Both directions of the match from one start; the smaller counts. */
  function StartCost(dist: DistanceFn, a: seq<Point>, b: seq<Point>, start: int): real
    requires 0 < |a| == |b| && 0 <= start < |a|
  {
    Min(CloudCost(dist, a, b, start), CloudCost(dist, b, a, start))
  }

  /** The sampled start indices from i on: i, i + step, i + 2 step, ... below n. */
  function Starts(n: int, step: int, i: int): (r: seq<int>)
    requires 0 < step
    ensures forall s :: s in r ==> i <= s < n
    decreases n - i
  {
    if i >= n then [] else [i] + Starts(n, step, i + step)
  }

  /** The starts are the multiples of the step from i, every one of them below n, and the next one would not be. */
  lemma {:induction false} StartsAreMultiples(n: int, step: int, i: int)
    requires 0 < step
    ensures forall c :: 0 <= c < |Starts(n, step, i)| ==> Starts(n, step, i)[c] == i + c * step < n
    ensures n <= i + |Starts(n, step, i)| * step
    decreases n - i
  {
    if i < n {
      var t := Starts(n, step, i + step);
      StartsAreMultiples(n, step, i + step);
      forall c | 0 < c < |Starts(n, step, i)|
        ensures Starts(n, step, i)[c] == i + c * step
      {
        assert Starts(n, step, i)[c] == t[c - 1];
        assert i + step + (c - 1) * step == i + c * step;
      }
      assert i + step + |t| * step == i + (|t| + 1) * step;
    }
  }

  /** The costs of the starts 0 .. k - 1, in order. */
  function StartCosts(dist: DistanceFn, a: seq<Point>, b: seq<Point>, k: int): (r: seq<real>)
    requires 0 < |a| == |b| && 0 <= k <= |a|
    ensures |r| == k
  {
    if k == 0 then [] else StartCosts(dist, a, b, k - 1) + [StartCost(dist, a, b, k - 1)]
  }

  /** Entry s of the list is the cost of start s. */
  lemma {:induction false} StartCostsAt(dist: DistanceFn, a: seq<Point>, b: seq<Point>, k: int, s: int)
    requires 0 < |a| == |b| && 0 <= s < k <= |a|
    ensures StartCosts(dist, a, b, k)[s] == StartCost(dist, a, b, s)
  {
    if s < k - 1 {
      StartCostsAt(dist, a, b, k - 1, s);
    }
  }

  /** The strided loop from start i with running minimum acc, over the costs of all starts. */
  function Sweep(costs: seq<real>, step: int, i: int, acc: real): real
    requires 0 < step && 0 <= i
    decreases |costs| - i
  {
    if i >= |costs| then acc else Sweep(costs, step, i + step, Min(acc, costs[i]))
  }

  /**
   * The match distance of two clouds of n points: the least of both
   * directions' costs over the starts 0, step, 2 step, ... below n, with
   * step the integer square root of n.
   */
  function MatchDistance(dist: DistanceFn, a: seq<Point>, b: seq<Point>): real
    requires 0 < |a| == |b|
  {
    FloorSqrtPositive(|a|);
    var costs := StartCosts(dist, a, b, |a|);
    Sweep(costs, FloorSqrt(|a|), FloorSqrt(|a|), costs[0])
  }

  /** The sweep's result is at most the running minimum and every cost it visits, and is one of them. */
  lemma {:induction false} SweepIsLeast(costs: seq<real>, step: int, i: int, acc: real)
    requires 0 < step && 0 <= i
    ensures var r := Sweep(costs, step, i, acc);
            r <= acc && forall s :: s in Starts(|costs|, step, i) ==> r <= costs[s]
    ensures var r := Sweep(costs, step, i, acc);
            r == acc || exists s :: s in Starts(|costs|, step, i) && r == costs[s]
    decreases |costs| - i
  {
    if i < |costs| {
      SweepIsLeast(costs, step, i + step, Min(acc, costs[i]));
    }
  }

  /**
   * The match distance is at most the cost from every sampled start, in
   * either direction, and equals the cost from one of them.
   */
  lemma MatchDistanceIsLeast(dist: DistanceFn, a: seq<Point>, b: seq<Point>)
    requires 0 < |a| == |b|
    ensures 1 <= FloorSqrt(|a|)
    ensures forall s :: s in Starts(|a|, FloorSqrt(|a|), 0) ==>
              MatchDistance(dist, a, b) <= CloudCost(dist, a, b, s) && MatchDistance(dist, a, b) <= CloudCost(dist, b, a, s)
    ensures exists s :: s in Starts(|a|, FloorSqrt(|a|), 0) && MatchDistance(dist, a, b) == StartCost(dist, a, b, s)
  {
    FloorSqrtPositive(|a|);
    var step := FloorSqrt(|a|);
    var costs := StartCosts(dist, a, b, |a|);
    var m := MatchDistance(dist, a, b);
    SampledLeast(costs, step);
    forall s | s in Starts(|a|, step, 0)
      ensures m <= CloudCost(dist, a, b, s) && m <= CloudCost(dist, b, a, s)
    {
      StartCostsAt(dist, a, b, |a|, s);
      MinBelowBoth(m, costs[s], CloudCost(dist, a, b, s), CloudCost(dist, b, a, s));
    }
    var s :| s in Starts(|a|, step, 0) && m == costs[s];
    StartCostsAt(dist, a, b, |a|, s);
  }

  lemma MinBelowBoth(m: real, c: real, x: real, y: real)
    requires m <= c && c == Min(x, y)
    ensures m <= x && m <= y
  {
  }

  /** The sweep from the first start is at most the cost of every sampled start and equals one of them. */
  lemma SampledLeast(costs: seq<real>, step: int)
    requires 0 < |costs| && 0 < step
    ensures forall s :: s in Starts(|costs|, step, 0) ==> Sweep(costs, step, step, costs[0]) <= costs[s]
    ensures exists s :: s in Starts(|costs|, step, 0) && Sweep(costs, step, step, costs[0]) == costs[s]
  {
    SweepIsLeast(costs, step, step, costs[0]);
    assert Starts(|costs|, step, 0) == [0] + Starts(|costs|, step, step);
  }

  /** One step of the strided loop: visiting start i folds its cost c into the running minimum. */
  lemma SweepStep(costs: seq<real>, step: int, i: int, acc: real, c: real)
    requires 0 < step && 0 <= i < |costs| && costs[i] == c
    ensures Sweep(costs, step, i, acc) == Sweep(costs, step, i + step, Min(acc, c))
  {
  }

  /** The cost recorded for start i is the lesser of the two directions measured there. */
  lemma CostOfStart(dist: DistanceFn, a: seq<Point>, b: seq<Point>, i: int, d1: real, d2: real)
    requires 0 < |a| == |b| && 0 <= i < |a|
    requires d1 == CloudCost(dist, a, b, i) && d2 == CloudCost(dist, b, a, i)
    ensures StartCosts(dist, a, b, |a|)[i] == Min(d1, d2)
  {
    StartCostsAt(dist, a, b, |a|, i);
  }

  /** The source's loop: a running minimum over the sampled starts, both directions at each. */
  method GreedyCloudMatch(dist: DistanceFn, points: seq<Point>, template: seq<Point>) returns (min: real)
    requires 0 < |points| == |template|
    ensures min == MatchDistance(dist, points, template)
  {
    FloorSqrtPositive(|points|);
    var step := FloorSqrt(|points|);
    ghost var costs := StartCosts(dist, points, template, |points|);
    min := 0.0;  // stands for +Infinity until the first start has been measured
    var i := 0;
    while i < |points|
      invariant 0 <= i && (i == 0 || step <= i)
      invariant i > 0 ==> Sweep(costs, step, i, min) == Sweep(costs, step, step, costs[0])
      decreases |points| - i
    {
      var d1 := CloudDistance(dist, points, template, i);
      var d2 := CloudDistance(dist, template, points, i);
      CostOfStart(dist, points, template, i, d1, d2);
      if i > 0 {
        SweepStep(costs, step, i, min, Min(d1, d2));
      }
      min := if i == 0 then Min(d1, d2) else Min(min, Min(d1, d2));
      i := i + step;
    }
  }
}
