/**
 * The recognizer: a library of named templates, the recognition of a
 * gesture as the template at the least match distance, and the three
 * operations that change the library (adding one gesture, reading a gesture
 * file, setting the library's length to a fixed count).
 */
module Recognizer {
  import opened Geometry
  import opened Normalizer
  import opened Matcher
  import opened GestureFile

  /**
   * The length DeleteUserGestures gives the library. The library starts
   * empty, so this drops the templates beyond the twentieth and pads a
   * shorter library with holes.
   */
  const NumPointClouds: int := 20
  const NoMatch: string := "No match"

  /**
   * An element of the library array. Setting the length of a JavaScript
   * array beyond its elements leaves holes, read as undefined.
   */
  datatype Slot = Hole | Entry(cloud: PointCloud)

  /** The end of an operation: a value returned, or a TypeError thrown by reading a property of undefined. */
  datatype Outcome<T> = Returned(value: T) | TypeError

  /** The score of a match distance: 1 for a perfect match, falling to 0 at distance 2 and beyond. */
  function Score(d: real): (s: real)
    ensures 0.0 <= s
    ensures s == 0.0 <==> 2.0 <= d
    ensures 0.0 <= d ==> s <= 1.0
    ensures d < 2.0 ==> s == 1.0 - d / 2.0
  {
    Max((2.0 - d) / 2.0, 0.0)
  }

  /**
   * The position of the first least element, -1 when there is none: the
   * scan replaces its candidate only on a strictly smaller element.
   */
  function FirstLeast(ds: seq<real>): (u: int)
    ensures -1 <= u < |ds| && (u == -1 <==> |ds| == 0)
    ensures 0 <= u ==> forall j :: 0 <= j < |ds| ==> ds[u] <= ds[j]
    ensures 0 <= u ==> forall j :: 0 <= j < u ==> ds[u] < ds[j]
  {
    if |ds| == 0 then -1
    else
      var u := FirstLeast(ds[..|ds| - 1]);
      if u == -1 || ds[|ds| - 1] < ds[u] then |ds| - 1 else u
  }

  /** One step of the scan: the next element replaces the candidate exactly when there is none or it is strictly smaller. */
  lemma FirstLeastNext(ds: seq<real>, i: int, u: int, best: real)
    requires 0 <= i < |ds| && u == FirstLeast(ds[..i]) && (0 <= u ==> best == ds[u])
    ensures FirstLeast(ds[..i + 1]) == if u == -1 || ds[i] < best then i else u
  {
    assert ds[..i + 1][..i] == ds[..i];
  }

  /** Templates the matcher can compare a normalised gesture with: each has NumPoints points. */
  ghost predicate Templates(lib: seq<PointCloud>)
  {
    forall k :: 0 <= k < |lib| ==> |lib[k].points| == NumPoints
  }

  /** The match distance from a normalised gesture to each template, in the library's order. */
  function MatchDistances(dist: DistanceFn, candidate: seq<Point>, lib: seq<PointCloud>): (ds: seq<real>)
    requires |candidate| == NumPoints && Templates(lib)
    ensures |ds| == |lib|
  {
    seq(|lib|, k requires 0 <= k < |lib| => MatchDistance(dist, candidate, lib[k].points))
  }

  /**
   * The answer for a list of match distances to the templates: the name of
   * the first template at the least distance, or "No match" when there is no
   * template or that distance scores 0.
   */
  function Answer(ds: seq<real>, lib: seq<PointCloud>): string
    requires |ds| == |lib|
  {
    var u := FirstLeast(ds);
    if u == -1 || Score(ds[u]) == 0.0 then NoMatch else lib[u].name
  }

  /**
   * An empty library matches nothing. Otherwise some template u is at the
   * least distance and every template before it is strictly farther; the
   * answer is "No match" when that distance is 2 or more, and u's name when
   * it is less.
   */
  lemma AnswerChoosesFirstLeast(ds: seq<real>, lib: seq<PointCloud>)
    requires |ds| == |lib|
    ensures |lib| == 0 ==> Answer(ds, lib) == NoMatch
    ensures 0 < |lib| ==>
              exists u :: 0 <= u < |lib|
                && (forall j :: 0 <= j < |lib| ==> ds[u] <= ds[j])
                && (forall j :: 0 <= j < u ==> ds[u] < ds[j])
                && Answer(ds, lib) == if 2.0 <= ds[u] then NoMatch else lib[u].name
  {
    if 0 < |lib| {
      var u := FirstLeast(ds);
      assert 0 <= u < |lib|;
    }
  }

  /** The recognizer's answer for a gesture: the answer for its normalised form's match distances to the templates. */
  ghost function Recognition(dist: DistanceFn, points: seq<Point>, lib: seq<PointCloud>): string
    requires Normalizable(dist, points) && Templates(lib)
  {
    NormalizedFacts(dist, points);
    Answer(MatchDistances(dist, Normalized(dist, points), lib), lib)
  }

  /**
   * A gesture whose normalised points are those of template k is recognised:
   * the answer is the name of the first template u at distance 0, u is at
   * most k, every template before u is farther, and the score at u is 1.
   */
  lemma RecognizesOwnTemplate(dist: DistanceFn, points: seq<Point>, lib: seq<PointCloud>, k: int)
    requires Normalizable(dist, points) && Templates(lib) && 0 <= k < |lib|
    requires lib[k].points == Normalized(dist, points)
    ensures |Normalized(dist, points)| == NumPoints
    ensures var ds := MatchDistances(dist, Normalized(dist, points), lib);
            exists u :: 0 <= u <= k && ds[u] == 0.0 && Score(ds[u]) == 1.0
              && (forall j :: 0 <= j < u ==> 0.0 < ds[j])
              && Recognition(dist, points, lib) == lib[u].name
  {
    NormalizedFacts(dist, points);
    var c := Normalized(dist, points);
    var ds := MatchDistances(dist, c, lib);
    MatchDistanceSelf(dist, c);
    assert ds[k] == 0.0;
    forall j | 0 <= j < |lib|
      ensures 0.0 <= ds[j]
    {
      MatchDistanceNonnegative(dist, c, lib[j].points);
    }
    var u := FirstLeast(ds);
    assert ds[u] == 0.0;
    assert u <= k;
  }

  /** The templates of a library without holes, in order. */
  function Clouds(slots: seq<Slot>): (lib: seq<PointCloud>)
    requires forall k :: 0 <= k < |slots| ==> slots[k].Entry?
    ensures |lib| == |slots| && forall k :: 0 <= k < |slots| ==> slots[k] == Entry(lib[k])
  {
    seq(|slots|, k requires 0 <= k < |slots| => slots[k].cloud)
  }

  /** A list of templates as library entries. */
  function Entries(lib: seq<PointCloud>): (slots: seq<Slot>)
    ensures |slots| == |lib| && forall k :: 0 <= k < |lib| ==> slots[k] == Entry(lib[k])
  {
    seq(|lib|, k requires 0 <= k < |lib| => Entry(lib[k]))
  }

  /** The number of entries with the given name; holes count for none. */
  function CountNamed(slots: seq<Slot>, name: string): nat
  {
    if |slots| == 0 then 0
    else CountNamed(slots[..|slots| - 1], name) + (if slots[|slots| - 1].Entry? && slots[|slots| - 1].cloud.name == name then 1 else 0)
  }

  /** The count of a name over a library without holes is its multiplicity among the templates' names. */
  lemma {:induction false} CountNamedIsMultiplicity(lib: seq<PointCloud>, name: string)
    ensures CountNamed(Entries(lib), name) == multiset(Names(lib))[name]
  {
    if |lib| > 0 {
      var prev := lib[..|lib| - 1];
      var last := lib[|lib| - 1];
      CountNamedIsMultiplicity(prev, name);
      assert Entries(lib)[..|lib| - 1] == Entries(prev);
      assert Names(lib) == Names(prev) + [last.name];
      assert multiset(Names(lib)) == multiset(Names(prev)) + multiset{last.name};
    }
  }

  /**
   * The counting loop: the number of entries named name, or a TypeError when
   * the library holds a hole.
   */
  function NameCount(slots: seq<Slot>, name: string): (r: Outcome<int>)
  {
    if exists k :: 0 <= k < |slots| && slots[k].Hole? then TypeError else Returned(CountNamed(slots, name))
  }

  /**
   * The library after its length is set to n: the first n entries kept in
   * place, holes beyond the old length.
   */
  function Truncated(slots: seq<Slot>, n: nat): (r: seq<Slot>)
    ensures |r| == n
    ensures forall k :: 0 <= k < n ==> r[k] == if k < |slots| then slots[k] else Hole
  {
    if n <= |slots| then slots[..n] else slots + seq(n - |slots|, _ => Hole)
  }

  class PDollarRecognizer {
    var pointClouds: seq<Slot>

    /** Every entry of the library is a template of NumPoints points. */
    ghost predicate Valid()
      reads this
    {
      forall k :: 0 <= k < |pointClouds| && pointClouds[k].Entry? ==> |pointClouds[k].cloud.points| == NumPoints
    }

    /** The library has no holes. */
    predicate Whole()
      reads this
    {
      forall k :: 0 <= k < |pointClouds| ==> pointClouds[k].Entry?
    }

    constructor ()
      ensures pointClouds == [] && Valid()
    {
      pointClouds := [];
    }

    /**
     * Normalises the gesture into a candidate, measures it against every
     * template in order, keeping the first at the least distance, and
     * answers with that template's name unless its score is 0.
     */
    method Recognize(dist: DistanceFn, points: seq<Point>) returns (r: string)
      requires Valid() && Whole() && Normalizable(dist, points)
      ensures r == Recognition(dist, points, Clouds(pointClouds))
    {
      var pointCloud := new PointList(points);
      var candidate := NewPointCloud(dist, "", pointCloud);
      NormalizedFacts(dist, points);
      var u, score := NearestTemplate(dist, candidate.points);
      score := if u == -1 then 0.0 else Score(score);  // the score of +Infinity is 0
      r := if u == -1 || score == 0.0 then NoMatch else pointClouds[u].cloud.name;
    }

    /**
     * Recognize's loop: the first template at the least match distance from
     * the candidate, with that distance; -1 for an empty library.
     */
    method NearestTemplate(dist: DistanceFn, candidate: seq<Point>) returns (u: int, score: real)
      requires Valid() && Whole() && |candidate| == NumPoints
      ensures u == FirstLeast(MatchDistances(dist, candidate, Clouds(pointClouds)))
      ensures 0 <= u ==> score == MatchDistances(dist, candidate, Clouds(pointClouds))[u]
    {
      ghost var ds := MatchDistances(dist, candidate, Clouds(pointClouds));
      u := -1;
      score := 0.0;  // stands for +Infinity until the first template has been measured
      for i := 0 to |pointClouds|
        invariant u == FirstLeast(ds[..i]) && (0 <= u ==> score == ds[u])
      {
        var d := GreedyCloudMatch(dist, candidate, pointClouds[i].cloud.points);
        FirstLeastNext(ds, i, u, score);
        if u == -1 || d < score {
          score := d;
          u := i;
        }
      }
      assert ds[..|pointClouds|] == ds;
    }

    /**
     * Appends the gesture's template to the library (splicing the resampled
     * points into the caller's list) and counts the templates of that name.
     */
    method AddGesture(dist: DistanceFn, name: string, points: PointList) returns (num: Outcome<int>)
      requires Valid() && Normalizable(dist, points.elems)
      modifies this, points
      ensures Valid()
      ensures pointClouds == old(pointClouds) + [Entry(PointCloud(name, Normalized(dist, old(points.elems))))]
      ensures points.elems == Resampled(dist, old(points.elems), NumPoints).spliced
      ensures num == NameCount(pointClouds, name)
      ensures num.Returned? ==> 1 <= num.value
    {
      var cloud := NewPointCloud(dist, name, points);
      NormalizedFacts(dist, old(points.elems));
      pointClouds := pointClouds + [Entry(cloud)];
      num := CountName(name);
    }

    /** AddGesture's loop: the number of templates named name, or a TypeError at the first hole. */
    method CountName(name: string) returns (num: Outcome<int>)
      ensures num == NameCount(pointClouds, name)
    {
      var count := 0;
      for i := 0 to |pointClouds|
        invariant count == CountNamed(pointClouds[..i], name)
        invariant forall k :: 0 <= k < i ==> pointClouds[k].Entry?
      {
        assert pointClouds[..i + 1][..i] == pointClouds[..i];
        if pointClouds[i].Hole? {
          return TypeError;
        }
        if pointClouds[i].cloud.name == name {
          count := count + 1;
        }
      }
      assert pointClouds[..|pointClouds|] == pointClouds;
      num := Returned(count);
    }

    /** Sets the library's length to NumPointClouds, dropping later templates or leaving holes. */
    method DeleteUserGestures() returns (n: int)
      requires Valid()
      modifies this
      ensures Valid()
      ensures pointClouds == Truncated(old(pointClouds), NumPointClouds)
      ensures n == NumPointClouds
    {
      pointClouds := Truncated(pointClouds, NumPointClouds);
      n := NumPointClouds;
    }

    /**
     * Reads a gesture file line by line into templates, appended to the
     * library as they are built, the last one after the final line.
     */
    method ProcessGesturesFile(dist: DistanceFn, lines: seq<Line>)
      requires Valid() && ParseGestures(dist, lines).Some?
      modifies this
      ensures Valid()
      ensures pointClouds == old(pointClouds) + Entries(ParseGestures(dist, lines).value)
    {
      var points := new PointList([]);
      var name := "";
      var strokeNum := 0;
      var first := true;
      ghost var clouds: seq<PointCloud> := [];
      for j := 0 to |lines|
        invariant fresh(points)
        invariant Parse(dist, lines[..j]) == Some(ParseState(points.elems, strokeNum, name, first, clouds))
        invariant pointClouds == old(pointClouds) + Entries(clouds) && Valid()
      {
        ParsePrefix(dist, lines, j + 1);
        ParseNext(dist, lines, j);
        strokeNum, name, first, clouds := ReadLine(dist, lines[j], points, strokeNum, name, first, clouds, old(pointClouds));
      }
      assert lines[..|lines|] == lines;
      clouds := CloseEntry(dist, points, name, clouds, old(pointClouds));
    }

    /**
     * The reader's work for one line: a point goes to the shared list, BEGIN
     * and END move the stroke counter, and a name line, unless it is the
     * first, closes the pending entry into a template appended to the library.
     */
    method ReadLine(dist: DistanceFn, line: Line, points: PointList, strokeNum: int, name: string, first: bool,
                    ghost clouds: seq<PointCloud>, ghost base: seq<Slot>)
      returns (strokeNum': int, name': string, first': bool, ghost clouds': seq<PointCloud>)
      requires Valid() && pointClouds == base + Entries(clouds)
      requires Step(dist, ParseState(points.elems, strokeNum, name, first, clouds), line).Some?
      modifies this, points
      ensures Valid() && pointClouds == base + Entries(clouds')
      ensures Step(dist, old(ParseState(points.elems, strokeNum, name, first, clouds)), line)
                == Some(ParseState(points.elems, strokeNum', name', first', clouds'))
    {
      strokeNum', name', first', clouds' := strokeNum, name, first, clouds;
      match line
      case Coord(x, y) =>
        points.elems := points.elems + [Point(x, y, strokeNum)];
      case Begin =>
        strokeNum' := 0;
      case End =>
        strokeNum' := strokeNum + 1;
      case Other(text) =>
        if !first {
          clouds' := CloseEntry(dist, points, name, clouds, base);
        }
        name' := text;
        first' := false;
    }

    /** Builds the pending entry's template from the shared list and appends it to the library. */
    method CloseEntry(dist: DistanceFn, points: PointList, name: string, ghost clouds: seq<PointCloud>, ghost base: seq<Slot>)
      returns (ghost clouds': seq<PointCloud>)
      requires Valid() && pointClouds == base + Entries(clouds) && Normalizable(dist, points.elems)
      modifies this, points
      ensures Valid() && pointClouds == base + Entries(clouds')
      ensures clouds' == clouds + [PointCloud(name, Normalized(dist, old(points.elems)))]
      ensures points.elems == Resampled(dist, old(points.elems), NumPoints).spliced
    {
      NormalizedFacts(dist, points.elems);
      var temp := NewPointCloud(dist, name, points);
      pointClouds := pointClouds + [Entry(temp)];
      clouds' := clouds + [temp];
      assert Entries(clouds') == Entries(clouds) + [Entry(temp)];
    }
  }
}
