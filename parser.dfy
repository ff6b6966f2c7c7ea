/**
 * The gesture file: one line per point ("x,y"), BEGIN and END around each
 * stroke, and any other line naming the gesture whose points follow it. The
 * reader keeps one list of points for the whole file; each template is built
 * from that list, and building a template splices the resampled points into
 * it, so the list only ever grows.
 */
module GestureFile {
  import opened Geometry
  import opened Normalizer

  datatype Option<T> = None | Some(value: T)

  /**
   * A line of the file, already classified: one containing a comma, with its
   * two numbers; BEGIN or END once trimmed; or any other line, with its
   * trimmed text, which may be empty.
   */
  datatype Line = Coord(x: real, y: real) | Begin | End | Other(text: string)

  /** The reader's variables: the shared point list, the stroke counter, the pending name, whether a name has been seen, and the templates built so far. */
  datatype ParseState = ParseState(points: seq<Point>, strokeNum: int, name: string, first: bool, clouds: seq<PointCloud>)

  const Initial: ParseState := ParseState([], 0, "", true, [])

  /**
   * One line of the reader. A name line closes the pending entry (unless it
   * is the first name line) by building its template from the shared list;
   * None when that list is one the normalisation is not defined for.
   */
  ghost function Step(dist: DistanceFn, st: ParseState, line: Line): Option<ParseState>
  {
    match line
    case Coord(x, y) => Some(st.(points := st.points + [Point(x, y, st.strokeNum)]))
    case Begin => Some(st.(strokeNum := 0))
    case End => Some(st.(strokeNum := st.strokeNum + 1))
    case Other(text) =>
      if st.first then Some(st.(name := text, first := false))
      else if Normalizable(dist, st.points) then
        Some(st.(points := Resampled(dist, st.points, NumPoints).spliced,
                 clouds := st.clouds + [PointCloud(st.name, Normalized(dist, st.points))],
                 name := text, first := false))
      else None
  }

  /** The reader's state after the given lines. */
  ghost function Parse(dist: DistanceFn, lines: seq<Line>): Option<ParseState>
  {
    if |lines| == 0 then Some(Initial)
    else
      match Parse(dist, lines[..|lines| - 1])
      case None => None
      case Some(st) => Step(dist, st, lines[|lines| - 1])
  }

  /** The templates read from a file: those built along the way, then one for the pending entry. */
  ghost function ParseGestures(dist: DistanceFn, lines: seq<Line>): Option<seq<PointCloud>>
  {
    match Parse(dist, lines)
    case None => None
    case Some(st) =>
      if Normalizable(dist, st.points) then Some(st.clouds + [PointCloud(st.name, Normalized(dist, st.points))])
      else None
  }

  /** Every prefix of a file the reader gets through is one it gets through. */
  lemma {:induction false} ParsePrefix(dist: DistanceFn, lines: seq<Line>, j: int)
    requires Parse(dist, lines).Some? && 0 <= j <= |lines|
    ensures Parse(dist, lines[..j]).Some?
    decreases |lines|
  {
    if j == |lines| {
      assert lines[..j] == lines;
    } else {
      var prev := lines[..|lines| - 1];
      ParsePrefix(dist, prev, j);
      assert prev[..j] == lines[..j];
    }
  }

  /** The reader after one more line is the step from the reader before it. */
  lemma ParseNext(dist: DistanceFn, lines: seq<Line>, j: int)
    requires 0 <= j < |lines| && Parse(dist, lines[..j]).Some?
    ensures Parse(dist, lines[..j + 1]) == Step(dist, Parse(dist, lines[..j]).value, lines[j])
  {
    assert lines[..j + 1][..j] == lines[..j];
  }

  /** The names of a list of templates, in order. */
  function Names(clouds: seq<PointCloud>): (r: seq<string>)
    ensures |r| == |clouds|
  {
    if |clouds| == 0 then [] else Names(clouds[..|clouds| - 1]) + [clouds[|clouds| - 1].name]
  }

  /** The texts of the name lines, in order. */
  function Labels(lines: seq<Line>): seq<string>
  {
    if |lines| == 0 then []
    else
      Labels(lines[..|lines| - 1]) + (match lines[|lines| - 1] case Other(text) => [text] case _ => [])
  }

  /** The index of the last BEGIN line, -1 when there is none. */
  function LastBegin(lines: seq<Line>): (b: int)
    ensures -1 <= b < |lines|
  {
    if |lines| == 0 then -1
    else if lines[|lines| - 1].Begin? then |lines| - 1
    else LastBegin(lines[..|lines| - 1])
  }

  /** The number of END lines. */
  function CountEnds(lines: seq<Line>): nat
  {
    if |lines| == 0 then 0
    else CountEnds(lines[..|lines| - 1]) + (if lines[|lines| - 1].End? then 1 else 0)
  }

  /** The number of END lines after the last BEGIN line (after the start of the file when there is none). */
  function EndsSinceBegin(lines: seq<Line>): nat
  {
    CountEnds(lines[LastBegin(lines) + 1..])
  }

  /**
   * The points of the file, in order, each tagged with the number of END
   * lines since the last BEGIN line before it.
   */
  function RawPoints(lines: seq<Line>): seq<Point>
  {
    if |lines| == 0 then []
    else
      var prev := lines[..|lines| - 1];
      RawPoints(prev) + (match lines[|lines| - 1] case Coord(x, y) => [Point(x, y, EndsSinceBegin(prev))] case _ => [])
  }

  /** BEGIN resets the count of END lines, END adds one, and any other line leaves it. */
  lemma EndsSinceBeginNext(lines: seq<Line>)
    requires 0 < |lines|
    ensures var prev := lines[..|lines| - 1];
            EndsSinceBegin(lines) ==
              if lines[|lines| - 1].Begin? then 0
              else if lines[|lines| - 1].End? then EndsSinceBegin(prev) + 1
              else EndsSinceBegin(prev)
  {
    var prev := lines[..|lines| - 1];
    if !lines[|lines| - 1].Begin? {
      var b := LastBegin(prev);
      assert lines[b + 1..][..|lines[b + 1..]| - 1] == prev[b + 1..];
    }
  }

  /** The reader's stroke counter is the number of END lines since the last BEGIN line. */
  lemma {:induction false} ParseStrokeNum(dist: DistanceFn, lines: seq<Line>)
    requires Parse(dist, lines).Some?
    ensures Parse(dist, lines).value.strokeNum == EndsSinceBegin(lines)
  {
    if |lines| > 0 {
      ParseStrokeNum(dist, lines[..|lines| - 1]);
      EndsSinceBeginNext(lines);
    }
  }

  /**
   * A name has been seen exactly when the name lines so far are not none;
   * the pending name is the last of them and the templates built so far
   * carry the ones before it.
   */
  ghost predicate NamesSoFar(first: bool, name: string, clouds: seq<PointCloud>, ls: seq<string>)
  {
    && first == (|ls| == 0)
    && (|ls| == 0 ==> name == "" && clouds == [])
    && (|ls| > 0 ==> name == ls[|ls| - 1] && Names(clouds) == ls[..|ls| - 1])
  }

  /** Closing an entry at a name line hands the pending name to the new template and makes the line's text pending. */
  lemma CloseKeepsNames(clouds: seq<PointCloud>, c: PointCloud, text: string, ls: seq<string>)
    requires NamesSoFar(false, c.name, clouds, ls)
    ensures NamesSoFar(false, text, clouds + [c], ls + [text])
  {
    assert Names(clouds + [c])[..|clouds|] == Names(clouds);
    assert (ls + [text])[..|ls|] == ls[..|ls| - 1] + [ls[|ls| - 1]];
  }

  /** The reader's names follow the file's name lines. */
  lemma {:induction false} ParseLabels(dist: DistanceFn, lines: seq<Line>)
    requires Parse(dist, lines).Some?
    ensures var st := Parse(dist, lines).value;
            NamesSoFar(st.first, st.name, st.clouds, Labels(lines))
  {
    if |lines| > 0 {
      var prev := lines[..|lines| - 1];
      ParseLabels(dist, prev);
      var st := Parse(dist, prev).value;
      if lines[|lines| - 1].Other? && !st.first {
        CloseKeepsNames(st.clouds, PointCloud(st.name, Normalized(dist, st.points)), lines[|lines| - 1].text, Labels(prev));
      }
    }
  }

  /**
   * A file with k name lines yields max(k, 1) templates: one per name line,
   * named by it, or a single unnamed one when there is none. Blank lines are
   * name lines.
   */
  lemma ParseGesturesNames(dist: DistanceFn, lines: seq<Line>)
    requires ParseGestures(dist, lines).Some?
    ensures var ls := Labels(lines);
            Names(ParseGestures(dist, lines).value) == if |ls| == 0 then [""] else ls
    ensures |ParseGestures(dist, lines).value| == if |Labels(lines)| == 0 then 1 else |Labels(lines)|
  {
    ParseLabels(dist, lines);
    var st := Parse(dist, lines).value;
    LastEntryNames(st.clouds, PointCloud(st.name, Normalized(dist, st.points)), Labels(lines));
  }

  /** Closing the pending entry completes the names: the name lines' texts, or one empty name when there is none. */
  lemma LastEntryNames(clouds: seq<PointCloud>, c: PointCloud, ls: seq<string>)
    requires NamesSoFar(|ls| == 0, c.name, clouds, ls)
    ensures Names(clouds + [c]) == if |ls| == 0 then [""] else ls
  {
    assert Names(clouds + [c])[..|clouds|] == Names(clouds);
    if |ls| > 0 {
      assert ls[..|ls| - 1] + [ls[|ls| - 1]] == ls;
    }
  }

  /**
   * The shared list holds the file's points so far: every one of them, as
   * often as it was read, none exactly when there are none, the same last
   * point and the same path length.
   */
  ghost predicate Retains(dist: DistanceFn, pts: seq<Point>, raw: seq<Point>)
    requires NonNegative(dist)
  {
    && multiset(raw) <= multiset(pts)
    && (|raw| == 0 <==> |pts| == 0)
    && (0 < |raw| ==> pts[|pts| - 1] == raw[|raw| - 1])
    && ArcLength(dist, pts) == ArcLength(dist, raw)
  }

  /** A point read from the file goes to the end of the shared list. */
  lemma AppendRetains(dist: DistanceFn, pts: seq<Point>, raw: seq<Point>, p: Point)
    requires NonNegative(dist) && Retains(dist, pts, raw)
    ensures Retains(dist, pts + [p], raw + [p])
  {
    if |raw| > 0 {
      ArcLengthAppend(dist, pts, p);
      ArcLengthAppend(dist, raw, p);
    }
  }

  /** Building a template splices points into the shared list without losing what it held. */
  lemma SpliceRetains(dist: DistanceFn, pts: seq<Point>, raw: seq<Point>)
    requires Normalizable(dist, pts) && Retains(dist, pts, raw)
    ensures Retains(dist, Resampled(dist, pts, NumPoints).spliced, raw)
  {
    ResampledFacts(dist, pts, NumPoints);
  }

  /** The shared list is never cleared: after any prefix of the file it retains all the points read so far. */
  lemma {:induction false} ParseKeepsPoints(dist: DistanceFn, lines: seq<Line>)
    requires NonNegative(dist) && Parse(dist, lines).Some?
    ensures Retains(dist, Parse(dist, lines).value.points, RawPoints(lines))
  {
    if |lines| > 0 {
      var prev := lines[..|lines| - 1];
      ParseKeepsPoints(dist, prev);
      var st := Parse(dist, prev).value;
      match lines[|lines| - 1]
      case Coord(x, y) =>
        ParseStrokeNum(dist, prev);
        AppendRetains(dist, st.points, RawPoints(prev), Point(x, y, st.strokeNum));
      case Begin =>
        assert RawPoints(lines) == RawPoints(prev);
      case End =>
        assert RawPoints(lines) == RawPoints(prev);
      case Other(text) =>
        assert RawPoints(lines) == RawPoints(prev);
        if !st.first {
          SpliceRetains(dist, st.points, RawPoints(prev));
        }
    }
  }
}
