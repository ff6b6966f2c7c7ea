# $P point-cloud gesture recognizer, modelled in Dafny

This project models `assets/pdollar.js`, a JavaScript implementation of the
$P point-cloud recognizer for multi-stroke pen gestures. A gesture is a
sequence of points, each tagged with the stroke it belongs to. Recognition
works in two stages:

- **Normalisation.** The gesture is resampled to 32 points spaced evenly
  along its path, scaled uniformly into the unit box and translated so that
  its centroid is at the origin.
- **Matching.** The normalised gesture is compared with every template in
  the library by a greedy point-cloud matching. The answer is the name of
  the first template at the least match distance, unless that distance
  scores 0.

The library is a JavaScript array of templates. It starts empty
(assets/pdollar.js:103). It can be filled from a gesture file and grown one
gesture at a time. DeleteUserGestures sets its length to twenty: templates
beyond the twentieth are dropped, and a shorter library is padded with holes.

Files, one module each, leaf first:

- `geometry.dfy` (`Geometry`): points, the distance, path length, bounding
  box folds and the centroid.
- `normalizer.dfy` (`Normalizer`): Resample, Scale, TranslateTo and the
  PointCloud constructor.
- `matcher.dfy` (`Matcher`): CloudDistance and GreedyCloudMatch.
- `parser.dfy` (`GestureFile`): the gesture-file reader, as a
  specification over already classified lines.
- `recognizer.dfy` (`Recognizer`): the `PDollarRecognizer` class with
  Recognize, AddGesture, DeleteUserGestures and ProcessGesturesFile.

Modelling choices:

- **Distance is a parameter.** Dafny has no square root. Every operation
  takes the distance as a function `dist`, and the ghost predicate
  `IsEuclidean(dist)` pins it down: `dist(p, q)` is nonnegative and its
  square is `dx² + dy²`. Exactly one function has this property.
- **Arithmetic is exact.** Numbers are exact reals. Divisions by zero and
  NaN in the source are excluded by preconditions:
  - `Normalizable` requires a positive path length and a resampled gesture
    whose points do not all coincide;
  - `ParseGestures(...).Some?` requires this for every template a file
    yields.
- **Arrays the source mutates stay mutable.**
  - The caller's point array, into which Resample splices the points it
    creates, is the class `PointList`.
  - The `matched` flags of CloudDistance are a Dafny `array<bool>`.
  - The library is the `pointClouds` field of the recognizer class. Its
    elements are `Slot`s, so the holes left by setting the array's length
    can be represented.
- **Loops are methods.** Each source loop is a method proved against a
  specification function. Inner loops are separate methods, for example
  `NearestUnmatched`, `MatchRound`, `BoundingBox`, `NearestTemplate` and
  `CountName`.

Three behaviours of the code, and how the model treats them:

- **Blank lines are names.** In ProcessGesturesFile every line that is not
  a coordinate line, `BEGIN` or `END` closes the pending entry and becomes
  the next name, blank lines included (assets/pdollar.js:134-141). A blank
  line is `Other("")` in the model.
- **The point list is never cleared.** The list is created once, before the
  lines are read (assets/pdollar.js:118), and each entry's template is built
  from it without emptying it (assets/pdollar.js:136). So each template is
  built from every point read so far, including the points that earlier
  templates' resampling spliced in. The stroke counter is reset only by
  `BEGIN`.
- **The fix-up of Resample is modelled but never needed in the model.**
  The branch at assets/pdollar.js:252-253 appends the last point when the
  walk comes up one short. With exact reals the walk always emits exactly n
  points (`WalkCount`), so in the model the branch is never taken. It is
  still modelled, in `Resampled`.

## Model

| member | source | states |
|---|---|---|
| Geometry.DistanceSymmetric | assets/pdollar.js:305-310 | The distance from p to q equals the distance from q to p. |
| Geometry.DistanceToSamePlace | assets/pdollar.js:305-310 | Points with the same coordinates are at distance 0, whatever their stroke IDs. |
| Geometry.DistanceZeroIsSamePlace | assets/pdollar.js:305-310 | Conversely, points at distance 0 have the same coordinates, whatever their stroke IDs. |
| Geometry.InterpSplitsDistance | assets/pdollar.js:242-244 | The point at fraction t of a segment lies t of the segment's length from its start and 1 − t from its end. |
| Geometry.Interp | assets/pdollar.js:242-244 | The point at fraction t along the step from a to b, in b's stroke. |
| Geometry.Seg | assets/pdollar.js:300-301 | A step counts its distance when both ends are in one stroke, and 0 otherwise. |
| Geometry.ArcLength | assets/pdollar.js:296-304 | A path length is never negative. |
| Geometry.ArcLengthSplit | assets/pdollar.js:296-304 | A path length is the sum of the lengths before and after any point of the path. |
| Geometry.ArcLengthAtStrokeBoundary | assets/pdollar.js:300-301 | A step between two strokes adds nothing: the path length splits there into the lengths of the two sides. |
| Geometry.ArcLengthAppend | assets/pdollar.js:296-304 | Appending a point adds only the length of the new last step. |
| Geometry.PathLength | assets/pdollar.js:296-304 | The loop returns the path length: the sum of the distances between consecutive points of the same stroke. |
| Geometry.LeastBounds | assets/pdollar.js:258-264 | The running minimum of a coordinate is at most every point's coordinate and equals one of them. |
| Geometry.GreatestBounds | assets/pdollar.js:258-264 | The running maximum of a coordinate is at least every point's coordinate and equals one of them. |
| Geometry.LeastAtMostGreatest | assets/pdollar.js:258-265 | The least coordinate is at most the greatest, so the box's sides are never negative. |
| Geometry.LeastGreatestStep | assets/pdollar.js:259-264 | One more iteration folds the next point into the running minimum and maximum with Math.min and Math.max. |
| Geometry.MeanPoint | assets/pdollar.js:285-295 | The mean of the x and the mean of the y coordinates, in stroke 0. |
| Geometry.Centroid | assets/pdollar.js:285-295 | The loop returns the mean of the x and the mean of the y coordinates over all points, in stroke 0. |
| Geometry.MeanPointInBox | assets/pdollar.js:285-295 | The centroid lies inside every axis-aligned box that holds all the points. |
| Normalizer.Interval | assets/pdollar.js:232 | The interval is positive, and n − 1 intervals make up the whole path length. |
| Normalizer.Fraction | assets/pdollar.js:242-243 | The fraction (I − D) / d lies in (0, 1] and places the new point at distance I − D along the step. |
| Normalizer.Splice | assets/pdollar.js:246 | After insertion at i the list is one longer: the same points before i, q at i, and the old points from i on after it. |
| Normalizer.SkipStep | assets/pdollar.js:237 | A step between two strokes leaves the accumulated distance as it was and keeps the walk's invariant. |
| Normalizer.AccumulateStep | assets/pdollar.js:249 | A step shorter than what remains of the interval is added to D, keeping the walk's invariant. |
| Normalizer.SplitStep | assets/pdollar.js:240-248 | Emitting the interpolated point, splicing it in and resetting D to 0 keeps the walk's invariant with one more point emitted. |
| Normalizer.SpliceKeepsLength | assets/pdollar.js:246 | Splicing in a point that divides an in-stroke step in the ratio t : 1 − t leaves the path length unchanged. |
| Normalizer.Walk | assets/pdollar.js:235-251 | The loop from position i with distance D = acc and the points emitted so far: it skips cross-stroke steps, adds short steps to D, and otherwise emits and splices in the interpolated point and resets D. It returns the emitted points and the spliced list. |
| Normalizer.WalkStart | assets/pdollar.js:232-235 | The first point emitted, with D = 0, starts the walk in its invariant. |
| Normalizer.WalkCount | assets/pdollar.js:235-251 | The walk emits exactly n points in all and never changes the points it has already emitted. |
| Normalizer.WalkKeepsLength | assets/pdollar.js:246 | The points the walk splices into the caller's list leave its path length unchanged. |
| Normalizer.WalkKeepsLast | assets/pdollar.js:246 | The points the walk splices into the caller's list leave its last point unchanged. |
| Normalizer.SpliceKeepsPoints | assets/pdollar.js:246 | One splice adds its point to the list and removes none, as a multiset. |
| Normalizer.SpliceGrows | assets/pdollar.js:246 | One splice followed by the rest of the walk grows the list by exactly the points emitted from that step on. |
| Normalizer.WalkKeepsPoints | assets/pdollar.js:235-251 | As a multiset, the caller's list at the end is the list at the start plus exactly the points the walk emitted. |
| Normalizer.SplitSegment | assets/pdollar.js:242-244 | The step from the previous point to the spliced point has length I − D, what was left of the interval. |
| Normalizer.StepPlaced | assets/pdollar.js:237-249 | A step that emits nothing keeps every emitted point where it is and adds its in-stroke length to the distance walked. |
| Normalizer.SpliceKeepsPlaced | assets/pdollar.js:246 | A splice at i leaves the points emitted before it at their positions and path lengths. |
| Normalizer.PlaceNext | assets/pdollar.js:245-246 | A point after all placed ones, one interval further along the path and inside its stroke, is placed next. |
| Normalizer.SplitPlaced | assets/pdollar.js:240-248 | The emitted point sits at position i of the list, one whole interval of path length after the previous emitted point, between two points of its stroke. |
| Normalizer.WalkPlaces | assets/pdollar.js:235-251 | Every emitted point k sits in the final list at an increasing position, at path length k intervals from the start, and inside its stroke. |
| Normalizer.PlacedSpacing | assets/pdollar.js:232-248 | Consecutive emitted points are exactly one interval of path length apart along the list. |
| Normalizer.ResampledPlaces | assets/pdollar.js:230-255 | The resampled points appear in the caller's list in order, the first at position 0. Point k lies k intervals along the path, so consecutive points are one interval apart. Every point but the first lies inside a stroke and carries that stroke's ID. |
| Normalizer.Resampled | assets/pdollar.js:230-255 | Resampling yields exactly n points. |
| Normalizer.ResampledFacts | assets/pdollar.js:230-255 | The result has n points, the first being the input's first. The walk alone already yields n, so the fix-up never applies. The caller's list keeps its path length and its last point. As a multiset it is the input plus the resampled points after the first. |
| Normalizer.Resample | assets/pdollar.js:230-255 | The loop returns exactly the points and the spliced list of `Resampled`, whose spacing and placement `ResampledPlaces` and `ResampledFacts` prove. The result has n points and starts with the input's first point. The list's path length is unchanged. |
| Normalizer.Scaled | assets/pdollar.js:256-273 | Every point shifted by the least x and y and divided by the larger side of the bounding box. |
| Normalizer.ScaledBy | assets/pdollar.js:267-271 | Every point is shifted by the box's lower-left corner and divided by the size, in order, keeping its stroke. |
| Normalizer.ScaledKeepsShape | assets/pdollar.js:256-273 | Scaling divides every coordinate difference by the same size, so the shape is kept. |
| Normalizer.ScaledAxis | assets/pdollar.js:256-273 | On each axis every scaled coordinate lies in [0, 1]. The least is 0 and the greatest is that axis's extent divided by the size. |
| Normalizer.ScaledInUnitBox | assets/pdollar.js:256-273 | Every scaled point lies in the unit box, and the scaled points touch both axes. |
| Normalizer.ScaledExtentOne | assets/pdollar.js:265 | The larger side of the scaled points' bounding box is exactly 1. |
| Normalizer.BoundingBox | assets/pdollar.js:258-264 | The first loop of Scale returns the least and greatest x and y over all points. |
| Normalizer.Scale | assets/pdollar.js:256-273 | The two loops return the uniformly scaled copy of the points. |
| Normalizer.Translated | assets/pdollar.js:274-284 | Every point moved by the target minus the centroid. |
| Normalizer.TranslatedBy | assets/pdollar.js:278-282 | Every point is moved by the same offset, in order, keeping its stroke. |
| Normalizer.TranslatedKeepsShape | assets/pdollar.js:274-284 | Translation leaves every coordinate difference unchanged. |
| Normalizer.TranslatedMean | assets/pdollar.js:274-284 | After the translation the centroid is exactly the target point. |
| Normalizer.TranslatedBounds | assets/pdollar.js:278-282 | Translation shifts the least and greatest coordinate on each axis by the offset. |
| Normalizer.TranslatedKeepsExtent | assets/pdollar.js:274-284 | Translation leaves the larger side of the bounding box unchanged. |
| Normalizer.TranslateTo | assets/pdollar.js:274-284 | The loop returns the points moved so that their centroid lands on the target point. |
| Normalizer.Normalized | assets/pdollar.js:73-79 | The template's points: resampled to NumPoints, scaled, then moved so their centroid is at the origin. |
| Normalizer.NormalizedFacts | assets/pdollar.js:73-79 | A template has NumPoints (32) points, with its centroid at the origin and the larger side of its bounding box exactly 1. |
| Normalizer.NewPointCloud | assets/pdollar.js:73-79 | The template carries the name and the resampled, scaled and translated points. The caller's list is left with the resampling's points spliced in. |
| Matcher.Scan | assets/pdollar.js:211-222 | The inner scan over the first j points: an unmatched point replaces the candidate when there is none yet or it is strictly nearer. |
| Matcher.ScanFindsUnmatched | assets/pdollar.js:211-222 | The inner scan finds nothing exactly when every point it scanned is already matched. |
| Matcher.ScanFindsNearest | assets/pdollar.js:211-222 | The scan finds an unmatched point at the least distance among the unmatched ones. Every unmatched point before it is strictly farther, so ties go to the lowest index. |
| Matcher.ScanFindsSome | assets/pdollar.js:211-223 | While some point is unmatched, the scan finds one, so matched[index] is never written at -1. |
| Matcher.NoneMatched | assets/pdollar.js:204-206 | The fresh array has n flags, all false. |
| Matcher.Weight | assets/pdollar.js:224 | The weight of the k-th visited point of n is 1 − k/n. |
| Matcher.WeightedSum | assets/pdollar.js:224-225 | The round distances, each times its round's weight, added up in order. |
| Matcher.WeightedSumAppend | assets/pdollar.js:224-225 | Adding the k-th weighted distance extends the sum by one term. |
| Matcher.CloudCost | assets/pdollar.js:202-229 | The cloud distance from start: the weighted sum of the distances of all n greedy rounds. |
| Matcher.Visited | assets/pdollar.js:208-226 | The index visited in any round is within the cloud. |
| Matcher.Round | assets/pdollar.js:211-225 | Every round matches exactly one more point and records one more choice and distance. |
| Matcher.Rounds | assets/pdollar.js:208-227 | After k rounds, exactly k points are matched and k choices and distances are recorded. |
| Matcher.VisitedOnce | assets/pdollar.js:208-227 | The circular walk visits every index once. It is back at start after n rounds and not before. |
| Matcher.VisitedNext | assets/pdollar.js:226-227 | The step i = (i + 1) % n moves to the next visited index, and the do-while stops exactly after n rounds. |
| Matcher.WeightOfRound | assets/pdollar.js:224 | In round k, (i − start + n) % n equals k, so the weight is 1 − k/n. |
| Matcher.WeightInRange | assets/pdollar.js:224 | Every weight lies in (0, 1]. |
| Matcher.ChooseKeepsConsistent | assets/pdollar.js:223 | Marking an unmatched choice keeps the flags equal to the set of chosen indices, with no index chosen twice. |
| Matcher.RoundsChooseDistinct | assets/pdollar.js:208-227 | After any number of rounds, the flags are exactly the chosen indices and no index has been chosen twice. |
| Matcher.MatchesEveryPointOnce | assets/pdollar.js:202-229 | After all n rounds every point of the second cloud has been matched exactly once: the choices are a permutation. |
| Matcher.RoundChoosesNearest | assets/pdollar.js:211-223 | Each round chooses the nearest still unmatched point to the visited one, the lowest-indexed among equals. |
| Matcher.RoundsRecordDistances | assets/pdollar.js:216-225 | Each round records the distance from the visited point to the point it chose. |
| Matcher.WeightedSumNonnegative | assets/pdollar.js:224-225 | Nonnegative distances under weights in (0, 1] add up to a nonnegative sum. |
| Matcher.CloudCostNonnegative | assets/pdollar.js:202-229 | The cloud distance is never negative. |
| Matcher.NewUnmatched | assets/pdollar.js:204-206 | The loop returns a fresh array of n flags, all false. |
| Matcher.NearestUnmatched | assets/pdollar.js:211-222 | The inner loop returns the scan's result: the first nearest unmatched point, or -1 when there is none. |
| Matcher.CloudDistance | assets/pdollar.js:202-229 | The method returns the weighted greedy matching cost from the given start. |
| Matcher.MatchRound | assets/pdollar.js:211-226 | One do-while iteration takes the matched flags and the running sum from round k to round k + 1. |
| Matcher.RoundStep | assets/pdollar.js:223-225 | The scan's choice is a valid index. Marking it and adding its weighted distance is exactly the next round. |
| Matcher.CostAfterAllRounds | assets/pdollar.js:227-228 | Once the walk is back at start, the running sum is the cloud distance. |
| Matcher.SumStep | assets/pdollar.js:224-225 | The source's weight formula, applied to round k's index, extends the weighted sum by that round's term. |
| Matcher.WeightOfVisit | assets/pdollar.js:224 | The source's weight for the index visited in round k equals 1 − k/n. |
| Matcher.NextRound | assets/pdollar.js:211-225 | What the scan of round k finds is the choice and the distance of round k + 1. |
| Matcher.FloorSqrtIsRoot | assets/pdollar.js:192-193 | The step is the largest integer whose square is at most n, which is floor(n^0.5). |
| Matcher.FloorSqrtPositive | assets/pdollar.js:193-195 | The step is at least 1 for a non-empty cloud, so the loop advances. |
| Matcher.Starts | assets/pdollar.js:195 | Every sampled start lies below n. |
| Matcher.StartsAreMultiples | assets/pdollar.js:195 | The sampled starts are exactly 0, step, 2·step, … below n. |
| Matcher.StartCost | assets/pdollar.js:196-198 | The cost of a start: the lesser of the cloud distances in the two directions. |
| Matcher.StartCosts | assets/pdollar.js:195-199 | The list holds one cost per start. |
| Matcher.StartCostsAt | assets/pdollar.js:196-198 | Entry s of the list is the lesser of the two directions' costs from start s. |
| Matcher.Sweep | assets/pdollar.js:194-200 | The strided loop from start i: folds the cost of every step-th start into the running minimum. |
| Matcher.MatchDistance | assets/pdollar.js:190-201 | The sweep over all starts with the integer square root of n as step. |
| Matcher.SweepIsLeast | assets/pdollar.js:194-200 | The strided running minimum is at most every cost it visits, and equals one of them or its starting value. |
| Matcher.PartneredAtStart | assets/pdollar.js:204-208 | Before the first round of matching a cloud against itself, every point is its own unmatched partner. |
| Matcher.PartneredRound | assets/pdollar.js:211-226 | In a round of matching a cloud against itself, the chosen point is at distance 0 from the visited one. The points still to be visited keep distinct unmatched partners in their own places. |
| Matcher.PartnerHandedOver | assets/pdollar.js:223 | When the chosen point was a later point's partner, that point takes over the visited point's partner, which is in the same place. |
| Matcher.SelfRounds | assets/pdollar.js:208-227 | Every round of matching a cloud against itself records distance 0. |
| Matcher.WeightedSumZero | assets/pdollar.js:224-225 | Zero distances add up to zero under any weights. |
| Matcher.CloudCostSelf | assets/pdollar.js:202-229 | A cloud's distance to itself is 0 from every start. |
| Matcher.MatchDistanceSelf | assets/pdollar.js:190-201 | The match distance of a cloud to itself is 0. |
| Matcher.MatchDistanceNonnegative | assets/pdollar.js:190-201 | The match distance is never negative. |
| Matcher.MatchDistanceIsLeast | assets/pdollar.js:190-201 | The match distance is at most the cost from every sampled start in both directions, and equals the cost from one of them. |
| Matcher.SampledLeast | assets/pdollar.js:194-200 | The minimum over the sampled starts is at most each of their costs and equals one of them. |
| Matcher.SweepStep | assets/pdollar.js:198 | Visiting a start folds its cost into the running minimum. |
| Matcher.CostOfStart | assets/pdollar.js:196-198 | The two CloudDistance calls at start i give that start's cost as their minimum. |
| Matcher.GreedyCloudMatch | assets/pdollar.js:190-201 | The loop returns the match distance: the least cost over the sampled starts in both directions. |
| GestureFile.Step | assets/pdollar.js:124-142 | One line: a coordinate line pushes a point with the stroke counter as ID; BEGIN resets and END increments the counter; any other line makes its text the pending name, first building and pushing the pending entry's template unless it is the first name line. |
| GestureFile.Parse | assets/pdollar.js:118-143 | The reader's variables after the given lines, starting from an empty list, counter 0, an empty name and no name seen. |
| GestureFile.ParseGestures | assets/pdollar.js:118-146 | The templates of a file: those built along the way, then the one built from the pending entry after the last line. |
| GestureFile.ParsePrefix | assets/pdollar.js:124-143 | If the reader gets through a file, it gets through every prefix of it. |
| GestureFile.ParseNext | assets/pdollar.js:124-143 | The reader's state after one more line is one step from its state before it. |
| GestureFile.EndsSinceBeginNext | assets/pdollar.js:130-133 | BEGIN resets the count of END lines since the last BEGIN, END adds one, and any other line leaves it. |
| GestureFile.EndsSinceBegin | assets/pdollar.js:130-133 | The number of END lines after the last BEGIN line, or from the start of the file when there is none. |
| GestureFile.ParseStrokeNum | assets/pdollar.js:120-133 | The stroke counter, which every coordinate line's point takes as its ID, is the number of END lines since the last BEGIN. |
| GestureFile.CloseKeepsNames | assets/pdollar.js:135-141 | Closing an entry hands the pending name to the new template and makes the line's text pending. |
| GestureFile.ParseLabels | assets/pdollar.js:119-142 | A name has been seen exactly when some line so far was a name line. The pending name is the last such line; the templates built so far carry the earlier ones, in order. |
| GestureFile.ParseGesturesNames | assets/pdollar.js:134-146 | A file with k name lines, blank ones included, yields max(k, 1) templates. They are named by those lines in order, or there is one unnamed template when k is 0. |
| GestureFile.LastEntryNames | assets/pdollar.js:145-146 | The template pushed after the last line completes the names. |
| GestureFile.AppendRetains | assets/pdollar.js:125-129 | Pushing a point read from the file keeps the shared list holding every point read so far. |
| GestureFile.SpliceRetains | assets/pdollar.js:135-137 | Building a template, which splices points into the shared list, keeps every point read so far. |
| GestureFile.ParseKeepsPoints | assets/pdollar.js:118-143 | The shared list is never cleared. After any prefix of the file it contains, as a multiset, every point read so far, each tagged with the END count since the last BEGIN. It is empty only when none have been read, ends with the last one read and has their path length. |
| Recognizer.Score | assets/pdollar.js:168 | The score lies in [0, 1] for a nonnegative distance, is 1 − d/2 below distance 2, and is 0 exactly at distance 2 or more. |
| Recognizer.FirstLeast | assets/pdollar.js:155-166 | The index is -1 exactly for an empty list. Otherwise it holds a least element, and every element before it is strictly greater. |
| Recognizer.FirstLeastNext | assets/pdollar.js:160-163 | One iteration replaces the candidate exactly when there is none yet or the new distance is strictly smaller. |
| Recognizer.MatchDistances | assets/pdollar.js:157-159 | There is one match distance per template. |
| Recognizer.Answer | assets/pdollar.js:155-169 | "No match" when there is no template or the first least distance scores 0, and that template's name otherwise. |
| Recognizer.AnswerChoosesFirstLeast | assets/pdollar.js:155-169 | An empty library gives "No match". Otherwise some template is at the least distance with every earlier template strictly farther. The answer is "No match" when that distance is 2 or more, and that template's name otherwise. |
| Recognizer.Recognition | assets/pdollar.js:148-170 | The answer for the match distances from the gesture's normalised form to each template. |
| Recognizer.RecognizesOwnTemplate | assets/pdollar.js:148-170 | A gesture whose normalised form is template k's points is recognised: the answer names the first template u ≤ k at distance 0, every earlier template is farther, and the score there is 1. |
| Recognizer.CountNamedIsMultiplicity | assets/pdollar.js:174-179 | Over a library without holes, the count of a name is its multiplicity among the templates' names. |
| Recognizer.NameCount | assets/pdollar.js:174-179 | The count of entries with the name, or a TypeError when the library has a hole. |
| Recognizer.Truncated | assets/pdollar.js:183 | Setting the length to n gives n elements: the old ones up to n, and holes beyond the old length. |
| Recognizer.PDollarRecognizer.constructor | assets/pdollar.js:98-103 | A new recognizer has an empty library. |
| Recognizer.PDollarRecognizer.Recognize | assets/pdollar.js:148-170 | The method returns the recognition answer for the gesture's normalised form against the library's templates. |
| Recognizer.PDollarRecognizer.NearestTemplate | assets/pdollar.js:155-166 | The loop returns the first template at the least match distance and that distance, or -1 for an empty library. |
| Recognizer.PDollarRecognizer.AddGesture | assets/pdollar.js:171-180 | Appends the gesture's template, keeping every earlier entry, and splices the resampled points into the caller's list. It returns the count of that name, at least 1, or a TypeError when the library has holes. |
| Recognizer.PDollarRecognizer.CountName | assets/pdollar.js:174-179 | The loop returns the number of entries with the name, or a TypeError when it reaches a hole. |
| Recognizer.PDollarRecognizer.DeleteUserGestures | assets/pdollar.js:181-185 | The library is cut or padded with holes to NumPointClouds (20) entries, keeping the first ones; the method returns 20. |
| Recognizer.PDollarRecognizer.ProcessGesturesFile | assets/pdollar.js:113-147 | The file's templates, as the reader specification gives them, are appended after the existing entries in order. |
| Recognizer.PDollarRecognizer.ReadLine | assets/pdollar.js:124-143 | One line moves the reader's variables and the library by one step of the reader specification. |
| Recognizer.PDollarRecognizer.CloseEntry | assets/pdollar.js:135-138 | The pending entry's template is built from the shared list and appended to the library. |

## Left out

- `console.log` calls (assets/pdollar.js:114, 164-167) are output only and are not modelled.
- Floating point is not modelled; numbers are exact reals. Inputs that make the source divide by zero, produce NaN or throw are excluded by preconditions (`Normalizable`, and `ParseGestures(...).Some?` for a file).
- An empty point list is not modelled. On it, Resample returns a list holding one undefined element (assets/pdollar.js:234), and Scale then throws a TypeError reading its `X` (assets/pdollar.js:260). A gesture file reaches this when a name line closes an entry before any coordinate line has been read (assets/pdollar.js:135-136), for example a blank first line followed by a name line. `Normalizable` excludes it.
- Recognizer.PDollarRecognizer.Recognize: requires `Normalizable` even for an empty library. With a non-empty gesture that is not normalisable and an empty library, the source answers "No match" (assets/pdollar.js:155-169); that case is not modelled.
- Resampled: in floating point the walk can come up one point short, and the source then appends a copy of the last point of the spliced list (assets/pdollar.js:252-253). With exact reals the model's walk never comes up short, so it never takes that branch.
- `Math.sqrt` is not computed. The distance is a parameter constrained by `IsEuclidean`, which pins it to the Euclidean distance.
- `Math.floor(Math.pow(n, 0.5))` is modelled as the exact integer square root `FloorSqrt`. Rounding in `Math.pow` is not modelled.
- The `+Infinity` sentinels of CloudDistance, GreedyCloudMatch and Recognize are replaced by an explicit "no candidate yet" state: index -1, the first start, or `u == -1`.
- The `-Infinity`/`+Infinity` starting values of Scale's bounding-box loop are not modelled. The loop starts from the first point instead, and an empty input returns an empty list.
- Recognize: the `JSON.stringify`/`JSON.parse` round trip is left out (assets/pdollar.js:150-152). It rebuilds the points from lower-case `x`, `y` and upper-case `ID` fields. The model takes the already-built point sequence.
- Recognize requires a library without holes. With a hole the source reads `Points` of undefined, and that case is not modelled.
- ProcessGesturesFile: splitting the file into lines, `line.split(',')`, `parseFloat` and `trim` (assets/pdollar.js:116, 125-127, 130-140) are string handling and are left out. The model reads lines already classified as `Coord(x, y)`, `Begin`, `End` or `Other(text)`.
- ProcessGesturesFile: the counter `curr` (assets/pdollar.js:122, 138) is never read, and it is left out.
- The `Result` class (assets/pdollar.js:83-88) is never used by the code and is not modelled.
- The commented-out predefined template (assets/pdollar.js:105-108) is not code and is not modelled.
- GreedyCloudMatch is given the template's point list, where the source receives the PointCloud and reads its `Points`.
