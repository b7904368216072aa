# leftstim geometry and image assembly, modelled in Dafny

leftstim builds line-drawing stimuli. A rectangular frame holds the picture.
The picture has an optional figure, made of lines that share vertices, and
further lines whose ends are attached to the frame's borders, to figure lines
or to other lines. The image can:

- place, align, shift and extend the figure;
- add lines of three kinds: side to side, side to line, and line to line;
- grow lines from the figure's loose ends;
- jiggle the lines;
- replace the figure with lines that are extended copies of the figure's
  lines, some jiggled, some left alone and the rest replaced by fresh
  random lines.

The model keeps the program's structure, one module per source class:

| module | models |
|---|---|
| `Vectors` | `Vector` |
| `Points` | `Point`'s arithmetic and distance |
| `Lines` | `Line` |
| `Frames` | `Frame` |
| `Clipping` | `Line.get_extended_version` |
| `FigureLines` | `FigureLine` |
| `AttachedLines` | `AttachedLine` |
| `Growing` | `Point.grow_line` |
| `Figures` | `Figure` |
| `Scenes` | the non-drawing part of `LeftImage` |

Coordinates are `real`. Distances are compared squared:

- "more than 50 apart" is a squared distance above 2500;
- "closer than 40" is below 1600;
- "within 3 units" is below 9.

Every random choice is an argument:

- A `random.uniform(a, b)` draw is a number `t` in [0, 1] giving `a + (b - a) * t`.
- A `random.choice` from a list of `n` is a natural number taken modulo `n`.
- A `random.randint(lo, hi)` is `lo + d % (hi - lo + 1)`.
- A shuffle or `random.sample` is an index sequence.

The image's `Figure` is a class. Its vertices sit in an array that the figure
updates in place, so moving a vertex moves every line through it, as with the
shared `Point` objects of the source. Its lines are values pointing into that
array. `AttachedLine` and `FigureLine` are classes whose methods update their
fields. The image is a class whose lists of lines are sequence fields.

The source's rejection loops retry until they succeed (`add_side2side_line`,
`add_random_line`). In the model they take a finite list of draws and give
up with `Exhausted` when the list runs out. The loops the source bounds
itself (`fling_to_line` and `fling_side_to_line`, 100 attempts each) keep
their bound and fail with `TooClose`, as the source raises.

## Model

| member | source | states |
|---|---|---|
| Vectors.Sub | leftstim/basic_components/Vector.py:37-45 | the difference added back to the subtrahend gives the minuend |
| Vectors.Add | leftstim/basic_components/Vector.py:27-35 | adding the zero vector leaves a vector unchanged (with `Sub`, `AddSubCancel` gives the inverse) |
| Vectors.Scale | leftstim/basic_components/Vector.py:54-59 | scaling by `s` multiplies the squared norm by `s²` |
| Vectors.Div | leftstim/basic_components/Vector.py:47-52 | dividing by a non-zero scalar is undone by scaling back |
| Vectors.Neg | leftstim/basic_components/Vector.py:61-64 | a vector plus its negation is the zero vector |
| Vectors.Norm2 | leftstim/basic_components/Vector.py:66-67 | the squared norm is non-negative and zero exactly for the zero vector |
| Vectors.AddSubCancel | leftstim/basic_components/Vector.py:27-45 | adding then subtracting the same vector is the identity |
| Vectors.NegIsScaleByMinusOne | leftstim/basic_components/Vector.py:54-64 | negation is scaling by -1 |
| Vectors.DivIsScaleByInverse | leftstim/basic_components/Vector.py:47-59 | division is scaling by the inverse |
| Vectors.Same | leftstim/basic_components/Vector.py:13-19 | two vectors are equal exactly when their difference is the zero vector |
| Vectors.SameIsEquality | leftstim/basic_components/Vector.py:13-19 | vector equality compares both coordinates, and nothing else |
| Points.At | leftstim/basic_components/Point.py:4-12 | a new point has the given coordinates and has not grown a line |
| Points.Same | leftstim/basic_components/Point.py:14-20 | two points are equal exactly when they differ at most in the `grown` flag |
| Points.Plus | leftstim/basic_components/Point.py:28-36 | the sum is a fresh point, and adding the origin keeps the position |
| Points.Minus | leftstim/basic_components/Point.py:38-46 | the difference added back gives the original position; the result is a fresh point |
| Points.DivBy | leftstim/basic_components/Point.py:48-53 | each coordinate times the divisor gives the original coordinate |
| Points.Shifted | leftstim/basic_components/Point.py:55-63 | the moved point is offset by exactly `(dx, dy)` and keeps its `grown` flag |
| Points.Dist2 | leftstim/basic_components/Point.py:127-129 | the squared distance is non-negative and zero exactly for equal positions |
| Points.Dist2Symmetric | leftstim/basic_components/Point.py:127-129 | distance does not depend on the order of the points |
| Points.PlusMinusCancel | leftstim/basic_components/Point.py:28-46 | adding then subtracting a point restores the position |
| Points.MinusSelfIsOrigin | leftstim/basic_components/Point.py:38-46 | a point minus itself is the origin |
| Points.SameIgnoresGrown | leftstim/basic_components/Point.py:14-20 | point equality compares coordinates only, never `grown` |
| Lines.ShiftedLine | leftstim/basic_components/Line.py:94-102 | both ends move by `(dx, dy)`; direction and orientation are unchanged |
| Lines.OrientationOf | leftstim/basic_components/Line.py:74-92 | "vertical" when the x's agree, else "horizontal" when the y's agree, else "diagonal"; exactly one holds |
| Lines.ZeroLengthIsVertical | leftstim/basic_components/Line.py:86-92 | a line of zero length counts as vertical, because that test comes first |
| Lines.IsHorizontal | leftstim/basic_components/Line.py:74-78 | horizontal exactly when the line does not rise, in either direction |
| Lines.IsVertical | leftstim/basic_components/Line.py:80-84 | vertical exactly when the line has no run, in either direction |
| Lines.Slope | leftstim/basic_components/Line.py:44-54 | the slope is an error (`UndefinedSlope`) exactly for axis-parallel lines; otherwise it is non-zero and rises `DY` over `DX` |
| Lines.PointAtX | leftstim/basic_components/Line.py:56-63 | fails exactly when the slope does; otherwise the point has the given x and lies on the line |
| Lines.PointAtY | leftstim/basic_components/Line.py:65-72 | fails exactly when the slope does; otherwise the point has the given y and lies on the line |
| Lines.Uniform | leftstim/basic_components/Line.py:34 | a uniform draw lies between its bounds and hits each bound at `t = 0` and `t = 1` |
| Lines.RandomPoint | leftstim/basic_components/Line.py:30-42 | the random point lies on the line and within its bounding box, keeps the y of a horizontal line and the x of a vertical one |
| Lines.RandomPointAlong | leftstim/basic_components/Line.py:30-42 | the random point is the point a fraction `t` along the line |
| Lines.CollinearIsOnLine | leftstim/basic_components/Point.py:106-125 | a point on a proper line passes `is_on_line` |
| Lines.IsOnLine | leftstim/basic_components/Point.py:106-125 | a point at the line's own start passes the tolerant test |
| Lines.MaxDist2 | leftstim/basic_components/Line.py:108-115 | the separation metric is non-negative |
| Lines.MaxDist2AtLeast | leftstim/basic_components/Line.py:108-115 | the metric reaches `d` exactly when one end of this line is at least `d` from both ends of the other |
| Lines.MaxDist2SwapOther | leftstim/basic_components/Line.py:108-115 | reversing the other line does not change the metric |
| Lines.MaxDist2Self | leftstim/basic_components/Line.py:108-115 | a line is at separation 0 from itself |
| Lines.Intersection | leftstim/basic_components/Line.py:122-139 | fails with `ParallelLines` exactly when the cross product is below 0.0001; otherwise the point lies on both lines, along this line, at a horizontal line's y and a vertical line's x |
| Lines.Attempt | leftstim/basic_components/Line.py:155-156 | one attempt starts on this line and ends on the other, each end within its line's box, anchored to the two lines |
| Lines.FirstFarAttemptSpec | leftstim/basic_components/Line.py:141-161 | from attempt `n` on, success is the first attempt whose ends are more than 50 apart, every earlier one being too short; failure comes exactly when every remaining attempt is too short |
| Lines.FlingToLine | leftstim/basic_components/Line.py:141-161 | the answer is the first far-enough attempt as `FirstFarAttemptSpec` describes: success is the first of the 100 attempts whose ends are more than 50 apart; failure (`TooClose`) means all 100 were too short |
| Frames.MakeFrame | leftstim/complex_components/Frame.py:8-23 | width and height are the absolute extents of the top and right lines; the bottom is the top moved down by the height and the left is the right moved left by the width |
| Frames.Borders | leftstim/complex_components/Frame.py:23 | the border list is top, right, bottom, left in that order |
| Frames.IsInFrame | leftstim/basic_components/Point.py:135-139 | a point can be inside only a frame whose left is not right of its right and whose bottom is not above its top |
| Frames.MakeFrameOrdered | leftstim/complex_components/Frame.py:15-22 | the bottom lies `height` below the top and the left `width` left of the right |
| Frames.UprightBorders | leftstim/complex_components/Frame.py:8-23 | in an upright frame every border runs between the corner coordinates the source reads |
| Frames.OnBorderIsInFrame | leftstim/basic_components/Point.py:135-139 | a point on a border of an upright frame is inside the frame |
| Frames.RandomPoint | leftstim/complex_components/Frame.py:89-91 | a random point on a chosen border lies on it, and inside an upright frame |
| Frames.TranslatePreservesOn | leftstim/basic_components/Line.py:94-102 | moving a line and a point on it by the same offset keeps the point on the line |
| Frames.SideToSideFling | leftstim/complex_components/Frame.py:35-57 | fails exactly when the orientation is diagonal and all 100 attempts between the two chosen borders are 50 or shorter, and then with `TooClose` |
| Frames.FlingSideToSide | leftstim/complex_components/Frame.py:35-57 | the answer is `SideToSideFling`'s: vertical: top to bottom, straight down by the height; horizontal: right to left, straight across by the width; diagonal: between two different borders, more than 50 long; a failure is `TooClose` and means all 100 diagonal attempts were 50 or shorter |
| Frames.EndBorder | leftstim/complex_components/Frame.py:74-82 | a vertical line ends on the top or bottom, a horizontal one on the right or left, a diagonal one on any border |
| Frames.SideAttemptAsWritten | leftstim/complex_components/Frame.py:73-82 | as written: a "vertical" end keeps the start's y and a "horizontal" end keeps the start's x |
| Frames.SideAttemptAsWrittenMissesBorder | leftstim/complex_components/Frame.py:74-76 | as written, a "vertical" line is horizontal and ends on the left edge, off the chosen top or bottom border |
| Frames.SideAttempt | leftstim/complex_components/Frame.py:73-82 | corrected: a vertical end keeps the start's x and takes the border's y; a horizontal end keeps the y and takes the border's x; a diagonal end is a random point on a border |
| Frames.SideAttemptReachesBorder | leftstim/complex_components/Frame.py:73-82 | corrected: from a start inside an upright frame the end lies on its border |
| Frames.SideAttemptOnBorderLine | leftstim/complex_components/Frame.py:73-82 | corrected: in an upright frame the end of an attempt lies on the line of its chosen border |
| Frames.FlingSideToLine | leftstim/complex_components/Frame.py:59-87 | corrected: success is the first of 100 corrected attempts more than 50 long, and in an upright frame its end lies on its border; failure (`TooClose`) means none was |
| Frames.FlingSideToLineAsWritten | leftstim/complex_components/Frame.py:59-87 | as written: success is the first of 100 as-written attempts more than 50 long; failure (`TooClose`) means none was |
| Frames.SideAttemptAsWrittenRejects | leftstim/complex_components/Frame.py:74-85 | as written, in a frame whose top border starts at `(-50, 50)` (the image's 100 by 100 frame), a vertical attempt from `(0, -10)` towards the top ends at `(-50, -10)`, exactly 50 away, and is rejected; the corrected attempt ends at `(0, 50)`, 60 away, and is accepted |

| Clipping.BorderLine | leftstim/basic_components/Line.py:171-174 | each side names one of the frame's borders |
| Clipping.ClipSlope | leftstim/basic_components/Line.py:186-190 | the slope from the leftmost to the rightmost end is non-zero and joins them |
| Clipping.HitX | leftstim/basic_components/Line.py:192-193 | the hit point has the border's x and lies on the sloped line |
| Clipping.HitY | leftstim/basic_components/Line.py:197-198 | the hit point has the border's y and lies on the sloped line |
| Clipping.ClipRightward | leftstim/basic_components/Line.py:191-210 | the new end lies on the top, right or bottom border the four-way test picks |
| Clipping.ClipLeftward | leftstim/basic_components/Line.py:211-230 | the new start lies on the top, left or bottom border the four-way test picks |
| Clipping.ClipRightwardOnLine | leftstim/basic_components/Line.py:191-210 | the new end stays on the line's slope |
| Clipping.ClipLeftwardOnLine | leftstim/basic_components/Line.py:211-230 | the new start stays on the line's slope |
| Clipping.ClipRightwardInside | leftstim/basic_components/Line.py:191-210 | from a point inside the frame the new end is inside the frame |
| Clipping.ClipLeftwardInside | leftstim/basic_components/Line.py:211-230 | from a point inside the frame the new start is inside the frame |
| Clipping.ExtendedVersion | leftstim/basic_components/Line.py:163-231 | both new ends lie on the border they are attached to; horizontal lines run left to right at their own y, vertical ones bottom to top at their own x |
| Clipping.ExtendedVersionCollinear | leftstim/basic_components/Line.py:185-230 | a diagonal line's extension stays on the line |
| Clipping.ExtendedVersionInside | leftstim/basic_components/Line.py:163-231 | a line inside the frame extends to ends inside the frame |
| Clipping.CollinearReversed | leftstim/basic_components/Line.py:186-189 | lying on a line does not depend on which end comes first |
| FigureLines.FigureLine.constructor | leftstim/basic_components/FigureLine.py:8-13 | a new figure line is not extended and its extension points are its own ends |
| FigureLines.FigureLine.Extend | leftstim/basic_components/FigureLine.py:15-72 | answers whether it was not yet extended; then its extension points are the frame-clipped ends and it is marked extended; its own ends never move |
| AttachedLines.JiggleWindow | leftstim/basic_components/AttachedLine.py:76-90 | the window runs a third of the way from the end towards each end of its owner, so it stays on the owner's segment and contains the end |
| AttachedLines.JiggleStaysOnOwner | leftstim/basic_components/AttachedLine.py:41-51 | a jiggled end stays on the segment of the line it is attached to |
| AttachedLines.ChangeStart | leftstim/basic_components/AttachedLine.py:17-27 | the start point and start owner are replaced; the end is untouched |
| AttachedLines.ChangeEndAsWritten | leftstim/basic_components/AttachedLine.py:29-39 | as written: `change_end_line` overwrites the start and leaves the end as it was |
| AttachedLines.ChangeEndAsWrittenLosesStart | leftstim/basic_components/AttachedLine.py:29-39 | as written: changing the start and then the end loses the new start and never sets the end |
| AttachedLines.ChangeEnd | leftstim/basic_components/AttachedLine.py:29-39 | corrected: the end point and end owner are replaced; the start is untouched |
| AttachedLines.ChangeBothEnds | leftstim/basic_components/AttachedLine.py:17-39 | corrected: changing both ends, in either order, gives a line with exactly the new ends |
| AttachedLines.JiggledStart | leftstim/basic_components/AttachedLine.py:41-45 | only the start moves, within its jiggle window and on its owner's segment |
| AttachedLines.JiggledEnd | leftstim/basic_components/AttachedLine.py:47-51 | only the end moves, within its jiggle window and on its owner's segment |
| AttachedLines.JiggledAll | leftstim/basic_components/AttachedLine.py:53-73 | the start is jiggled; a horizontal line's end is re-cut level with the new start on the end owner, a vertical one's straight below or above it, unless the owner is parallel (then the end stays); a diagonal line's end is jiggled too |
| AttachedLines.EndAcross | leftstim/basic_components/AttachedLine.py:61-68 | the end is where the level or upright line through the start meets the end owner, or unchanged when they are parallel |
| AttachedLines.ExtendedToParents | leftstim/basic_components/AttachedLine.py:97-115 | both ends land on their owners; when both intersections exist and lie in the frame they are on the line itself, otherwise both ends are random points on their owners' segments |
| AttachedLines.JiggledDiagonalStaysAttached | leftstim/basic_components/AttachedLine.py:53-73 | jiggling a diagonal attached line keeps both ends on their owners' segments |
| AttachedLines.AttachedLine.constructor | leftstim/basic_components/AttachedLine.py:5-15 | the new line holds the given ends and owners |
| AttachedLines.AttachedLine.ChangeStartLine | leftstim/basic_components/AttachedLine.py:17-27 | the state becomes `ChangeStart` of the old state |
| AttachedLines.AttachedLine.ChangeEndLine | leftstim/basic_components/AttachedLine.py:29-39 | the state becomes the corrected `ChangeEnd` of the old state |
| AttachedLines.AttachedLine.JiggleStart | leftstim/basic_components/AttachedLine.py:41-45 | the state becomes `JiggledStart` of the old state |
| AttachedLines.AttachedLine.JiggleEnd | leftstim/basic_components/AttachedLine.py:47-51 | the state becomes `JiggledEnd` of the old state |
| AttachedLines.AttachedLine.JiggleAll | leftstim/basic_components/AttachedLine.py:53-73 | the state becomes `JiggledAll` of the old state |
| AttachedLines.AttachedLine.Shift | leftstim/basic_components/AttachedLine.py:92-95 | shifting an attached line always fails (`InvalidOperation`) |
| AttachedLines.AttachedLine.ExtendToParents | leftstim/basic_components/AttachedLine.py:97-115 | the state becomes `ExtendedToParents` of the old state |
| Growing.LastOnBorder | leftstim/basic_components/Point.py:96-100 | the chosen border is the last of the four the point lies on, or none when it lies on none |
| Growing.FindBorders | leftstim/basic_components/Point.py:96-100 | the loop over the borders picks the last border for each end |
| Growing.BorderFound | leftstim/basic_components/Point.py:96-100 | in a proper frame a point on a border always finds one |
| Growing.Midway | leftstim/basic_components/Point.py:90-91 | the midpoint towards a random border point stays inside an upright frame |
| Growing.Interim | leftstim/basic_components/Point.py:90-92 | the interim line starts at a fresh copy of the point, and from a point inside an upright frame it ends inside the frame |
| Growing.ExtendedVersionOnLine | leftstim/basic_components/Point.py:92-95 | the clipped ends of the interim line lie on it |
| Growing.GrowFrom | leftstim/basic_components/Point.py:65-104 | a grown point gives nothing and stays; horizontal and vertical lines run across the frame through the point without marking it; a diagonal line is the clipped interim line and marks the point grown; a failure (`Unanchored`) needs a frame that is not proper |
| Growing.GrowLine | leftstim/basic_components/Point.py:65-104 | the method's result is `GrowFrom` |
| Figures.WellFormedKept | leftstim/complex_components/Figure.py:11-29 | moving vertices or flagging lines keeps every vertex the end of some line |
| Figures.ExtremeBounds | leftstim/complex_components/Figure.py:61-71 | the lowest or highest coordinate bounds every vertex and is reached by one |
| Figures.ExtentNonNegative | leftstim/complex_components/Figure.py:27-28 | the figure's width and height are not negative |
| Figures.ShiftAll | leftstim/complex_components/Figure.py:50-59 | every vertex moves by the same offset |
| Figures.ExtremeShift | leftstim/complex_components/Figure.py:50-71 | shifting moves each extreme coordinate by the offset on its axis |
| Figures.ShiftKeepsExtent | leftstim/complex_components/Figure.py:50-71 | shifting keeps the width and height |
| Figures.EdgesAt | leftstim/complex_components/Figure.py:73-115 | the lines found at a side are exactly the axis-parallel lines lying on that extreme, in order, each once |
| Figures.SideLines | leftstim/complex_components/Figure.py:73-115 | the figure's lines at a side are exactly those `EdgesAt` finds among all its lines |
| Figures.MovedToReaches | leftstim/complex_components/Figure.py:117-179 | after the move to a border the extreme on that side equals the border's coordinate, the other axis is untouched, and coincidences and `grown` flags are kept |
| Figures.MarkExtended | leftstim/complex_components/Figure.py:128-129 | exactly the given lines gain the extended flag; ends and extension points are kept |
| Figures.Aligned | leftstim/complex_components/Figure.py:117-179 | an aligned figure is still well formed |
| Figures.AlignedReachesBorder | leftstim/complex_components/Figure.py:117-179 | aligning puts the figure's extreme on the border, locks that axis, keeps the other lock, and marks exactly the lines at that side extended |
| Figures.FirstAligning | leftstim/complex_components/Figure.py:188-194 | the first side in the shuffled order that can align, or the end of the order |
| Figures.AlignFirst | leftstim/complex_components/Figure.py:181-194 | when no side in the order can align the figure is unchanged |
| Figures.LonePoint | leftstim/complex_components/Figure.py:196-234 | there is a lone extreme point exactly when all vertices at that extreme coincide, and it is one of them |
| Figures.MovedToKeepsExtreme | leftstim/complex_components/Figure.py:236-278 | moving to a border keeps whether the figure has a lone extreme point |
| Figures.ShiftedToFrame | leftstim/complex_components/Figure.py:236-278 | the shifted figure is still well formed |
| Figures.ShiftedToFrameTouches | leftstim/complex_components/Figure.py:236-278 | shifting to a side puts the lone extreme point on that border and changes neither the lines, the locks nor the other axis |
| Figures.FirstShifting | leftstim/complex_components/Figure.py:286-293 | the first side in the shuffled order that can shift, or the end of the order |
| Figures.ShiftFirst | leftstim/complex_components/Figure.py:280-293 | the lines are kept; when no side in the order can shift the figure is unchanged |
| Figures.NumExtended | leftstim/build/LeftImage.py:90 | the count of extended lines is at most the number of lines |
| Figures.NumExtendedMark | leftstim/basic_components/FigureLine.py:71 | extending a line that was not extended raises the count by one |
| Figures.NumExtendedAll | leftstim/build/LeftImage.py:74-84 | the count equals the number of lines exactly when every line is extended |
| Figures.ExtendedEdge | leftstim/basic_components/FigureLine.py:15-72 | the extended line keeps its ends, is flagged, and its extension lies on the line and on the frame's borders |
| Figures.FirstUnextended | leftstim/complex_components/Figure.py:299-303 | the first line in the shuffled order that is not yet extended, or the end of the order |
| Figures.ExtendFirst | leftstim/complex_components/Figure.py:295-303 | answers whether some line was not extended; then exactly one more line is extended, extended lines and vertices are untouched; otherwise nothing changes |
| Figures.NoneUnextended | leftstim/complex_components/Figure.py:299-303 | when the whole order holds only extended lines, every line is extended |
| Figures.ExtremeIgnoresGrown | leftstim/complex_components/Figure.py:61-71 | the extremes depend on positions only |
| Figures.Positioned | leftstim/complex_components/Figure.py:305-319 | answers false and changes nothing exactly when an axis is locked |
| Figures.PositionedInside | leftstim/complex_components/Figure.py:305-319 | positioning keeps the lines, locks and extent; with room to spare every vertex ends at least 15 inside the frame |
| Figures.FirstUngrown | leftstim/complex_components/Figure.py:328-333 | the first vertex in the shuffled order that has not grown a line, or the end of the order |
| Figures.GrowFirst | leftstim/complex_components/Figure.py:321-333 | gives nothing exactly when every distinct vertex has grown a line; a failure needs a frame that is not proper; lines and locks are kept and vertices only gain `grown` marks |
| Figures.FirstTouching | leftstim/complex_components/Figure.py:354 | the first line through the point, or the end of the list |
| Figures.FirstTouchingFound | leftstim/complex_components/Figure.py:354 | every vertex has a first line through it |
| Figures.FreeAmongSpec | leftstim/complex_components/Figure.py:335-361 | the free points are exactly the vertices passing every test, each once, in vertex order |
| Figures.IsFree | leftstim/complex_components/Figure.py:340-361 | a free vertex is at least 3 from every other vertex |
| Figures.FreePoints | leftstim/complex_components/Figure.py:335-361 | the free points are exactly the free vertices |
| Figures.FreeIsAlone | leftstim/complex_components/Figure.py:355-361 | a free vertex is at least 3 from every other vertex |
| Figures.GrowEach | leftstim/complex_components/Figure.py:368-370 | growing from several vertices keeps the vertex count |
| Figures.GrowEachKeeps | leftstim/complex_components/Figure.py:368-370 | growing from several vertices only adds `grown` marks; a failure needs a frame that is not proper |
| Figures.GrowEachLines | leftstim/complex_components/Figure.py:368-370 | on success there is one result per vertex, and each is a line when the vertices are distinct and had not grown |
| Figures.CloseUp | leftstim/complex_components/Figure.py:363-372 | closing up keeps the figure well formed |
| Figures.CloseUpCloses | leftstim/complex_components/Figure.py:363-372 | a closed figure gives nothing; otherwise success closes it with one line per free vertex; a failure leaves it open; lines, locks and positions are kept |
| Figures.ShiftEach | leftstim/complex_components/Figure.py:58-59 | the array's points end up shifted by the offset |
| Figures.MarkEach | leftstim/complex_components/Figure.py:128-129 | the loop flags exactly the lines `MarkExtended` flags |
| Figures.SmallerMetBefore | leftstim/complex_components/Figure.py:20-24 | with vertices numbered in order of first use, every smaller vertex number is met at an earlier line end |
| Figures.Figure.constructor | leftstim/complex_components/Figure.py:11-29 | the vertices are numbered in order of first use, as `all_points` collects them; the lines are the given ones, unextended; no axis is locked; `closed` says whether the first line's start equals the last line's end; width and height are not negative |
| Figures.Figure.Shift | leftstim/complex_components/Figure.py:50-59 | every vertex moves by the offset; lines and flags stay |
| Figures.Figure.Align | leftstim/complex_components/Figure.py:117-179 | answers whether the side could align, and the figure becomes `Aligned` exactly then |
| Figures.Figure.AlignAt | leftstim/complex_components/Figure.py:123-130 | the acting half of aligning produces `Aligned` |
| Figures.Figure.AlignWithFrame | leftstim/complex_components/Figure.py:181-194 | answers whether some side in the order aligned; the figure becomes `AlignFirst` |
| Figures.Figure.ShiftToFrameSide | leftstim/complex_components/Figure.py:236-278 | answers whether the side could shift; the figure becomes `ShiftedToFrame` exactly then |
| Figures.Figure.ShiftToAt | leftstim/complex_components/Figure.py:243 | the acting half of shifting produces `ShiftedToFrame` |
| Figures.Figure.ShiftToFrame | leftstim/complex_components/Figure.py:280-293 | answers whether some side in the order shifted; the figure becomes `ShiftFirst` |
| Figures.Figure.ExtendLine | leftstim/complex_components/Figure.py:295-303 | answer and new figure are `ExtendFirst` |
| Figures.Figure.RandomlyPosition | leftstim/complex_components/Figure.py:305-319 | answer and new figure are `Positioned` |
| Figures.Figure.GrowLine | leftstim/complex_components/Figure.py:321-333 | result and new figure are `GrowFirst` |
| Figures.Figure.HasNearbyPoint | leftstim/complex_components/Figure.py:355-359 | the loop finds another vertex within 3 exactly when there is one |
| Figures.Figure.IsFreePoint | leftstim/complex_components/Figure.py:340-361 | the checks on one vertex agree with `IsFree` |
| Figures.Figure.FindFreePoints | leftstim/complex_components/Figure.py:335-361 | the loop collects exactly `FreePoints` |
| Figures.Figure.CloseUpFreePoints | leftstim/complex_components/Figure.py:363-372 | result and new figure are `CloseUp` |
| Figures.GrowAll | leftstim/complex_components/Figure.py:368-370 | growing in place gives `GrowEach`'s results and vertices |
| Scenes.ImageFrame | leftstim/build/LeftImage.py:35-37 | the image's frame is built from its top and right lines as `Frame` builds any frame |
| Scenes.ImageFrameBorders | leftstim/build/LeftImage.py:35-37 | the frame is upright and centred: width `w` and height `h`, borders at ±w/2 and ±h/2 |
| Scenes.Geoms | leftstim/build/LeftImage.py:225-228 | one plain line per attached line, in order |
| Scenes.EdgeLines | leftstim/build/LeftImage.py:225-228 | one plain line per figure line, in order |
| Scenes.TwoThirds | leftstim/build/LeftImage.py:91 | the least count whose triple reaches twice the number of lines, which is the rounded-up two thirds |
| Scenes.ExtendedFromTrans | leftstim/build/LeftImage.py:94-98 | extending in two rounds is extending once |
| Scenes.OneToExtend | leftstim/build/LeftImage.py:86-101 | three lines with one extended leave exactly one to extend |
| Scenes.IsFarFromAll | leftstim/build/LeftImage.py:124-127 | the loop says the candidate is far exactly when no existing line is closer than 40 |
| Scenes.OtherThan | leftstim/complex_components/Frame.py:54 | the second choice is a valid index different from the first |
| Scenes.OtherThanCovers | leftstim/build/LeftImage.py:154 | every index other than the first can be the second choice |
| Scenes.RandInt | leftstim/build/LeftImage.py:243-245 | the draw lies within `randint`'s inclusive bounds |
| Scenes.Split | leftstim/build/LeftImage.py:243-246 | the jiggled count is between a third and twice a third of the lines; the kept count is the same for the rest; together they do not exceed the total |
| Scenes.BlockSize | leftstim/build/LeftImage.py:248-251 | a block of a permutation has as many lines as positions |
| Scenes.Below | leftstim/build/LeftImage.py:248-251 | the indices below `n`, `n` of them |
| Scenes.SubsetSize | leftstim/build/LeftImage.py:249-251 | a subset is no larger than its superset |
| Scenes.PermutationCovers | leftstim/build/LeftImage.py:248-251 | the permutation reaches every line |
| Scenes.ReplacePartition | leftstim/build/LeftImage.py:243-251 | the jiggled, kept and replaced groups have the drawn sizes, are pairwise disjoint and cover every extended line |
| Scenes.JiggledGroup | leftstim/build/LeftImage.py:253-255 | one jiggled line per line in the jiggle group |
| Scenes.JiggleGroup | leftstim/build/LeftImage.py:253-255 | the loop jiggles exactly `JiggledGroup` |
| Scenes.LeftGroup | leftstim/build/LeftImage.py:257 | as many lines as the group left alone |
| Scenes.Kept | leftstim/build/LeftImage.py:253-257 | the other lines, then the jiggled group, then the group left alone |
| Scenes.Image.AllLines | leftstim/build/LeftImage.py:225-228 | figure lines, then other lines, then lines linked to the figure |
| Scenes.Image.StartLines | leftstim/build/LeftImage.py:141 | figure lines, then other lines |
| Scenes.Image.constructor | leftstim/build/LeftImage.py:18-37 | a new image has the centred frame, no figure and no lines |
| Scenes.Image.AddFigure | leftstim/build/LeftImage.py:39-45 | the figure moves into the image's frame and becomes its figure, otherwise unchanged |
| Scenes.Image.RandomlyPositionFigure | leftstim/build/LeftImage.py:60-65 | false without a figure; otherwise the figure is `Positioned` and the answer is true |
| Scenes.Image.ExtendFigureLine | leftstim/build/LeftImage.py:67-72 | false without a figure; otherwise answer and figure are `ExtendFirst` |
| Scenes.Image.ExtendAllFigureLines | leftstim/build/LeftImage.py:74-84 | afterwards every figure line is extended, extended lines untouched; the answer is whether some line was not extended before |
| Scenes.Image.ExtendTwoThirdsFigureLinesAsWritten | leftstim/build/LeftImage.py:86-101 | as written: the figure ends with the rounded-up two thirds extended, but the answer is true only when two or more lines had to be extended |
| Scenes.Image.ExtendTwoThirdsFigureLines | leftstim/build/LeftImage.py:86-101 | corrected: true exactly when some line had to be extended, and then exactly the rounded-up two thirds are extended; otherwise nothing changes |
| Scenes.Image.AlignFigureWithFrame | leftstim/build/LeftImage.py:103-107 | the figure, if any, becomes `AlignFirst` |
| Scenes.Image.ShiftFigureToFrame | leftstim/build/LeftImage.py:109-114 | false without a figure; otherwise answer and figure are those of `ShiftFirst` |
| Scenes.Image.GrowFigureLine | leftstim/build/LeftImage.py:282-290 | false without a figure; otherwise the figure grows as `GrowFirst` says, and a grown line is appended and answered true |
| Scenes.Image.CloseFigureFreePoints | leftstim/build/LeftImage.py:276-280 | without a figure nothing happens and the answer is false; otherwise the figure closes up as `CloseUp` says, every grown line is appended in order and the answer is false, as the source's `None` is |
| Scenes.Image.JiggleNonFigLines | leftstim/build/LeftImage.py:230-232 | every other line becomes its `JiggledAll` with its own draws; nothing else changes |
| Scenes.FlingCandidate | leftstim/build/LeftImage.py:123 | one candidate's fling is `CandidateFling`: it runs between frame sides as the orientation asks, and only a diagonal fling can fail, with `TooClose` |
| Scenes.FirstFarCandidate | leftstim/build/LeftImage.py:119-127 | success is the fling of the first candidate that is at least 40 from every line, every earlier candidate having been too near; `TooClose` means some candidate's diagonal fling gave up after every earlier one was too near; `Exhausted` means every candidate was too near |
| Scenes.Image.AddSide2SideLine | leftstim/build/LeftImage.py:116-128 | an added line is the fling of the first candidate at least 40 from every existing line by the separation metric, every earlier candidate too near, and is appended; `TooClose` means a candidate's diagonal fling gave up after every earlier one was too near; `Exhausted` means every candidate was too near; on failure nothing changes |
| Scenes.Side2LineStart | leftstim/build/LeftImage.py:134-142 | the start line is a figure line or another line, and counts as a figure line exactly when chosen from the figure |
| Scenes.Line2LineEnds | leftstim/build/LeftImage.py:151-160 | the start is a figure or other line and the end another line; without a figure they are two different other lines |
| Scenes.Image.AddSide2LineLine | leftstim/build/LeftImage.py:130-147 | corrected: does nothing exactly without a figure and other lines; otherwise the new line is a corrected fling attempt from the chosen start line, more than 50 long, on its owners in an upright frame, and appended to the linked lines exactly when that start is a figure line; a failure is `TooClose`, means all 100 attempts were too short, and changes nothing |
| Scenes.Image.AddLine2LineLine | leftstim/build/LeftImage.py:149-163 | does nothing exactly when there are too few lines; otherwise the new line is one of the 100 attempts between the chosen lines, more than 50 long and on both owners, and goes to the linked lines exactly when the start is a figure line; a failure is `TooClose`, means all 100 attempts were too short, and changes nothing |
| Scenes.Image.TryPick | leftstim/build/LeftImage.py:178-184 | corrected for side-to-line picks: one pick runs the chosen `add_*` method; the line it adds is the one `PickAdds` describes for that kind, `TooClose` means `PickFails` (for a side-to-side pick: some candidate's fling gave up after every earlier one was too near) and `Exhausted` means `PickExhausts` (every candidate of a side-to-side pick was too near) |
| Scenes.Image.AddRandomLine | leftstim/build/LeftImage.py:165-187 | corrected for side-to-line picks: every pick before the successful one failed (`PickFails`), and the added line is the one that pick's kind describes (`PickAdds`): a side-to-side line far from all lines, or a far-enough attempt from the chosen start, or between the chosen lines, appended to the other or the linked lines as its start decides; in an upright frame it lies on its owners; nothing added means too few lines; `Exhausted` means every pick failed, or the picks before one whose candidates were all too near (`PickExhausts`) failed |
| Scenes.Image.ExtendedLines | leftstim/build/LeftImage.py:239 | one extended copy per figure line and linked line |
| Scenes.Image.ReplaceRest | leftstim/build/LeftImage.py:259-269 | at most one new line per replaced line, appended after the existing ones; the first `counter` replacements are guided and the rest random |
| Scenes.Image.ExtendLinesToParents | leftstim/build/LeftImage.py:271-274 | every other line becomes its `ExtendedToParents` |
| Scenes.Image.KeepGroups | leftstim/build/LeftImage.py:253-257 | the other lines become `Kept` |
| Scenes.Image.ReplaceFigureWithLines | leftstim/build/LeftImage.py:234-274 | the figure and linked lines are gone; the kept and jiggled copies come first, then the replacements; on success every line is extended to its owners and lies on them |

## Left out

- Drawing, windows, colours and saving (`draw`, `draw_just_figure`, `save_image`, `save_image_and_context`, the psychopy objects) are output only.
- `add_random_figure` and `add_figure_by_name` read `FigureLineCollections`; FigureLineCollections is not part of this model. A figure is built from explicit vertices and line ends instead.
- `nonextended_figure` is a deep copy kept only for drawing, so it is not modelled.
- `Figure.get_random_point` is not used by the image, and `Figure.draw` only draws, so neither is modelled.
- `Vector.get_norm` is modelled squared (`Norm2`); `get_normalized_vector` and `to_numpy` need square roots or numpy.
- `Point.dist` and `Line.get_length` are modelled squared, and `Point.get_dist_vector` is `Minus` with the arguments swapped.
- Lines.Intersection: models `numpy.linalg.solve` by Cramer's rule in exact arithmetic. Floating-point rounding is not modelled.
- Random draws are arguments, so the weights of `add_random_line` (five side-to-side entries, one line-to-line, two side-to-line) and the uniformity of the draws are not modelled.
- Scenes.Image.AddSide2SideLine: the source loops until a candidate is far enough; the model takes a finite list of candidates and answers `Exhausted` when none is.
- Frames.FlingSideToLine: uses the corrected end of lines 76 and 79 of `Frame.py` (see Findings); `Frames.FlingSideToLineAsWritten` is the loop as written, and `Frames.SideAttemptAsWrittenRejects` is an input on which the two accept different attempts.
- Scenes.Image.AddSide2LineLine: flings with the corrected `Frames.FlingSideToLine`, so the line it adds is the corrected attempt, not the as-written one.
- Scenes.Image.TryPick: a side-to-line pick adds the corrected attempt, as `AddSide2LineLine` does.
- Scenes.Image.AddRandomLine: its side-to-line picks add the corrected attempt, as `AddSide2LineLine` does.
- Scenes.Image.AddRandomLine: the source retries forever on a raised error; the model takes a finite list of picks and answers `Exhausted` when they run out, or when a side-to-side pick runs out of its own candidates.
- Scenes.Image.ReplaceRest: only states sizes and the order of the counter's guided replacements, not each replacement line; a replacement inherits the guarantees of `AddLine2LineLine`, `AddSide2SideLine` and `AddRandomLine`.
- Lines held by attached lines are values. Later moves of the object an attached line hangs from (a figure line that is shifted afterwards) are not seen by the attached line.
- `Figure.all_points` is a class attribute in the source, shared by every `Figure` ever made. The model gives each figure its own vertex array, which matches a program that builds one figure.
- Exceptions become `Result` errors: `UndefinedSlope`, `ParallelLines`, `TooClose`, `InvalidOperation` and `Unanchored` (a grown diagonal whose end is on no border, where the source would hit an unbound variable).
- `AttachedLine.jiggle_all` prints and skips when an intersection fails. The model leaves the end where it was, as the source does after the start has moved.
- `align_figure_with_frame` answers `False` or nothing, both false, so the model's method has no answer. `close_figure_free_points` and `grow_figure_line` answer `False` without a figure, which the model writes `Ok(false)`; with a figure `close_figure_free_points` returns `None`, which the model also writes `Ok(false)`. The `add_*` methods answer nothing in the source, while the model returns the added line, or `None` when a guard refuses.
- `replace_figure_with_lines` asserts that a figure exists and that the image has more than five lines; these are the method's preconditions. Its `isinstance(line, AttachedLine)` test always holds for the lines left once the figure is gone, so every line is extended to its owners.
- Axis-aligned `Point.grow_line` does not set `grown`, and the replacement counter starts from the number of extended lines although the source names it for the non-extended ones. Both are modelled as written.

## Findings

| source | as written | input that shows it | evidently intended | confidence | as-written member | corrected member |
|---|---|---|---|---|---|---|
| leftstim/basic_components/AttachedLine.py:29-39 | `change_end_line` assigns `start_point` and `start_line` | change the start to `s`, then the end to `e` with `e != s`: the start is `e` and the end never moved | assign `end_point` and `end_line` | high (not executed) | AttachedLines.ChangeEndAsWrittenLosesStart | AttachedLines.ChangeBothEnds |
| leftstim/complex_components/Frame.py:74-79 | a "vertical" end is `(end_line.start_point.x, start_point.y)` and a "horizontal" end `(start_point.x, end_line.start_point.y)` | the image's 100 by 100 frame, start `(0, 0)`, orientation vertical: the end is `(-50, 0)`, a horizontal line ending on the left edge, not on the chosen top or bottom border | a vertical end `(start_point.x, end_line.start_point.y)`, a horizontal end `(end_line.start_point.x, start_point.y)` | high (not executed) | Frames.SideAttemptAsWrittenMissesBorder | Frames.SideAttemptReachesBorder |
| leftstim/build/LeftImage.py:89-101 | `count` starts at -1 and is raised on every call | three figure lines, one already extended: one line is extended, `count` ends at 0 and the method answers `False` | answer `True` when some line was extended | medium (not executed) | Scenes.Image.ExtendTwoThirdsFigureLinesAsWritten | Scenes.Image.ExtendTwoThirdsFigureLines |
