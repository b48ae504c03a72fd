# FTouchHelper in Dafny

A model of `FTouchHelper`, an Android helper that follows one touch
gesture and offers a few static layout and hit-test utilities.

- `gesture.dfy`, module `Gesture`: the per-gesture state. The class
  `TouchHelper` keeps the current, previous ("last") and press ("down")
  positions, updated in place by `ProcessTouchEvent`. `State()` views
  those six fields as a `Tracker` value. The delta getters
  (`DeltaX`, `DeltaY`, `DeltaXFromDown`, `DeltaYFromDown`) and the angle
  getters are members of `Tracker`. `Step` is what one event does to a
  `Tracker`, and `Run` folds `Step` over a stream of events; the lemmas
  about streams are stated over `Run`. `IsClick` classifies a release as
  a click, given the platform's timing and slop constants as a
  `ViewConfig`. Positions are `real`; Java's `(int)` cast on a float is
  `TruncToInt`, which rounds toward zero.
- `layout.dfy`, module `Layout`: the static helpers. `LegalDelta` clamps
  an increment in place, and `ClampedDelta` is its specification.
  `IsViewUnder` and `IsViewUnderScreen` are hit tests. `FindChildrenUnder`
  scans a container's children from last to first. Four functions give
  the alignment offsets. Views are records: frame, padding, and
  `Option<Margins>` for layout parameters that may or may not carry
  margins. A view's width and height are `right - left` and
  `bottom - top`, as on the platform. The screen location of a view is
  passed in as a `Location`.

`MarginsUsed` defines the margin term that the four alignment
contracts use: a child's margins count only when margins are asked for
and its layout parameters carry them.

Click detection compares the signed movement since the press with the
touch slop, and the model follows the code. The touch slop is a distance
tolerance, so a quick release after a long drag to the left or upward
should not be a click; this is listed under Findings.

## Model

| member | source | states |
|---|---|---|
| `Gesture.TouchHelper.constructor` | lib/src/main/java/cn/linhome/lib/gesture/FTouchHelper.java:19-28 | a new helper has all six positions at 0, so every delta is 0, and debug off |
| `Gesture.TouchHelper.SetDebug` | lib/src/main/java/cn/linhome/lib/gesture/FTouchHelper.java:30-33 | sets the debug flag and leaves every position unchanged |
| `Gesture.TouchHelper.ProcessTouchEvent` | lib/src/main/java/cn/linhome/lib/gesture/FTouchHelper.java:40-60 | last becomes the old current (also on a press), current becomes the event's raw position, down becomes the new current exactly on ACTION_DOWN and is otherwise unchanged; the new state is `Step` of the old one |
| `Gesture.RunCurrentIsLastEvent` | lib/src/main/java/cn/linhome/lib/gesture/FTouchHelper.java:45-46 | after any non-empty stream of events, current is the raw position of the stream's last event |
| `Gesture.RunLastIsPreviousEvent` | lib/src/main/java/cn/linhome/lib/gesture/FTouchHelper.java:42-43 | after a stream, last is the position of the next-to-last event, or the earlier current when the stream has one event |
| `Gesture.RunWithoutDownKeepsDown` | lib/src/main/java/cn/linhome/lib/gesture/FTouchHelper.java:48-53 | a stream with no ACTION_DOWN never changes down |
| `Gesture.RunDownIsLatestDown` | lib/src/main/java/cn/linhome/lib/gesture/FTouchHelper.java:48-53 | after a stream, down is the position of its latest ACTION_DOWN event |
| `Gesture.SumOfDeltasIsDisplacement` | lib/src/main/java/cn/linhome/lib/gesture/FTouchHelper.java:99-110 | the signed, unclamped step deltas reported over a stream add up to the net movement of current |
| `Gesture.DeltaFromDownIsSumOfDeltas` | lib/src/main/java/cn/linhome/lib/gesture/FTouchHelper.java:117-130 | in a gesture that opens with a press, the movement since the press equals the sum of the step deltas reported after it |
| `Gesture.StationaryEventsReportNothing` | lib/src/main/java/cn/linhome/lib/gesture/FTouchHelper.java:99-167 | two consecutive events at the same position give zero deltas and zero angles |
| `Gesture.Degree` | lib/src/main/java/cn/linhome/lib/gesture/FTouchHelper.java:142-199 | the angle is 0 when the denominator delta is 0, and atan(0) when only the other delta is 0 |
| `Gesture.Tracker.DegreeX` | lib/src/main/java/cn/linhome/lib/gesture/FTouchHelper.java:142-151 | the x angle is 0 whenever the x delta is 0 |
| `Gesture.Tracker.DegreeY` | lib/src/main/java/cn/linhome/lib/gesture/FTouchHelper.java:158-167 | the y angle is 0 whenever the y delta is 0 |
| `Gesture.Tracker.DegreeXFromDown` | lib/src/main/java/cn/linhome/lib/gesture/FTouchHelper.java:174-183 | the x angle since the press is 0 whenever the x movement since the press is 0 |
| `Gesture.Tracker.DegreeYFromDown` | lib/src/main/java/cn/linhome/lib/gesture/FTouchHelper.java:190-199 | the y angle since the press is 0 whenever the y movement since the press is 0 |
| `Gesture.DegreesComplementary` | lib/src/main/java/cn/linhome/lib/gesture/FTouchHelper.java:142-167 | with both deltas non-zero, the x and y angles add up to 90 degrees for any arc tangent with atan(t) + atan(1/t) = 90 |
| `Gesture.TruncToInt` | lib/src/main/java/cn/linhome/lib/gesture/FTouchHelper.java:219-220 | the cast rounds toward zero: the result is at most the value for non-negative values and at least the value for negative ones, and less than 1 away |
| `Gesture.IsClick` | lib/src/main/java/cn/linhome/lib/gesture/FTouchHelper.java:211-226 | a click is only ever an ACTION_UP whose duration is below pressed-state duration plus tap timeout and whose signed movement since the press is below the slop on both axes |
| `Gesture.IsClickIff` | lib/src/main/java/cn/linhome/lib/gesture/FTouchHelper.java:211-226 | for a positive slop, both directions: a click exactly when the event is ACTION_UP, quick enough, and the signed movement on each axis is below the slop (the truncation makes no difference) |
| `Gesture.BelowSlopAfterTruncation` | lib/src/main/java/cn/linhome/lib/gesture/FTouchHelper.java:219-222 | a truncated movement is below a positive integral slop exactly when the movement is |
| `Gesture.LongLeftwardDragIsClick` | lib/src/main/java/cn/linhome/lib/gesture/FTouchHelper.java:219-222 | a quick release after moving left by the slop or more is still a click |
| `Gesture.IsClickWithinSlop` | lib/src/main/java/cn/linhome/lib/gesture/FTouchHelper.java:211-226 | the corrected test, both directions: a click exactly when the event is ACTION_UP, the release is quick, and the distance moved is below the slop on each axis, in either direction |
| `Gesture.WithinSlopRefinesIsClick` | lib/src/main/java/cn/linhome/lib/gesture/FTouchHelper.java:222 | the corrected test accepts only what the source accepts, and agrees with it on movements to the right and downward |
| `Layout.LegalDelta` | lib/src/main/java/cn/linhome/lib/gesture/FTouchHelper.java:239-253 | a zero increment gives 0 even out of range; an increment that lands in [min, max] is kept; otherwise, for min <= max, current plus the result lies in [min, max] |
| `Layout.ClampedDeltaIsClosest` | lib/src/main/java/cn/linhome/lib/gesture/FTouchHelper.java:241-251 | of all increments landing in [min, max], the clamped one is the closest to the requested one |
| `Layout.ClampedDeltaIdempotent` | lib/src/main/java/cn/linhome/lib/gesture/FTouchHelper.java:239-253 | clamping an already clamped increment changes nothing when min <= max |
| `Layout.ClampedDeltaFromAboveMax` | lib/src/main/java/cn/linhome/lib/gesture/FTouchHelper.java:248-251 | from above max, a positive increment becomes the negative one that returns to max |
| `Layout.IsViewUnder` | lib/src/main/java/cn/linhome/lib/gesture/FTouchHelper.java:276-280 | only a view with positive width and height can be under a point |
| `Layout.FrameIsHalfOpen` | lib/src/main/java/cn/linhome/lib/gesture/FTouchHelper.java:276-280 | the top-left corner is inside every non-empty view; no point on the right or bottom edge is inside |
| `Layout.IsViewUnderScreen` | lib/src/main/java/cn/linhome/lib/gesture/FTouchHelper.java:290-296 | only a view with positive width and height can be under a screen point |
| `Layout.ScreenTestIsTranslatedTest` | lib/src/main/java/cn/linhome/lib/gesture/FTouchHelper.java:276-296 | the screen test is the half-open parent test applied to the point moved by the offset between screen location and frame |
| `Layout.HitIndices` | lib/src/main/java/cn/linhome/lib/gesture/FTouchHelper.java:311-318 | every index it yields is a valid child index at or after the starting one |
| `Layout.HitIndicesExact` | lib/src/main/java/cn/linhome/lib/gesture/FTouchHelper.java:306-320 | the indices are exactly those of the children under the point, each once, in strictly descending order |
| `Layout.FindChildrenUnder` | lib/src/main/java/cn/linhome/lib/gesture/FTouchHelper.java:306-320 | the list holds the children at the hit indices, last child first; every listed child is under the point and every child under the point is listed |
| `Layout.LeftAlignParentLeft` | lib/src/main/java/cn/linhome/lib/gesture/FTouchHelper.java:330-338 | the child's left edge, less its left margin, sits on the parent's left padding |
| `Layout.LeftAlignParentRight` | lib/src/main/java/cn/linhome/lib/gesture/FTouchHelper.java:348-356 | the child's right edge plus its right margin sits on the parent's width less its right padding |
| `Layout.TopAlignParentTop` | lib/src/main/java/cn/linhome/lib/gesture/FTouchHelper.java:366-374 | the child's top edge, less its top margin, sits on the parent's top padding |
| `Layout.TopAlignParentBottom` | lib/src/main/java/cn/linhome/lib/gesture/FTouchHelper.java:384-392 | as written: the child's bottom edge plus its bottom margin sits on the parent's height less its TOP padding |
| `Layout.BottomAlignMissesBottomPadding` | lib/src/main/java/cn/linhome/lib/gesture/FTouchHelper.java:386 | whenever top and bottom paddings differ, that bottom alignment misses the parent's inner bottom edge |
| `Layout.TopAlignParentBottomPadded` | lib/src/main/java/cn/linhome/lib/gesture/FTouchHelper.java:384-392 | corrected: the child's bottom edge plus its bottom margin sits on the parent's height less its bottom padding |
| `Layout.AlignmentsOrderedIffChildFits` | lib/src/main/java/cn/linhome/lib/gesture/FTouchHelper.java:330-392 | left alignment is at or left of right alignment exactly when the child and its margins fit inside the parent's horizontal padding; the same vertically for top and corrected bottom alignment |

## Left out

- The numeric value of the angles: `Math.atan`, `Math.toDegrees` and float division are floating point. The arc tangent in degrees is a parameter (`atanDegrees`). Only the zero guard and the reciprocal structure are modelled.
- Float rounding: positions and their differences are exact `real`s, not 32-bit floats.
- TruncToInt: does not model Java's saturation of the float-to-int cast for NaN, infinities or values outside the `int` range.
- LegalDelta: does not model 32-bit wrap-around of `current + delta` and of the adjustment; integers are unbounded.
- IsClick: does not model wrap-around of the `long` duration or the `long` click timeout.
- The debug log in `processTouchEvent` and `getDebugInfo` (lines 55-59, 440-452): logging and float-to-string formatting. Only the debug flag is kept.
- `isScrollToLeft`, `isScrollToTop`, `isScrollToRight`, `isScrollToBottom` (lines 400-436): each negates a platform `canScroll*` query whose behaviour is not part of this model.
- `requestDisallowInterceptTouchEvent` (lines 261-266): it only forwards a call to the platform's parent view.
- `MotionEvent`, `ViewConfiguration`, `Context` and `getLocationOnScreen` are platform objects. They are replaced by the records `MotionEvent`, `ViewConfig` and `Location`. `getAction()` is taken to be the plain action code; the pointer-index bits are not modelled.
- The plain position getters (lines 62-90) are the fields of `TouchHelper` and of `Tracker`; the delta getters (lines 99-130) are the `Tracker` members, read through `State()`.
- Object identity of the views: `FindChildrenUnder` returns view records, so two equal children cannot be told apart by value. `HitIndices` gives the child indices instead.

## Findings

| source | as written | input that shows it | evidently intended | confidence | as-written member | corrected member |
|---|---|---|---|---|---|---|
| lib/src/main/java/cn/linhome/lib/gesture/FTouchHelper.java:222 | `dx < touchSlop && dy < touchSlop` on the signed movement since the press | ACTION_UP 50 ms after the press, down at x = 500, current at x = 0, slop 8: dx = -500, and it is reported as a click | compare the distance moved, `abs(dx) < touchSlop` and `abs(dy) < touchSlop` | medium, not executed | `Gesture.LongLeftwardDragIsClick` | `Gesture.IsClickWithinSlop` |
| lib/src/main/java/cn/linhome/lib/gesture/FTouchHelper.java:386 | `parent.getHeight() - parent.getPaddingTop() - child.getHeight()` | parent height 100, paddingTop 10, paddingBottom 0, child height 20, no margin: result 70, so the child's bottom is at 90 and not at the bottom edge 100 | subtract `parent.getPaddingBottom()` | high, not executed | `Layout.BottomAlignMissesBottomPadding` | `Layout.TopAlignParentBottomPadded` |
