/** Tracking of one touch gesture: the current, previous and press ("down")
    positions of the pointer, the deltas and angles derived from them, and
    the classification of a release as a click. */
module Gesture {

  /** MotionEvent action codes, with the values the platform gives them. */
  const ACTION_DOWN: int := 0
  const ACTION_UP: int := 1
  const ACTION_MOVE: int := 2
  const ACTION_CANCEL: int := 3

  /** The parts of a motion event the helper reads: its action code, its
      absolute (screen) position and its two timestamps in milliseconds. */
  datatype MotionEvent = MotionEvent(action: int, rawX: real, rawY: real, eventTime: int, downTime: int)

  /** The platform's timing and slop constants used by click detection. */
  datatype ViewConfig = ViewConfig(pressedStateDuration: int, tapTimeout: int, touchSlop: int)

  function Abs(r: real): (a: real)
    ensures 0.0 <= a && (a == r || a == -r)
  {
    if r < 0.0 then -r else r
  }

  /** A cast of a real to an integer that rounds toward zero, as Java's
      `(int)` cast does on a float in range (not `Floor` for negatives). */
  function TruncToInt(r: real): (i: int)
    ensures 0.0 <= r ==> 0 <= i && i as real <= r < i as real + 1.0
    ensures r < 0.0 ==> i <= 0 && i as real - 1.0 < r <= i as real
  {
    if 0.0 <= r then r.Floor else -((-r).Floor)
  }

  /** The six recorded coordinates of a gesture, as a value. */
  datatype Tracker = Tracker(currentX: real, currentY: real,
                             lastX: real, lastY: real,
                             downX: real, downY: real)
  {
    /** Movement between the previous event and the current one. */
    function DeltaX(): real { currentX - lastX }
    function DeltaY(): real { currentY - lastY }

    /** Movement since the press that started the gesture. */
    function DeltaXFromDown(): real { currentX - downX }
    function DeltaYFromDown(): real { currentY - downY }

    /** Angle of the last movement to the x axis (and to the y axis), in degrees. */
    function DegreeX(atanDegrees: real -> real): (d: real)
      ensures DeltaX() == 0.0 ==> d == 0.0
    {
      Degree(DeltaY(), DeltaX(), atanDegrees)
    }

    function DegreeY(atanDegrees: real -> real): (d: real)
      ensures DeltaY() == 0.0 ==> d == 0.0
    {
      Degree(DeltaX(), DeltaY(), atanDegrees)
    }

    /** The same two angles for the movement since the press. */
    function DegreeXFromDown(atanDegrees: real -> real): (d: real)
      ensures DeltaXFromDown() == 0.0 ==> d == 0.0
    {
      Degree(DeltaYFromDown(), DeltaXFromDown(), atanDegrees)
    }

    function DegreeYFromDown(atanDegrees: real -> real): (d: real)
      ensures DeltaYFromDown() == 0.0 ==> d == 0.0
    {
      Degree(DeltaXFromDown(), DeltaYFromDown(), atanDegrees)
    }
  }

  /** The angle whose tangent is |opposite| / |adjacent|, in degrees, where
      `atanDegrees` stands for the platform's arc tangent converted to
      degrees. A zero `adjacent` gives 0 instead of dividing by zero. */
  function Degree(opposite: real, adjacent: real, atanDegrees: real -> real): (d: real)
    ensures adjacent == 0.0 ==> d == 0.0
    ensures adjacent != 0.0 && opposite == 0.0 ==> d == atanDegrees(0.0)
  {
    if adjacent == 0.0 then 0.0 else atanDegrees(Abs(opposite) / Abs(adjacent))
  }

  /** When both legs are non-zero the two angles of a movement are
      complementary, for any arc tangent with atan(t) + atan(1/t) = 90 degrees. */
  lemma DegreesComplementary(opposite: real, adjacent: real, atanDegrees: real -> real)
    requires opposite != 0.0 && adjacent != 0.0
    requires forall t: real, u: real :: 0.0 < t && t * u == 1.0 ==> atanDegrees(t) + atanDegrees(u) == 90.0
    ensures Degree(opposite, adjacent, atanDegrees) + Degree(adjacent, opposite, atanDegrees) == 90.0
  {
    var a, b := Abs(opposite), Abs(adjacent);
    ReciprocalsMultiplyToOne(a, b);
  }

  lemma ReciprocalsMultiplyToOne(a: real, b: real)
    requires 0.0 < a && 0.0 < b
    ensures (a / b) * (b / a) == 1.0
  {
    var t, u := a / b, b / a;
    assert t * b == a && u * a == b;
    assert (t * u) * (a * b) == (t * b) * (u * a);
    assert (t * u - 1.0) * (a * b) == 0.0;
  }

  /** A helper that has seen no event. */
  const Initial: Tracker := Tracker(0.0, 0.0, 0.0, 0.0, 0.0, 0.0)

  /** What one processed event does to the recorded positions. */
  function Step(t: Tracker, e: MotionEvent): Tracker
  {
    if e.action == ACTION_DOWN then
      Tracker(e.rawX, e.rawY, t.currentX, t.currentY, e.rawX, e.rawY)
    else
      Tracker(e.rawX, e.rawY, t.currentX, t.currentY, t.downX, t.downY)
  }

  /** Processing a stream of events in order. */
  function Run(t: Tracker, events: seq<MotionEvent>): Tracker
    decreases |events|
  {
    if events == [] then t else Run(Step(t, events[0]), events[1..])
  }

  /** The sum of the step deltas reported after each event of a stream. */
  function SumDeltaX(t: Tracker, events: seq<MotionEvent>): real
    decreases |events|
  {
    if events == [] then 0.0 else Step(t, events[0]).DeltaX() + SumDeltaX(Step(t, events[0]), events[1..])
  }

  function SumDeltaY(t: Tracker, events: seq<MotionEvent>): real
    decreases |events|
  {
    if events == [] then 0.0 else Step(t, events[0]).DeltaY() + SumDeltaY(Step(t, events[0]), events[1..])
  }

  /** After a stream, the current position is that of the stream's last event. */
  lemma {:induction false} RunCurrentIsLastEvent(t: Tracker, events: seq<MotionEvent>)
    requires |events| > 0
    ensures Run(t, events).currentX == events[|events| - 1].rawX
    ensures Run(t, events).currentY == events[|events| - 1].rawY
    decreases |events|
  {
    if |events| > 1 {
      RunCurrentIsLastEvent(Step(t, events[0]), events[1..]);
    }
  }

  /** After a stream, the previous position is that of the next-to-last event,
      or the position current before the stream when it held one event. */
  lemma {:induction false} RunLastIsPreviousEvent(t: Tracker, events: seq<MotionEvent>)
    requires |events| > 0
    ensures |events| == 1 ==> Run(t, events).lastX == t.currentX && Run(t, events).lastY == t.currentY
    ensures |events| > 1 ==> Run(t, events).lastX == events[|events| - 2].rawX
    ensures |events| > 1 ==> Run(t, events).lastY == events[|events| - 2].rawY
    decreases |events|
  {
    if |events| > 1 {
      RunLastIsPreviousEvent(Step(t, events[0]), events[1..]);
      if |events| == 2 {
        assert Run(t, events) == Step(Step(t, events[0]), events[1]);
      }
    }
  }

  /** A stream without a press leaves the press position untouched. */
  lemma {:induction false} RunWithoutDownKeepsDown(t: Tracker, events: seq<MotionEvent>)
    requires forall j :: 0 <= j < |events| ==> events[j].action != ACTION_DOWN
    ensures Run(t, events).downX == t.downX && Run(t, events).downY == t.downY
    decreases |events|
  {
    if events != [] {
      assert events[0].action != ACTION_DOWN;
      RunWithoutDownKeepsDown(Step(t, events[0]), events[1..]);
    }
  }

  /** After a stream, the press position is that of the stream's latest press. */
  lemma {:induction false} RunDownIsLatestDown(t: Tracker, events: seq<MotionEvent>, k: nat)
    requires k < |events| && events[k].action == ACTION_DOWN
    requires forall j :: k < j < |events| ==> events[j].action != ACTION_DOWN
    ensures Run(t, events).downX == events[k].rawX && Run(t, events).downY == events[k].rawY
    decreases |events|
  {
    if k == 0 {
      RunWithoutDownKeepsDown(Step(t, events[0]), events[1..]);
    } else {
      RunDownIsLatestDown(Step(t, events[0]), events[1..], k - 1);
    }
  }

  /** The step deltas of a stream add up to its net displacement. */
  lemma {:induction false} SumOfDeltasIsDisplacement(t: Tracker, events: seq<MotionEvent>)
    ensures SumDeltaX(t, events) == Run(t, events).currentX - t.currentX
    ensures SumDeltaY(t, events) == Run(t, events).currentY - t.currentY
    decreases |events|
  {
    if events != [] {
      SumOfDeltasIsDisplacement(Step(t, events[0]), events[1..]);
    }
  }

  /** For a gesture that starts with a press and has no other press, the
      movement since the press is the sum of the deltas reported after it. */
  lemma DeltaFromDownIsSumOfDeltas(t: Tracker, events: seq<MotionEvent>)
    requires |events| > 0 && events[0].action == ACTION_DOWN
    requires forall j :: 0 < j < |events| ==> events[j].action != ACTION_DOWN
    ensures Run(t, events).DeltaXFromDown() == SumDeltaX(Step(t, events[0]), events[1..])
    ensures Run(t, events).DeltaYFromDown() == SumDeltaY(Step(t, events[0]), events[1..])
  {
    RunDownIsLatestDown(t, events, 0);
    SumOfDeltasIsDisplacement(Step(t, events[0]), events[1..]);
  }

  /** Two consecutive events at the same position report no movement and no angle. */
  lemma StationaryEventsReportNothing(t: Tracker, e1: MotionEvent, e2: MotionEvent, atanDegrees: real -> real)
    requires e1.rawX == e2.rawX && e1.rawY == e2.rawY
    ensures Step(Step(t, e1), e2).DeltaX() == 0.0 && Step(Step(t, e1), e2).DeltaY() == 0.0
    ensures Step(Step(t, e1), e2).DegreeX(atanDegrees) == 0.0
    ensures Step(Step(t, e1), e2).DegreeY(atanDegrees) == 0.0
  {
  }

  /** Whether `e` ends a click: a release that comes soon enough after the
      press and whose truncated movement since the press is below the touch
      slop. The comparison is on the signed movement, as the source has it. */
  function IsClick(t: Tracker, e: MotionEvent, config: ViewConfig): (click: bool)
    ensures click ==> e.action == ACTION_UP
    ensures click ==> e.eventTime - e.downTime < config.pressedStateDuration + config.tapTimeout
    ensures click ==> t.DeltaXFromDown() < config.touchSlop as real && t.DeltaYFromDown() < config.touchSlop as real
  {
    if e.action == ACTION_UP then
      var clickTimeout := config.pressedStateDuration + config.tapTimeout;
      var duration := e.eventTime - e.downTime;
      var dx := TruncToInt(t.DeltaXFromDown());
      var dy := TruncToInt(t.DeltaYFromDown());
      duration < clickTimeout && dx < config.touchSlop && dy < config.touchSlop
    else
      false
  }

  /** For a positive slop the truncation changes nothing: a release is a
      click exactly when it is quick and the movement since the press stays
      below the slop on each axis. */
  lemma IsClickIff(t: Tracker, e: MotionEvent, config: ViewConfig)
    requires 0 < config.touchSlop
    ensures IsClick(t, e, config) <==>
      e.action == ACTION_UP
      && e.eventTime - e.downTime < config.pressedStateDuration + config.tapTimeout
      && t.DeltaXFromDown() < config.touchSlop as real
      && t.DeltaYFromDown() < config.touchSlop as real
  {
    BelowSlopAfterTruncation(t.DeltaXFromDown(), config.touchSlop);
    BelowSlopAfterTruncation(t.DeltaYFromDown(), config.touchSlop);
  }

  lemma BelowSlopAfterTruncation(d: real, slop: int)
    requires 0 < slop
    ensures TruncToInt(d) < slop <==> d < slop as real
  {
  }

  /** The signed comparison accepts any movement to the left or upward,
      however long, as a click. */
  lemma LongLeftwardDragIsClick(t: Tracker, e: MotionEvent, config: ViewConfig)
    requires e.action == ACTION_UP
    requires e.eventTime - e.downTime < config.pressedStateDuration + config.tapTimeout
    requires 0 < config.touchSlop
    requires t.DeltaXFromDown() <= -(config.touchSlop as real)
    requires t.DeltaYFromDown() == 0.0
    ensures IsClick(t, e, config) && config.touchSlop as real <= Abs(t.DeltaXFromDown())
  {
    IsClickIff(t, e, config);
  }

  /** Click detection with the slop applied to the distance moved on each
      axis, whichever the direction. */
  function IsClickWithinSlop(t: Tracker, e: MotionEvent, config: ViewConfig): (click: bool)
    ensures click ==> e.action == ACTION_UP
    ensures click ==> e.eventTime - e.downTime < config.pressedStateDuration + config.tapTimeout
    ensures click ==> Abs(t.DeltaXFromDown()) < config.touchSlop as real && Abs(t.DeltaYFromDown()) < config.touchSlop as real
    ensures e.action == ACTION_UP
            && e.eventTime - e.downTime < config.pressedStateDuration + config.tapTimeout
            && Abs(t.DeltaXFromDown()) < config.touchSlop as real
            && Abs(t.DeltaYFromDown()) < config.touchSlop as real
            ==> click
  {
    if e.action == ACTION_UP then
      var clickTimeout := config.pressedStateDuration + config.tapTimeout;
      var duration := e.eventTime - e.downTime;
      var dx := TruncToInt(t.DeltaXFromDown());
      var dy := TruncToInt(t.DeltaYFromDown());
      duration < clickTimeout && IntAbs(dx) < config.touchSlop && IntAbs(dy) < config.touchSlop
    else
      false
  }

  function IntAbs(i: int): (a: nat)
    ensures a == i || a == -i
  {
    if i < 0 then -i else i
  }

  /** The corrected detection agrees with the source on movements to the
      right and downward and only rejects the ones the source lets through. */
  lemma WithinSlopRefinesIsClick(t: Tracker, e: MotionEvent, config: ViewConfig)
    ensures IsClickWithinSlop(t, e, config) ==> IsClick(t, e, config)
    ensures 0.0 <= t.DeltaXFromDown() && 0.0 <= t.DeltaYFromDown() ==>
      (IsClickWithinSlop(t, e, config) <==> IsClick(t, e, config))
  {
  }

  /** The object the source keeps per gesture: six positions updated in
      place, and the debug flag. */
  class TouchHelper {
    var isDebug: bool
    var currentX: real
    var currentY: real
    var lastX: real
    var lastY: real
    var downX: real
    var downY: real

    /** The recorded positions as a value; the delta and angle getters are
        the members of `Tracker` applied to it. */
    function State(): Tracker
      reads this
    {
      Tracker(currentX, currentY, lastX, lastY, downX, downY)
    }

    constructor ()
      ensures State() == Initial && !isDebug
      ensures State().DeltaX() == 0.0 && State().DeltaY() == 0.0
      ensures State().DeltaXFromDown() == 0.0 && State().DeltaYFromDown() == 0.0
    {
      isDebug := false;
      currentX, currentY := 0.0, 0.0;
      lastX, lastY := 0.0, 0.0;
      downX, downY := 0.0, 0.0;
    }

    method SetDebug(debug: bool)
      modifies this
      ensures isDebug == debug && State() == old(State())
    {
      isDebug := debug;
    }

    /** Shifts the current position into the previous one, records the
        event's position, and on a press records it as the press position. */
    method ProcessTouchEvent(e: MotionEvent)
      modifies this
      ensures lastX == old(currentX) && lastY == old(currentY)
      ensures currentX == e.rawX && currentY == e.rawY
      ensures e.action == ACTION_DOWN ==> downX == e.rawX && downY == e.rawY
      ensures e.action != ACTION_DOWN ==> downX == old(downX) && downY == old(downY)
      ensures isDebug == old(isDebug)
      ensures State() == Step(old(State()), e)
    {
      lastX := currentX;
      lastY := currentY;

      currentX := e.rawX;
      currentY := e.rawY;

      var action := e.action;
      if action == ACTION_DOWN {
        downX := currentX;
        downY := currentY;
      }
    }
  }
}
