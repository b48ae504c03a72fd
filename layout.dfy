/** The helper's static utilities: clamping a scroll or drag increment,
    hit-testing views, and the offsets that align a child with an edge of
    its parent. Views are plain records of their frame, padding and margins. */
module Layout {

  datatype Option<T> = None | Some(value: T)

  /** The margins of a child whose layout parameters carry them. */
  datatype Margins = Margins(left: int, top: int, right: int, bottom: int)

  /** A view's frame in its parent's coordinates, its padding, and its margin
      layout parameters when its layout parameters are of that kind. */
  datatype View = View(left: int, top: int, right: int, bottom: int,
                       paddingLeft: int, paddingTop: int, paddingRight: int, paddingBottom: int,
                       marginParams: Option<Margins>)
  {
    function Width(): int { right - left }
    function Height(): int { bottom - top }
  }

  /** A container view and its children, in child-index (drawing) order. */
  datatype ViewGroup = ViewGroup(view: View, children: seq<View>)

  /** A view's position on the screen, as the platform reports it. */
  datatype Location = Location(x: int, y: int)

  // ---------- Increment clamping ----------

  /** The increment that keeps `current + delta` inside [min, max]; a zero
      increment stays zero wherever `current` is. */
  function ClampedDelta(current: int, min: int, max: int, delta: int): int
  {
    if delta == 0 then 0
    else if current + delta < min then min - current
    else if current + delta > max then max - current
    else delta
  }

  /** The source's computation, which adjusts the increment in place. */
  method LegalDelta(current: int, min: int, max: int, delta: int) returns (legal: int)
    ensures legal == ClampedDelta(current, min, max, delta)
    ensures delta == 0 ==> legal == 0
    ensures delta != 0 && min <= max ==> min <= current + legal <= max
    ensures min <= current + delta <= max ==> legal == delta
  {
    legal := delta;
    if legal == 0 {
      return 0;
    }
    var future := current + legal;
    if future < min {
      legal := legal + (min - future);
    } else if future > max {
      legal := legal + (max - future);
    }
  }

  /** Of all increments that land inside a non-empty [min, max], the
      clamped one is the closest to the increment asked for. */
  lemma ClampedDeltaIsClosest(current: int, min: int, max: int, delta: int, other: int)
    requires delta != 0 && min <= max
    requires min <= current + other <= max
    ensures var r := ClampedDelta(current, min, max, delta);
      min <= current + r <= max && Dist(r, delta) <= Dist(other, delta)
  {
  }

  function Dist(a: int, b: int): nat { if a < b then b - a else a - b }

  /** Clamping an increment that was already clamped changes nothing. */
  lemma ClampedDeltaIdempotent(current: int, min: int, max: int, delta: int)
    requires min <= max
    ensures ClampedDelta(current, min, max, ClampedDelta(current, min, max, delta)) == ClampedDelta(current, min, max, delta)
  {
  }

  /** From above max, a positive increment becomes the negative one that
      returns to max: the clamp may reverse the increment's direction. */
  lemma ClampedDeltaFromAboveMax(current: int, min: int, max: int, delta: int)
    requires min <= max && max < current && delta > 0
    ensures ClampedDelta(current, min, max, delta) == max - current < 0
  {
  }

  // ---------- Hit tests ----------

  /** Whether the point (x, y), in the parent's coordinates, lies in the
      view's frame; the right and bottom edges are outside. */
  function IsViewUnder(v: View, x: int, y: int): (under: bool)
    ensures under ==> 0 < v.Width() && 0 < v.Height()
  {
    x >= v.left && x < v.right && y >= v.top && y < v.bottom
  }

  /** The same test against the view's frame placed at its screen location. */
  function IsViewUnderScreen(v: View, location: Location, x: int, y: int): (under: bool)
    ensures under ==> 0 < v.Width() && 0 < v.Height()
  {
    x >= location.x && x < location.x + v.Width() && y >= location.y && y < location.y + v.Height()
  }

  /** The screen test is the parent-coordinate test after translating the
      point by the offset between the two coordinate systems. */
  lemma ScreenTestIsTranslatedTest(v: View, location: Location, x: int, y: int)
    ensures IsViewUnderScreen(v, location, x, y)
      <==> IsViewUnder(v, x - location.x + v.left, y - location.y + v.top)
  {
  }

  /** The frame is half-open: its top-left corner is inside a non-empty
      view, and no point on its right or bottom edge is. */
  lemma FrameIsHalfOpen(v: View, x: int, y: int)
    ensures IsViewUnder(v, v.left, v.top) <==> 0 < v.Width() && 0 < v.Height()
    ensures !IsViewUnder(v, v.right, y) && !IsViewUnder(v, x, v.bottom)
  {
  }

  /** The indices of the children at or after `from` whose frame holds the
      point, highest index first. */
  function HitIndices(children: seq<View>, x: int, y: int, from: nat): (hits: seq<nat>)
    requires from <= |children|
    ensures forall k :: 0 <= k < |hits| ==> from <= hits[k] < |children|
    decreases |children| - from
  {
    if from == |children| then []
    else HitIndices(children, x, y, from + 1) + (if IsViewUnder(children[from], x, y) then [from] else [])
  }

  /** The hit indices are exactly the children that hold the point, each
      once, in strictly descending order. */
  lemma {:induction false} HitIndicesExact(children: seq<View>, x: int, y: int, from: nat)
    requires from <= |children|
    ensures forall i :: (i in HitIndices(children, x, y, from)
                         <==> from <= i < |children| && IsViewUnder(children[i], x, y))
    ensures forall a, b :: 0 <= a < b < |HitIndices(children, x, y, from)| ==>
                             HitIndices(children, x, y, from)[a] > HitIndices(children, x, y, from)[b]
    decreases |children| - from
  {
    if from < |children| {
      HitIndicesExact(children, x, y, from + 1);
    }
  }

  /** Scans the children from the last (topmost) to the first and collects
      every one whose frame holds the point. */
  method FindChildrenUnder(parent: ViewGroup, x: int, y: int) returns (list: seq<View>)
    ensures var hits := HitIndices(parent.children, x, y, 0);
      |list| == |hits| && forall k :: 0 <= k < |list| ==> list[k] == parent.children[hits[k]]
    ensures forall k :: 0 <= k < |list| ==> IsViewUnder(list[k], x, y)
    ensures forall i :: 0 <= i < |parent.children| && IsViewUnder(parent.children[i], x, y) ==> parent.children[i] in list
  {
    var children := parent.children;
    list := [];
    var i := |children| - 1;
    while i >= 0
      invariant -1 <= i < |children|
      invariant |list| == |HitIndices(children, x, y, i + 1)|
      invariant forall k :: 0 <= k < |list| ==> list[k] == children[HitIndices(children, x, y, i + 1)[k]]
    {
      var child := children[i];
      if IsViewUnder(child, x, y) {
        list := list + [child];
      }
      i := i - 1;
    }
    HitIndicesExact(children, x, y, 0);
    forall j | 0 <= j < |children| && IsViewUnder(children[j], x, y)
      ensures children[j] in list
    {
      var hits := HitIndices(children, x, y, 0);
      assert j in hits;
      var k :| 0 <= k < |hits| && hits[k] == j;
      assert list[k] == children[j];
    }
  }

  // ---------- Alignment ----------

  /** The child's margins that an alignment takes into account: none unless
      asked for and the child's layout parameters carry margins. */
  function MarginsUsed(child: View, margin: bool): (m: Margins)
    ensures !margin || child.marginParams.None? ==> m == Margins(0, 0, 0, 0)
    ensures margin && child.marginParams.Some? ==> m == child.marginParams.value
  {
    if margin && child.marginParams.Some? then child.marginParams.value else Margins(0, 0, 0, 0)
  }

  /** The child's left when it sits against the parent's left padding, its
      left margin between them. */
  function LeftAlignParentLeft(parent: ViewGroup, child: View, margin: bool): (left: int)
    ensures left - MarginsUsed(child, margin).left == parent.view.paddingLeft
  {
    var align := parent.view.paddingLeft;
    if margin && child.marginParams.Some? then align + child.marginParams.value.left else align
  }

  /** The child's left when its right edge, plus its right margin, sits
      against the parent's right padding. */
  function LeftAlignParentRight(parent: ViewGroup, child: View, margin: bool): (left: int)
    ensures left + child.Width() + MarginsUsed(child, margin).right == parent.view.Width() - parent.view.paddingRight
  {
    var align := parent.view.Width() - parent.view.paddingRight - child.Width();
    if margin && child.marginParams.Some? then align - child.marginParams.value.right else align
  }

  /** The child's top when it sits below the parent's top padding, its top
      margin between them. */
  function TopAlignParentTop(parent: ViewGroup, child: View, margin: bool): (top: int)
    ensures top - MarginsUsed(child, margin).top == parent.view.paddingTop
  {
    var align := parent.view.paddingTop;
    if margin && child.marginParams.Some? then align + child.marginParams.value.top else align
  }

  /** The child's top for bottom alignment, as the source computes it: the
      parent's TOP padding is subtracted from the parent's height, so the
      child's bottom edge, plus its bottom margin, lands `paddingTop` above
      the parent's bottom. */
  function TopAlignParentBottom(parent: ViewGroup, child: View, margin: bool): (top: int)
    ensures top + child.Height() + MarginsUsed(child, margin).bottom == parent.view.Height() - parent.view.paddingTop
  {
    var align := parent.view.Height() - parent.view.paddingTop - child.Height();
    if margin && child.marginParams.Some? then align - child.marginParams.value.bottom else align
  }

  /** Whenever the parent's top and bottom paddings differ, the source's
      bottom alignment misses the parent's inner bottom edge. */
  lemma BottomAlignMissesBottomPadding(parent: ViewGroup, child: View, margin: bool)
    requires parent.view.paddingTop != parent.view.paddingBottom
    ensures TopAlignParentBottom(parent, child, margin) + child.Height() + MarginsUsed(child, margin).bottom
      != parent.view.Height() - parent.view.paddingBottom
  {
  }

  /** Bottom alignment against the parent's bottom padding. */
  function TopAlignParentBottomPadded(parent: ViewGroup, child: View, margin: bool): (top: int)
    ensures top + child.Height() + MarginsUsed(child, margin).bottom == parent.view.Height() - parent.view.paddingBottom
  {
    var align := parent.view.Height() - parent.view.paddingBottom - child.Height();
    if margin && child.marginParams.Some? then align - child.marginParams.value.bottom else align
  }

  /** Left alignment puts the child no further right than right alignment
      exactly when the child and its margins fit in the parent's width
      inside its padding; likewise vertically for the corrected bottom. */
  lemma AlignmentsOrderedIffChildFits(parent: ViewGroup, child: View, margin: bool)
    ensures var m := MarginsUsed(child, margin);
      LeftAlignParentLeft(parent, child, margin) <= LeftAlignParentRight(parent, child, margin)
      <==> m.left + child.Width() + m.right <= parent.view.Width() - parent.view.paddingLeft - parent.view.paddingRight
    ensures var m := MarginsUsed(child, margin);
      TopAlignParentTop(parent, child, margin) <= TopAlignParentBottomPadded(parent, child, margin)
      <==> m.top + child.Height() + m.bottom <= parent.view.Height() - parent.view.paddingTop - parent.view.paddingBottom
  {
  }
}
