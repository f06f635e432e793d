/** The docking layout shared by both DockPanel copies, stated on values.

    Each child is given by the desired size it reports after being measured
    and the value of its `Dock` attached property (None is a null child).
    The measure pass is a fold (`MeasureRun`) characterised by the space
    the docked children consume (`ConsumedWidth`, `ConsumedHeight`) and by
    the least size that covers them (`CoversWidth`, `CoversHeight`). The
    arrange pass is a fold (`ArrangeRun`) characterised in closed form:
    each child's rectangle depends only on the sums of the extents of the
    children docked to each side before it (`OffsetsBefore`, `ChildRect`). */
module DockLayout {
  import opened Host

  datatype Dock = Left | Top | Right | Bottom

  /** A child as the panel sees it: its desired size and its dock side. */
  datatype DockChild = DockChild(desired: Size, dock: Dock)

  /** Left and Right children consume width; Top and Bottom children consume height. */
  predicate ConsumesWidth(d: Dock) {
    d == Left || d == Right
  }

  /** An element's `Dock` attached property, defaulting to Left. */
  class UIElement {
    var dock: Dock

    constructor()
      ensures dock == Left
    {
      dock := Left;
    }
  }

  // ---------------------------------------------------------------------------
  // Measure pass

  /** The running sizes of the measure loop: the size the children so far
      require of the parent, and the width and height they consume. */
  datatype DockMeasure = DockMeasure(parentWidth: real, parentHeight: real, accumulatedWidth: real, accumulatedHeight: real)

  /** One iteration of the measure loop on a non-null child: a child docked
      left or right raises the required height and consumes width; one
      docked top or bottom raises the required width and consumes height. */
  function MeasureStep(m: DockMeasure, c: DockChild): DockMeasure {
    if ConsumesWidth(c.dock) then
      m.(parentHeight := Max(m.parentHeight, m.accumulatedHeight + c.desired.height),
         accumulatedWidth := m.accumulatedWidth + c.desired.width)
    else
      m.(parentWidth := Max(m.parentWidth, m.accumulatedWidth + c.desired.width),
         accumulatedHeight := m.accumulatedHeight + c.desired.height)
  }

  /** The measure loop over the first `n` children. */
  function MeasureRun(children: seq<Option<DockChild>>, n: nat): DockMeasure
    requires n <= |children|
    decreases n
  {
    if n == 0 then DockMeasure(0.0, 0.0, 0.0, 0.0)
    else
      var m := MeasureRun(children, n - 1);
      match children[n - 1]
      case None => m
      case Some(c) => MeasureStep(m, c)
  }

  /** The constraint a child is measured against: what the children before it left over. */
  function ChildConstraint(available: AvailableSize, m: DockMeasure): AvailableSize {
    AvailableSize(Remaining(available.width, m.accumulatedWidth), Remaining(available.height, m.accumulatedHeight))
  }

  /** The `Measure` calls of the first `n` children. */
  function MeasureCalls(children: seq<Option<DockChild>>, available: AvailableSize, n: nat): seq<MeasureCall>
    requires n <= |children|
    decreases n
  {
    if n == 0 then []
    else
      MeasureCalls(children, available, n - 1) +
        if children[n - 1].Some? then [MeasureCall(n - 1, ChildConstraint(available, MeasureRun(children, n - 1)))] else []
  }

  /** The size the measure pass reports: the required size, grown to what the children consume. */
  function Measured(children: seq<Option<DockChild>>): Size {
    var m := MeasureRun(children, |children|);
    Size(Max(m.parentWidth, m.accumulatedWidth), Max(m.parentHeight, m.accumulatedHeight))
  }

  /** The total width of the non-null children before `n` docked left or right. */
  function ConsumedWidth(children: seq<Option<DockChild>>, n: nat): real
    requires n <= |children|
    decreases n
  {
    if n == 0 then 0.0
    else
      ConsumedWidth(children, n - 1) +
        match children[n - 1]
        case Some(c) => if ConsumesWidth(c.dock) then c.desired.width else 0.0
        case None => 0.0
  }

  /** The total height of the non-null children before `n` docked top or bottom. */
  function ConsumedHeight(children: seq<Option<DockChild>>, n: nat): real
    requires n <= |children|
    decreases n
  {
    if n == 0 then 0.0
    else
      ConsumedHeight(children, n - 1) +
        match children[n - 1]
        case Some(c) => if ConsumesWidth(c.dock) then 0.0 else c.desired.height
        case None => 0.0
  }

  /** The measure loop's accumulated width and height are what the docked children consume. */
  lemma {:induction false} MeasureConsumes(children: seq<Option<DockChild>>, n: nat)
    requires n <= |children|
    ensures MeasureRun(children, n).accumulatedWidth == ConsumedWidth(children, n)
    ensures MeasureRun(children, n).accumulatedHeight == ConsumedHeight(children, n)
    decreases n
  {
    if n > 0 {
      MeasureConsumes(children, n - 1);
    }
  }

  /** The `j`-th `Measure` call goes to the `j`-th non-null child, constrained
      to the available size less what the children before it consume, and
      never below zero. */
  lemma {:induction false} MeasureCallsRemaining(children: seq<Option<DockChild>>, available: AvailableSize, n: nat)
    requires n <= |children|
    ensures var calls := MeasureCalls(children, available, n);
      var idx := NonNullIn(children, 0, n);
      && |calls| == |idx|
      && forall j :: 0 <= j < |calls| ==>
        && calls[j].index == idx[j]
        && calls[j].constraint == AvailableSize(Remaining(available.width, ConsumedWidth(children, idx[j])),
                                                Remaining(available.height, ConsumedHeight(children, idx[j])))
    decreases n
  {
    if n > 0 {
      MeasureCallsRemaining(children, available, n - 1);
      MeasureConsumes(children, n - 1);
    }
  }

  /** `x` is at least as wide as each top or bottom child before `n` beside
      the width consumed before it. */
  ghost predicate WidthNeedsBelow(children: seq<Option<DockChild>>, n: nat, x: real)
    requires n <= |children|
  {
    forall k :: 0 <= k < n && children[k].Some? && !ConsumesWidth(children[k].value.dock) ==>
      x >= ConsumedWidth(children, k) + children[k].value.desired.width
  }

  /** `y` is at least as tall as each left or right child before `n` below
      the height consumed before it. */
  ghost predicate HeightNeedsBelow(children: seq<Option<DockChild>>, n: nat, y: real)
    requires n <= |children|
  {
    forall k :: 0 <= k < n && children[k].Some? && ConsumesWidth(children[k].value.dock) ==>
      y >= ConsumedHeight(children, k) + children[k].value.desired.height
  }

  /** `x` is wide enough for the children: for what the left and right
      children consume, and for each top or bottom child beside the width
      consumed before it. */
  ghost predicate CoversWidth(children: seq<Option<DockChild>>, x: real) {
    x >= 0.0 && x >= ConsumedWidth(children, |children|) && WidthNeedsBelow(children, |children|, x)
  }

  /** `y` is tall enough for the children: for what the top and bottom
      children consume, and for each left or right child below the height
      consumed before it. */
  ghost predicate CoversHeight(children: seq<Option<DockChild>>, y: real) {
    y >= 0.0 && y >= ConsumedHeight(children, |children|) && HeightNeedsBelow(children, |children|, y)
  }

  lemma {:induction false} ParentWidthCovers(children: seq<Option<DockChild>>, n: nat)
    requires n <= |children|
    ensures MeasureRun(children, n).parentWidth >= 0.0
    ensures WidthNeedsBelow(children, n, MeasureRun(children, n).parentWidth)
    decreases n
  {
    if n > 0 {
      ParentWidthCovers(children, n - 1);
      MeasureConsumes(children, n - 1);
    }
  }

  lemma {:induction false} ParentWidthLeast(children: seq<Option<DockChild>>, n: nat, x: real)
    requires n <= |children| && x >= 0.0 && WidthNeedsBelow(children, n, x)
    ensures MeasureRun(children, n).parentWidth <= x
    decreases n
  {
    if n > 0 {
      ParentWidthLeast(children, n - 1, x);
      MeasureConsumes(children, n - 1);
    }
  }

  lemma {:induction false} ParentHeightCovers(children: seq<Option<DockChild>>, n: nat)
    requires n <= |children|
    ensures MeasureRun(children, n).parentHeight >= 0.0
    ensures HeightNeedsBelow(children, n, MeasureRun(children, n).parentHeight)
    decreases n
  {
    if n > 0 {
      ParentHeightCovers(children, n - 1);
      MeasureConsumes(children, n - 1);
    }
  }

  lemma {:induction false} ParentHeightLeast(children: seq<Option<DockChild>>, n: nat, y: real)
    requires n <= |children| && y >= 0.0 && HeightNeedsBelow(children, n, y)
    ensures MeasureRun(children, n).parentHeight <= y
    decreases n
  {
    if n > 0 {
      ParentHeightLeast(children, n - 1, y);
      MeasureConsumes(children, n - 1);
    }
  }

  /** The measured width is the least width that covers the children. */
  lemma MeasuredWidthIsLeast(children: seq<Option<DockChild>>)
    ensures CoversWidth(children, Measured(children).width)
    ensures forall x :: CoversWidth(children, x) ==> Measured(children).width <= x
  {
    ParentWidthCovers(children, |children|);
    MeasureConsumes(children, |children|);
    forall x | CoversWidth(children, x) ensures Measured(children).width <= x {
      ParentWidthLeast(children, |children|, x);
    }
  }

  /** The measured height is the least height that covers the children. */
  lemma MeasuredHeightIsLeast(children: seq<Option<DockChild>>)
    ensures CoversHeight(children, Measured(children).height)
    ensures forall y :: CoversHeight(children, y) ==> Measured(children).height <= y
  {
    ParentHeightCovers(children, |children|);
    MeasureConsumes(children, |children|);
    forall y | CoversHeight(children, y) ensures Measured(children).height <= y {
      ParentHeightLeast(children, |children|, y);
    }
  }

  // ---------------------------------------------------------------------------
  // Arrange pass

  /** The space taken from each side of the final rectangle by the docked children so far. */
  datatype Offsets = Offsets(left: real, top: real, right: real, bottom: real)

  /** The rectangle the children so far leave over; never of negative extent. */
  function FillRect(finalSize: Size, acc: Offsets): (r: Rect)
    ensures r.x == acc.left && r.y == acc.top
    ensures r.width >= 0.0 && r.width >= finalSize.width - (acc.left + acc.right)
    ensures r.height >= 0.0 && r.height >= finalSize.height - (acc.top + acc.bottom)
  {
    Rect(acc.left, acc.top, Max(0.0, finalSize.width - (acc.left + acc.right)), Max(0.0, finalSize.height - (acc.top + acc.bottom)))
  }

  /** The space taken once the child `c` is docked. */
  function Advance(acc: Offsets, c: DockChild): Offsets {
    match c.dock
    case Left => acc.(left := acc.left + c.desired.width)
    case Right => acc.(right := acc.right + c.desired.width)
    case Top => acc.(top := acc.top + c.desired.height)
    case Bottom => acc.(bottom := acc.bottom + c.desired.height)
  }

  /** A docked child's rectangle: the leftover rectangle, cut to the child's
      desired width (left, right) or height (top, bottom) on its side. */
  function DockedRect(finalSize: Size, acc: Offsets, c: DockChild): Rect {
    var rc := FillRect(finalSize, acc);
    var next := Advance(acc, c);
    match c.dock
    case Left => rc.(width := c.desired.width)
    case Right => rc.(x := Max(0.0, finalSize.width - next.right), width := c.desired.width)
    case Top => rc.(height := c.desired.height)
    case Bottom => rc.(y := Max(0.0, finalSize.height - next.bottom), height := c.desired.height)
  }

  /** Where a docked child's rectangle lies in the leftover space: along
      its side it takes its desired extent, across it the whole leftover
      extent. Left and top children start at the corner of the leftover
      space; right and bottom children end where it ends, or are pinned to
      the panel's edge when there is no room. */
  lemma DockedRectSides(finalSize: Size, acc: Offsets, c: DockChild)
    ensures var r, rc := DockedRect(finalSize, acc, c), FillRect(finalSize, acc);
      && (ConsumesWidth(c.dock) ==> r.width == c.desired.width && r.y == acc.top && r.height == rc.height)
      && (!ConsumesWidth(c.dock) ==> r.height == c.desired.height && r.x == acc.left && r.width == rc.width)
      && (c.dock == Left || c.dock == Top ==> r.x == acc.left && r.y == acc.top)
      && (c.dock == Right && finalSize.width >= acc.right + c.desired.width ==> r.x + r.width == finalSize.width - acc.right)
      && (c.dock == Right && finalSize.width < acc.right + c.desired.width ==> r.x == 0.0)
      && (c.dock == Bottom && finalSize.height >= acc.bottom + c.desired.height ==> r.y + r.height == finalSize.height - acc.bottom)
      && (c.dock == Bottom && finalSize.height < acc.bottom + c.desired.height ==> r.y == 0.0)
  {
  }

  /** How many leading children are docked: all, or all but the last when it fills. */
  function NonFillCount(count: nat, lastChildFill: bool): int {
    count - (if lastChildFill then 1 else 0)
  }

  /** The running state of the arrange loop: the space taken and the `Arrange` calls made. */
  datatype DockArrange = DockArrange(acc: Offsets, placements: seq<Placement>)

  /** The arrange loop over the first `n` children: a child before
      `nonFill` is docked, any other gets the leftover rectangle. */
  function ArrangeRun(children: seq<Option<DockChild>>, finalSize: Size, nonFill: int, n: nat): DockArrange
    requires n <= |children|
    decreases n
  {
    if n == 0 then DockArrange(Offsets(0.0, 0.0, 0.0, 0.0), [])
    else
      var st := ArrangeRun(children, finalSize, nonFill, n - 1);
      match children[n - 1]
      case None => st
      case Some(c) =>
        if n - 1 < nonFill then
          DockArrange(Advance(st.acc, c), st.placements + [Placement(n - 1, DockedRect(finalSize, st.acc, c))])
        else
          DockArrange(st.acc, st.placements + [Placement(n - 1, FillRect(finalSize, st.acc))])
  }

  /** The total extent of the non-null children before `n` (and before
      `nonFill`) docked to `side`: widths for left and right, heights for
      top and bottom. */
  function SideSum(children: seq<Option<DockChild>>, nonFill: int, side: Dock, n: nat): real
    requires n <= |children|
    decreases n
  {
    if n == 0 then 0.0
    else
      SideSum(children, nonFill, side, n - 1) +
        match children[n - 1]
        case Some(c) =>
          if n - 1 < nonFill && c.dock == side then (if ConsumesWidth(side) then c.desired.width else c.desired.height)
          else 0.0
        case None => 0.0
  }

  /** The space taken from each side by the docked children before `k`. */
  function OffsetsBefore(children: seq<Option<DockChild>>, nonFill: int, k: nat): Offsets
    requires k <= |children|
  {
    Offsets(SideSum(children, nonFill, Left, k), SideSum(children, nonFill, Top, k),
            SideSum(children, nonFill, Right, k), SideSum(children, nonFill, Bottom, k))
  }

  /** The rectangle of the non-null child `k`, in closed form. */
  function ChildRect(children: seq<Option<DockChild>>, finalSize: Size, nonFill: int, k: nat): Rect
    requires k < |children| && children[k].Some?
  {
    if k < nonFill then DockedRect(finalSize, OffsetsBefore(children, nonFill, k), children[k].value)
    else FillRect(finalSize, OffsetsBefore(children, nonFill, k))
  }

  /** The arrange loop takes from each side exactly the extents of the
      children docked there, and calls `Arrange` once per non-null child,
      in order, with the closed-form rectangle of that child. */
  lemma {:induction false} ArrangeRunClosedForm(children: seq<Option<DockChild>>, finalSize: Size, nonFill: int, n: nat)
    requires n <= |children|
    ensures ArrangeRun(children, finalSize, nonFill, n).acc == OffsetsBefore(children, nonFill, n)
    ensures var ps := ArrangeRun(children, finalSize, nonFill, n).placements;
      && Indices(ps) == NonNullIn(children, 0, n)
      && forall j :: 0 <= j < |ps| ==>
        && ps[j].index < n
        && children[ps[j].index].Some?
        && ps[j].rect == ChildRect(children, finalSize, nonFill, ps[j].index)
    decreases n
  {
    if n > 0 {
      ArrangeRunClosedForm(children, finalSize, nonFill, n - 1);
      var st := ArrangeRun(children, finalSize, nonFill, n - 1);
      if children[n - 1].Some? {
        var x := Placement(n - 1, ChildRect(children, finalSize, nonFill, n - 1));
        IndicesConcat(st.placements, [x]);
      }
    }
  }

  /** The `Arrange` calls of a whole pass. */
  function Arranged(children: seq<Option<DockChild>>, finalSize: Size, lastChildFill: bool): seq<Placement> {
    ArrangeRun(children, finalSize, NonFillCount(|children|, lastChildFill), |children|).placements
  }

  /** With `LastChildFill`, a non-null last child gets all the space the
      others leave over. */
  lemma LastChildFills(children: seq<Option<DockChild>>, finalSize: Size)
    requires |children| > 0 && children[|children| - 1].Some?
    ensures var ps := Arranged(children, finalSize, true);
      var last := |children| - 1;
      |ps| > 0 && ps[|ps| - 1] == Placement(last, FillRect(finalSize, OffsetsBefore(children, last, last)))
  {
    var n := |children|;
    ArrangeRunClosedForm(children, finalSize, n - 1, n - 1);
  }

  /** Without `LastChildFill`, every non-null child is docked, the last one included. */
  lemma NoFillDocksAll(children: seq<Option<DockChild>>, finalSize: Size)
    ensures forall p :: p in Arranged(children, finalSize, false) ==>
      p.index < |children| && children[p.index].Some? &&
      p.rect == DockedRect(finalSize, OffsetsBefore(children, |children|, p.index), children[p.index].value)
  {
    ArrangeRunClosedForm(children, finalSize, |children|, |children|);
  }

  /** Every non-null child is arranged exactly once, in index order. */
  lemma ArrangedOnceInOrder(children: seq<Option<DockChild>>, finalSize: Size, lastChildFill: bool)
    ensures Indices(Arranged(children, finalSize, lastChildFill)) == NonNullIndices(children)
  {
    ArrangeRunClosedForm(children, finalSize, NonFillCount(|children|, lastChildFill), |children|);
  }

  /** Desired sizes are never negative. */
  predicate NonNegativeSizes(children: seq<Option<DockChild>>) {
    forall k :: 0 <= k < |children| && children[k].Some? ==>
      children[k].value.desired.width >= 0.0 && children[k].value.desired.height >= 0.0
  }

  lemma {:induction false} SideSumNonNegative(children: seq<Option<DockChild>>, nonFill: int, side: Dock, n: nat)
    requires n <= |children| && NonNegativeSizes(children)
    ensures SideSum(children, nonFill, side, n) >= 0.0
    decreases n
  {
    if n > 0 {
      SideSumNonNegative(children, nonFill, side, n - 1);
    }
  }

  /** With non-negative desired sizes, every rectangle the pass arranges lies
      at non-negative coordinates and has non-negative extents. */
  lemma ArrangedRectsNonNegative(children: seq<Option<DockChild>>, finalSize: Size, lastChildFill: bool)
    requires NonNegativeSizes(children)
    ensures forall p :: p in Arranged(children, finalSize, lastChildFill) ==>
      p.rect.x >= 0.0 && p.rect.y >= 0.0 && p.rect.width >= 0.0 && p.rect.height >= 0.0
  {
    var nonFill := NonFillCount(|children|, lastChildFill);
    var n := |children|;
    ArrangeRunClosedForm(children, finalSize, nonFill, n);
    var ps := Arranged(children, finalSize, lastChildFill);
    forall p | p in ps
      ensures p.rect.x >= 0.0 && p.rect.y >= 0.0 && p.rect.width >= 0.0 && p.rect.height >= 0.0
    {
      var j :| 0 <= j < |ps| && ps[j] == p;
      ChildRectNonNegative(children, finalSize, nonFill, p.index);
    }
  }

  lemma ChildRectNonNegative(children: seq<Option<DockChild>>, finalSize: Size, nonFill: int, k: nat)
    requires k < |children| && children[k].Some? && NonNegativeSizes(children)
    ensures var r := ChildRect(children, finalSize, nonFill, k);
      r.x >= 0.0 && r.y >= 0.0 && r.width >= 0.0 && r.height >= 0.0
  {
    SideSumNonNegative(children, nonFill, Left, k);
    SideSumNonNegative(children, nonFill, Top, k);
  }

  /** `r` lies inside a rectangle of size `s` at the origin. */
  predicate Within(r: Rect, s: Size) {
    && r.x >= 0.0 && r.y >= 0.0 && r.width >= 0.0 && r.height >= 0.0
    && r.x + r.width <= s.width && r.y + r.height <= s.height
  }

  lemma {:induction false} ConsumedMonotone(children: seq<Option<DockChild>>, k: nat, n: nat)
    requires k <= n <= |children| && NonNegativeSizes(children)
    ensures ConsumedWidth(children, k) <= ConsumedWidth(children, n)
    ensures ConsumedHeight(children, k) <= ConsumedHeight(children, n)
    decreases n - k
  {
    if k < n {
      ConsumedMonotone(children, k, n - 1);
    }
  }

  /** The children docked left and right take no more width than the measure
      pass counts as consumed, and those docked top and bottom no more height. */
  lemma {:induction false} SideSumsWithinConsumed(children: seq<Option<DockChild>>, nonFill: int, n: nat)
    requires n <= |children| && NonNegativeSizes(children)
    ensures SideSum(children, nonFill, Left, n) + SideSum(children, nonFill, Right, n) <= ConsumedWidth(children, n)
    ensures SideSum(children, nonFill, Top, n) + SideSum(children, nonFill, Bottom, n) <= ConsumedHeight(children, n)
    decreases n
  {
    if n > 0 {
      SideSumsWithinConsumed(children, nonFill, n - 1);
    }
  }

  /** The rectangle of child `k` lies inside the final size when the final
      size covers what the measure pass reported. */
  lemma ChildRectWithin(children: seq<Option<DockChild>>, finalSize: Size, nonFill: int, k: nat)
    requires k < |children| && children[k].Some? && NonNegativeSizes(children)
    requires Measured(children).width <= finalSize.width && Measured(children).height <= finalSize.height
    ensures Within(ChildRect(children, finalSize, nonFill, k), finalSize)
  {
    var n := |children|;
    MeasureConsumes(children, n);
    SideSumsWithinConsumed(children, nonFill, k);
    SideSumsWithinConsumed(children, nonFill, k + 1);
    ConsumedMonotone(children, k, n);
    ConsumedMonotone(children, k + 1, n);
    SideSumNonNegative(children, nonFill, Left, k);
    SideSumNonNegative(children, nonFill, Top, k);
    SideSumNonNegative(children, nonFill, Right, k);
    SideSumNonNegative(children, nonFill, Bottom, k);
  }

  /** Measure and arrange agree: with non-negative desired sizes and a final
      size at least the measured size, every arranged rectangle lies inside
      the final size. */
  lemma ArrangedWithinFinal(children: seq<Option<DockChild>>, finalSize: Size, lastChildFill: bool)
    requires NonNegativeSizes(children)
    requires Measured(children).width <= finalSize.width && Measured(children).height <= finalSize.height
    ensures forall p :: p in Arranged(children, finalSize, lastChildFill) ==> Within(p.rect, finalSize)
  {
    var nonFill := NonFillCount(|children|, lastChildFill);
    ArrangeRunClosedForm(children, finalSize, nonFill, |children|);
    forall k | 0 <= k < |children| && children[k].Some?
      ensures Within(ChildRect(children, finalSize, nonFill, k), finalSize)
    {
      ChildRectWithin(children, finalSize, nonFill, k);
    }
  }
}
