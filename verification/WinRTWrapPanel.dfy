/** The WrapPanel of the Windows Runtime library. Its properties, property
    callbacks and measure pass behave as the shared library's; its arrange
    pass reads every child without a null check, so it is specified only
    for children that are all present. */
module WinRTWrapPanel {
  import opened Host
  import opened WrapLayout

  /** No child is null. */
  predicate AllPresent(children: seq<Option<Size>>) {
    forall k :: 0 <= k < |children| ==> children[k].Some?
  }

  /** With every child present, arrange calls `Arrange` on each child exactly once, in order. */
  lemma ArrangedEveryChild(o: Orientation, itemWidth: Option<real>, itemHeight: Option<real>, children: seq<Option<Size>>, finalSize: Size)
    requires AllPresent(children)
    ensures Indices(Arranged(o, itemWidth, itemHeight, children, finalSize)) == seq(|children|, k => k)
  {
    ArrangedOnceInOrder(o, itemWidth, itemHeight, children, finalSize);
    AllPresentIndices(children, |children|);
  }

  lemma {:induction false} AllPresentIndices(children: seq<Option<Size>>, b: nat)
    requires AllPresent(children) && b <= |children|
    ensures NonNullIn(children, 0, b) == seq(b, k => k)
    decreases b
  {
    if b > 0 {
      AllPresentIndices(children, b - 1);
      assert seq(b, k => k) == seq(b - 1, k => k) + [b - 1];
    }
  }

  class WrapPanel {
    /** `ItemWidth`; None is NaN, the default. */
    var itemWidth: Option<real>
    /** `ItemHeight`; None is NaN, the default. */
    var itemHeight: Option<real>
    var orientation: Orientation

    /** The property callbacks keep every stored item size unset or positive. */
    ghost predicate Valid()
      reads this
    {
      ValidItemSize(itemWidth) && ValidItemSize(itemHeight)
    }

    /** Properties at their registered defaults: NaN, NaN, Horizontal. */
    constructor()
      ensures itemWidth == None && itemHeight == None && orientation == Horizontal
      ensures Valid()
    {
      itemWidth := None;
      itemHeight := None;
      orientation := Horizontal;
    }

    /** Assign `ItemWidth`; the change callback restores the old value and
        throws when the new one is not NaN and not a positive finite number. */
    method SetItemWidth(v: Double) returns (outcome: Outcome)
      requires Valid()
      modifies this
      ensures Valid()
      ensures outcome == Done <==> ItemSizeSetting(v).Ok?
      ensures outcome != Done ==> outcome == Rejected(ArgumentInvalid)
      ensures itemWidth == (if ItemSizeSetting(v).Ok? then ItemSizeSetting(v).value else old(itemWidth))
      ensures itemHeight == old(itemHeight) && orientation == old(orientation)
    {
      var setting := ItemSizeSetting(v);
      if setting.Fail? {
        outcome := Rejected(setting.error);
        return;
      }
      itemWidth := setting.value;
      outcome := Done;
    }

    /** Assign `ItemHeight`, validated as `ItemWidth` is. */
    method SetItemHeight(v: Double) returns (outcome: Outcome)
      requires Valid()
      modifies this
      ensures Valid()
      ensures outcome == Done <==> ItemSizeSetting(v).Ok?
      ensures outcome != Done ==> outcome == Rejected(ArgumentInvalid)
      ensures itemHeight == (if ItemSizeSetting(v).Ok? then ItemSizeSetting(v).value else old(itemHeight))
      ensures itemWidth == old(itemWidth) && orientation == old(orientation)
    {
      var setting := ItemSizeSetting(v);
      if setting.Fail? {
        outcome := Rejected(setting.error);
        return;
      }
      itemHeight := setting.value;
      outcome := Done;
    }

    /** Assign `Orientation`; a value naming no member is reverted and rejected. */
    method SetOrientation(v: EnumValue<Orientation>) returns (outcome: Outcome)
      modifies this
      ensures v.Member? ==> outcome == Done && orientation == v.value
      ensures v.NotAMember? ==> outcome == Rejected(ArgumentInvalid) && orientation == old(orientation)
      ensures itemWidth == old(itemWidth) && itemHeight == old(itemHeight)
    {
      match v
      case NotAMember =>
        outcome := Rejected(ArgumentInvalid);
      case Member(value) =>
        orientation := value;
        outcome := Done;
    }

    /** Measure every non-null child against the item size (or the available
        size where unset), then report the size of the greedy line partition. */
    method MeasureOverride(children: seq<Option<Size>>, available: AvailableSize) returns (desired: Size, calls: seq<MeasureCall>)
      ensures desired == SizeOf(orientation, Measured(Slots(orientation, itemWidth, itemHeight, children), DirectBound(orientation, available)))
      ensures |calls| == |NonNullIndices(children)|
      ensures forall j :: 0 <= j < |calls| ==>
        calls[j] == MeasureCall(NonNullIndices(children)[j], ChildConstraint(itemWidth, itemHeight, available))
    {
      var o := orientation;
      var currentLineSize := Zero;
      var totalSize := Zero;
      var maximumDirect := DirectBound(o, available);
      var childConstraint := ChildConstraint(itemWidth, itemHeight, available);
      ghost var slots := Slots(o, itemWidth, itemHeight, children);
      calls := [];
      for index := 0 to |children|
        invariant MeasureState(currentLineSize, totalSize) == MeasureRun(slots[..index], maximumDirect)
        invariant calls == seq(|NonNullIn(children, 0, index)|, j requires 0 <= j < |NonNullIn(children, 0, index)| =>
          MeasureCall(NonNullIn(children, 0, index)[j], childConstraint))
      {
        assert slots[..index + 1][..index] == slots[..index];
        var child := children[index];
        if child.None? {
          continue;
        }
        calls := calls + [MeasureCall(index, childConstraint)];
        var childSize := Orient(o, itemWidth.GetOr(child.value.width), itemHeight.GetOr(child.value.height));
        if Exceeds(currentLineSize.direct + childSize.direct, maximumDirect) {
          totalSize := OrientedSize(Max(currentLineSize.direct, totalSize.direct), totalSize.indirect + currentLineSize.indirect);
          currentLineSize := childSize;
          if Exceeds(childSize.direct, maximumDirect) {
            totalSize := OrientedSize(Max(childSize.direct, totalSize.direct), totalSize.indirect + childSize.indirect);
            currentLineSize := Zero;
          }
        } else {
          currentLineSize := OrientedSize(currentLineSize.direct + childSize.direct, Max(currentLineSize.indirect, childSize.indirect));
        }
      }
      assert slots[..|children|] == slots;
      totalSize := OrientedSize(Max(currentLineSize.direct, totalSize.direct), totalSize.indirect + currentLineSize.indirect);
      desired := Size(WidthOf(o, totalSize), HeightOf(o, totalSize));
    }

    /** Re-derive the lines against the final size, with the index skip after
        an oversized child, and arrange each line's children. Every child is
        read, so none may be null. */
    method ArrangeOverride(children: seq<Option<Size>>, finalSize: Size) returns (arranged: Size, placements: seq<Placement>)
      requires AllPresent(children)
      ensures arranged == finalSize
      ensures placements == Arranged(orientation, itemWidth, itemHeight, children, finalSize)
    {
      var o := orientation;
      var directDelta := ItemDirect(o, itemWidth, itemHeight);
      var maximumDirect := Bounded(DirectOf(o, finalSize));
      ghost var slots := Slots(o, itemWidth, itemHeight, children);
      var currentLineSize := Zero;
      var indirectOffset := 0.0;
      var lineStart: nat := 0;
      ghost var lines: seq<LineSlot> := [];
      placements := [];
      var lineEnd: nat := 0;
      while lineEnd < |children|
        invariant lineStart <= lineEnd <= |children| + 1
        invariant ArrangeLoopInv(children, o, directDelta, slots, maximumDirect, lineEnd,
          ArrangeState(lineStart, currentLineSize, indirectOffset, lines), placements)
        decreases |children| + 1 - lineEnd
      {
        ghost var st := ArrangeState(lineStart, currentLineSize, indirectOffset, lines);
        var element := children[lineEnd].value;
        var elementSize := Orient(o, itemWidth.GetOr(element.width), itemHeight.GetOr(element.height));
        assert slots[lineEnd] == Some(elementSize);
        if Exceeds(currentLineSize.direct + elementSize.direct, maximumDirect) {
          lineEnd, lineStart, currentLineSize, indirectOffset, lines, placements :=
            SwitchLine(children, o, directDelta, slots, maximumDirect, lineEnd, elementSize, lineStart, currentLineSize, indirectOffset, lines, placements);
        } else {
          currentLineSize := OrientedSize(currentLineSize.direct + elementSize.direct, Max(currentLineSize.indirect, elementSize.indirect));
          NextKeepsLoopInv(children, o, directDelta, slots, maximumDirect, lineEnd, st, placements,
            ArrangeState(lineStart, currentLineSize, indirectOffset, lines));
        }
        lineEnd := lineEnd + 1;
      }
      LoopEndArranged(o, itemWidth, itemHeight, children, finalSize, lineEnd,
        ArrangeState(lineStart, currentLineSize, indirectOffset, lines), placements);
      if lineStart < |children| {
        var ps := ArrangeLine(children, lineStart, |children|, directDelta, indirectOffset, currentLineSize.indirect);
        placements := placements + ps;
      }
      arranged := finalSize;
    }

    /** The children `[lineStart, lineEnd)` no longer leave room for child
        `lineEnd` of extent `elementSize`: arrange them as a line, then open
        a new line with that child, or, when it alone exceeds the bound,
        arrange it on a line of its own and step the index past it. */
    method SwitchLine(children: seq<Option<Size>>, o: Orientation, directDelta: Option<real>, ghost slots: seq<Option<OrientedSize>>,
                      maximumDirect: Extent, lineEnd0: nat, elementSize: OrientedSize, lineStart0: nat, currentLineSize0: OrientedSize,
                      indirectOffset0: real, ghost lines0: seq<LineSlot>, placements0: seq<Placement>)
      returns (lineEnd: nat, lineStart: nat, currentLineSize: OrientedSize, indirectOffset: real, ghost lines: seq<LineSlot>, placements: seq<Placement>)
      requires o == orientation && AllPresent(children) && lineEnd0 < |slots| == |children| && lineStart0 <= lineEnd0
      requires slots[lineEnd0] == Some(elementSize) && Exceeds(currentLineSize0.direct + elementSize.direct, maximumDirect)
      requires ArrangeLoopInv(children, o, directDelta, slots, maximumDirect, lineEnd0,
        ArrangeState(lineStart0, currentLineSize0, indirectOffset0, lines0), placements0)
      ensures lineStart == lineEnd && lineEnd0 <= lineEnd <= lineEnd0 + 1
      ensures ArrangeLoopInv(children, o, directDelta, slots, maximumDirect, lineEnd + 1,
        ArrangeState(lineStart, currentLineSize, indirectOffset, lines), placements)
    {
      ghost var st := ArrangeState(lineStart0, currentLineSize0, indirectOffset0, lines0);
      lineEnd := lineEnd0;
      var ps := ArrangeLine(children, lineStart0, lineEnd, directDelta, indirectOffset0, currentLineSize0.indirect);
      placements := placements0 + ps;
      lines := lines0 + [LineSlot(Span(lineStart0, lineEnd), indirectOffset0, currentLineSize0.indirect)];
      indirectOffset := indirectOffset0 + currentLineSize0.indirect;
      currentLineSize := elementSize;
      if Exceeds(elementSize.direct, maximumDirect) {
        var qs := ArrangeLine(children, lineEnd, lineEnd + 1, directDelta, indirectOffset, elementSize.indirect);
        placements := placements + qs;
        lines := lines + [LineSlot(Span(lineEnd, lineEnd + 1), indirectOffset, elementSize.indirect)];
        lineEnd := lineEnd + 1;
        indirectOffset := indirectOffset + currentLineSize.indirect;
        currentLineSize := Zero;
        OversizedKeepsLoopInv(children, o, directDelta, slots, maximumDirect, lineEnd0, st, placements0, ps, qs,
          ArrangeState(lineEnd, currentLineSize, indirectOffset, lines));
      } else {
        BreakKeepsLoopInv(children, o, directDelta, slots, maximumDirect, lineEnd, st, placements0, ps,
          ArrangeState(lineEnd, currentLineSize, indirectOffset, lines));
      }
      lineStart := lineEnd;
    }

    /** Arrange the children `[lineStart, lineEnd)` on one line: each at the
        running direct offset, as wide (directly) as `directDelta` if set or
        its desired size, and as tall (indirectly) as the line. */
    method ArrangeLine(children: seq<Option<Size>>, lineStart: nat, lineEnd: nat, directDelta: Option<real>, indirectOffset: real, indirectGrowth: real)
      returns (ps: seq<Placement>)
      requires lineStart <= lineEnd <= |children| && AllPresent(children)
      ensures ps == LinePlacements(children, orientation, directDelta, LineSlot(Span(lineStart, lineEnd), indirectOffset, indirectGrowth))
    {
      var o := orientation;
      ghost var line := LineSlot(Span(lineStart, lineEnd), indirectOffset, indirectGrowth);
      var directOffset := 0.0;
      ps := [];
      for index := lineStart to lineEnd
        invariant directOffset == DirectOffset(children, o, directDelta, lineStart, index)
        invariant ps == LinePlacementsUpTo(children, o, directDelta, line, index)
      {
        var element := children[index].value;
        var directGrowth := directDelta.GetOr(DirectOf(o, element));
        var bounds := if o == Horizontal then Rect(directOffset, indirectOffset, directGrowth, indirectGrowth)
                      else Rect(indirectOffset, directOffset, indirectGrowth, directGrowth);
        ps := ps + [Placement(index, bounds)];
        directOffset := directOffset + directGrowth;
      }
    }
  }
}
