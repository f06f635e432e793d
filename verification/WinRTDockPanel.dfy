/** The DockPanel of the Windows Runtime library. It behaves as the shared
    library's: the two differ only in how the `Dock` change callback guards
    its call to invalidate the parent panel against a null parent, which is
    outside this model. */
module WinRTDockPanel {
  import opened Host
  import opened DockLayout

  class DockPanel {
    /** `LastChildFill`. */
    var lastChildFill: bool

    /** `LastChildFill` at its registered default, true. */
    constructor()
      ensures lastChildFill
    {
      lastChildFill := true;
    }

    /** Assign `LastChildFill`; any boolean is accepted. */
    method SetLastChildFill(v: bool)
      modifies this
      ensures lastChildFill == v
    {
      lastChildFill := v;
    }

    /** Read an element's `Dock` attached property; a null element is rejected. */
    static function GetDock(element: UIElement?): (r: Result<Dock>)
      reads element
      ensures r.Fail? <==> element == null
      ensures r.Fail? ==> r.error == ArgumentNull
      ensures element != null ==> r == Ok(element.dock)
    {
      if element == null then Fail(ArgumentNull) else Ok(element.dock)
    }

    /** Write an element's `Dock` attached property. A null element is
        rejected; the change callback restores the old value and throws when
        the new one names no member of `Dock`. */
    static method SetDock(element: UIElement?, dock: EnumValue<Dock>) returns (outcome: Outcome)
      modifies element
      ensures element == null ==> outcome == Rejected(ArgumentNull)
      ensures element != null && dock.NotAMember? ==> outcome == Rejected(ArgumentInvalid) && element.dock == old(element.dock)
      ensures element != null && dock.Member? ==> outcome == Done && GetDock(element) == Ok(dock.value)
    {
      if element == null {
        outcome := Rejected(ArgumentNull);
        return;
      }
      if dock.NotAMember? {
        outcome := Rejected(ArgumentInvalid);
        return;
      }
      element.dock := dock.value;
      outcome := Done;
    }

    /** Measure each non-null child against the space the children before it
        left over, and report the least size that covers them all. */
    method MeasureOverride(children: seq<Option<DockChild>>, available: AvailableSize) returns (desired: Size, calls: seq<MeasureCall>)
      ensures desired == Measured(children)
      ensures CoversWidth(children, desired.width) && CoversHeight(children, desired.height)
      ensures forall x :: CoversWidth(children, x) ==> desired.width <= x
      ensures forall y :: CoversHeight(children, y) ==> desired.height <= y
      ensures |calls| == |NonNullIndices(children)|
      ensures forall j :: 0 <= j < |calls| ==>
        calls[j] == MeasureCall(NonNullIndices(children)[j],
                                AvailableSize(Remaining(available.width, ConsumedWidth(children, NonNullIndices(children)[j])),
                                              Remaining(available.height, ConsumedHeight(children, NonNullIndices(children)[j]))))
    {
      var parentWidth := 0.0;
      var parentHeight := 0.0;
      var accumulatedWidth := 0.0;
      var accumulatedHeight := 0.0;
      calls := [];
      for i := 0 to |children|
        invariant DockMeasure(parentWidth, parentHeight, accumulatedWidth, accumulatedHeight) == MeasureRun(children, i)
        invariant calls == MeasureCalls(children, available, i)
      {
        if children[i].None? {
          continue;
        }
        var childConstraint := AvailableSize(Remaining(available.width, accumulatedWidth), Remaining(available.height, accumulatedHeight));
        calls := calls + [MeasureCall(i, childConstraint)];
        var childDesiredSize := children[i].value.desired;
        match children[i].value.dock
        case Left | Right =>
          parentHeight := Max(parentHeight, accumulatedHeight + childDesiredSize.height);
          accumulatedWidth := accumulatedWidth + childDesiredSize.width;
        case Top | Bottom =>
          parentWidth := Max(parentWidth, accumulatedWidth + childDesiredSize.width);
          accumulatedHeight := accumulatedHeight + childDesiredSize.height;
      }
      parentWidth := Max(parentWidth, accumulatedWidth);
      parentHeight := Max(parentHeight, accumulatedHeight);
      desired := Size(parentWidth, parentHeight);
      MeasuredWidthIsLeast(children);
      MeasuredHeightIsLeast(children);
      MeasureCallsRemaining(children, available, |children|);
    }

    /** Dock each non-null child but the last (or every one, without
        `LastChildFill`) to its side of the space left over, and give the
        others all of that space. */
    method ArrangeOverride(children: seq<Option<DockChild>>, finalSize: Size) returns (arranged: Size, placements: seq<Placement>)
      ensures arranged == finalSize
      ensures placements == Arranged(children, finalSize, lastChildFill)
      ensures Indices(placements) == NonNullIndices(children)
    {
      var totalChildrenCount := |children|;
      var nonFillChildrenCount := totalChildrenCount - (if lastChildFill then 1 else 0);
      var accumulatedLeft := 0.0;
      var accumulatedTop := 0.0;
      var accumulatedRight := 0.0;
      var accumulatedBottom := 0.0;
      placements := [];
      for i := 0 to totalChildrenCount
        invariant DockArrange(Offsets(accumulatedLeft, accumulatedTop, accumulatedRight, accumulatedBottom), placements) ==
          ArrangeRun(children, finalSize, nonFillChildrenCount, i)
      {
        if children[i].None? {
          continue;
        }
        var childDesiredSize := children[i].value.desired;
        var rcChild := Rect(accumulatedLeft, accumulatedTop,
                            Max(0.0, finalSize.width - (accumulatedLeft + accumulatedRight)),
                            Max(0.0, finalSize.height - (accumulatedTop + accumulatedBottom)));
        if i < nonFillChildrenCount {
          match children[i].value.dock
          case Left =>
            accumulatedLeft := accumulatedLeft + childDesiredSize.width;
            rcChild := rcChild.(width := childDesiredSize.width);
          case Right =>
            accumulatedRight := accumulatedRight + childDesiredSize.width;
            rcChild := rcChild.(x := Max(0.0, finalSize.width - accumulatedRight), width := childDesiredSize.width);
          case Top =>
            accumulatedTop := accumulatedTop + childDesiredSize.height;
            rcChild := rcChild.(height := childDesiredSize.height);
          case Bottom =>
            accumulatedBottom := accumulatedBottom + childDesiredSize.height;
            rcChild := rcChild.(y := Max(0.0, finalSize.height - accumulatedBottom), height := childDesiredSize.height);
        }
        placements := placements + [Placement(i, rcChild)];
      }
      arranged := finalSize;
      ArrangedOnceInOrder(children, finalSize, lastChildFill);
    }
  }
}
