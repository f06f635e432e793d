/** The WrapPanel of the shared (Windows and Windows Phone) library: a panel
    with three properties whose measure and arrange passes flow the
    children into lines. Children are given by the desired sizes they
    report after being measured (None for a null child); the calls the
    panel makes into them are returned as records. */
module SharedWrapPanel {
  import opened Host
  import opened WrapLayout

  class WrapPanel {
    /** `ItemWidth`; None is NaN, the default. */
    var itemWidth: Option<real>
    /** `ItemHeight`; None is NaN, the default. */
    var itemHeight: Option<real>
    var orientation: Orientation

    /** The property callbacks keep every stored item size unset or positive. */
    ghost predicate Valid()
      reads this
    {
      ValidItemSize(itemWidth) && ValidItemSize(itemHeight)
    }

    /** Properties at their registered defaults: NaN, NaN, Horizontal. */
    constructor()
      ensures itemWidth == None && itemHeight == None && orientation == Horizontal
      ensures Valid()
    {
      itemWidth := None;
      itemHeight := None;
      orientation := Horizontal;
    }

    /** Assign `ItemWidth`; the change callback restores the old value and
        throws when the new one is not NaN and not a positive finite number. */
    method SetItemWidth(v: Double) returns (outcome: Outcome)
      requires Valid()
      modifies this
      ensures Valid()
      ensures outcome == Done <==> ItemSizeSetting(v).Ok?
      ensures outcome != Done ==> outcome == Rejected(ArgumentInvalid)
      ensures itemWidth == (if ItemSizeSetting(v).Ok? then ItemSizeSetting(v).value else old(itemWidth))
      ensures itemHeight == old(itemHeight) && orientation == old(orientation)
    {
      match ItemSizeSetting(v)
      case Ok(s) =>
        itemWidth := s;
        outcome := Done;
      case Fail(e) =>
        outcome := Rejected(e);
    }

    /** Assign `ItemHeight`, validated as `ItemWidth` is. */
    method SetItemHeight(v: Double) returns (outcome: Outcome)
      requires Valid()
      modifies this
      ensures Valid()
      ensures outcome == Done <==> ItemSizeSetting(v).Ok?
      ensures outcome != Done ==> outcome == Rejected(ArgumentInvalid)
      ensures itemHeight == (if ItemSizeSetting(v).Ok? then ItemSizeSetting(v).value else old(itemHeight))
      ensures itemWidth == old(itemWidth) && orientation == old(orientation)
    {
      match ItemSizeSetting(v)
      case Ok(s) =>
        itemHeight := s;
        outcome := Done;
      case Fail(e) =>
        outcome := Rejected(e);
    }

    /** Assign `Orientation`; a value naming no member is reverted and rejected. */
    method SetOrientation(v: EnumValue<Orientation>) returns (outcome: Outcome)
      modifies this
      ensures v.Member? ==> outcome == Done && orientation == v.value
      ensures v.NotAMember? ==> outcome == Rejected(ArgumentInvalid) && orientation == old(orientation)
      ensures itemWidth == old(itemWidth) && itemHeight == old(itemHeight)
    {
      if v.Member? {
        orientation := v.value;
        outcome := Done;
      } else {
        outcome := Rejected(ArgumentInvalid);
      }
    }

    /** Measure every non-null child against the item size (or the available
        size where unset), then report the size of the greedy line partition. */
    method MeasureOverride(children: seq<Option<Size>>, available: AvailableSize) returns (desired: Size, calls: seq<MeasureCall>)
      ensures desired == SizeOf(orientation, Measured(Slots(orientation, itemWidth, itemHeight, children), DirectBound(orientation, available)))
      ensures |calls| == |NonNullIndices(children)|
      ensures forall j :: 0 <= j < |calls| ==>
        calls[j] == MeasureCall(NonNullIndices(children)[j], ChildConstraint(itemWidth, itemHeight, available))
    {
      var o := orientation;
      var bound := DirectBound(o, available);
      var constraint := ChildConstraint(itemWidth, itemHeight, available);
      ghost var slots := Slots(o, itemWidth, itemHeight, children);
      var line := Zero;
      var panel := Zero;
      calls := [];
      var i := 0;
      while i < |children|
        invariant i <= |children|
        invariant MeasureState(line, panel) == MeasureRun(slots[..i], bound)
        invariant calls == seq(|NonNullIn(children, 0, i)|, j requires 0 <= j < |NonNullIn(children, 0, i)| =>
          MeasureCall(NonNullIn(children, 0, i)[j], constraint))
      {
        assert slots[..i + 1][..i] == slots[..i];
        if children[i].Some? {
          calls := calls + [MeasureCall(i, constraint)];
          var sz := SlotSize(o, itemWidth, itemHeight, children[i].value);
          if Exceeds(line.direct + sz.direct, bound) {
            panel := OrientedSize(Max(line.direct, panel.direct), panel.indirect + line.indirect);
            line := sz;
            if Exceeds(sz.direct, bound) {
              panel := OrientedSize(Max(sz.direct, panel.direct), panel.indirect + sz.indirect);
              line := Zero;
            }
          } else {
            line := OrientedSize(line.direct + sz.direct, Max(sz.indirect, line.indirect));
          }
        }
        i := i + 1;
      }
      assert slots[..i] == slots;
      panel := OrientedSize(Max(line.direct, panel.direct), panel.indirect + line.indirect);
      desired := Size(WidthOf(o, panel), HeightOf(o, panel));
    }

    /** Re-derive the lines against the final size, with the index skip after
        an oversized child, and arrange each line's children. */
    method ArrangeOverride(children: seq<Option<Size>>, finalSize: Size) returns (arranged: Size, placements: seq<Placement>)
      ensures arranged == finalSize
      ensures placements == Arranged(orientation, itemWidth, itemHeight, children, finalSize)
    {
      var o := orientation;
      var itemDirect := ItemDirect(o, itemWidth, itemHeight);
      var bound := Bounded(DirectOf(o, finalSize));
      ghost var slots := Slots(o, itemWidth, itemHeight, children);
      var n := |children|;
      var firstInLine: nat := 0;
      var accumulatedIndirect := 0.0;
      var curLine := Zero;
      ghost var lines: seq<LineSlot> := [];
      placements := [];
      var i: nat := 0;
      while i < n
        invariant firstInLine <= i <= n + 1
        invariant ArrangeLoopInv(children, o, itemDirect, slots, bound, i,
          ArrangeState(firstInLine, curLine, accumulatedIndirect, lines), placements)
        decreases n + 1 - i
      {
        ghost var st := ArrangeState(firstInLine, curLine, accumulatedIndirect, lines);
        if children[i].Some? {
          var sz := SlotSize(o, itemWidth, itemHeight, children[i].value);
          assert slots[i] == Some(sz);
          if Exceeds(curLine.direct + sz.direct, bound) {
            i, firstInLine, curLine, accumulatedIndirect, lines, placements :=
              SwitchLine(children, o, itemDirect, slots, bound, i, sz, firstInLine, curLine, accumulatedIndirect, lines, placements);
          } else {
            curLine := OrientedSize(curLine.direct + sz.direct, Max(sz.indirect, curLine.indirect));
            NextKeepsLoopInv(children, o, itemDirect, slots, bound, i, st, placements,
              ArrangeState(firstInLine, curLine, accumulatedIndirect, lines));
          }
        } else {
          NextKeepsLoopInv(children, o, itemDirect, slots, bound, i, st, placements, st);
        }
        i := i + 1;
      }
      LoopEndArranged(o, itemWidth, itemHeight, children, finalSize, i,
        ArrangeState(firstInLine, curLine, accumulatedIndirect, lines), placements);
      if firstInLine < n {
        var ps := ArrangeLine(children, accumulatedIndirect, curLine.indirect, firstInLine, n, itemDirect);
        placements := placements + ps;
      }
      arranged := finalSize;
    }

    /** The children `[firstInLine, i)` no longer leave room for child `i`
        of extent `sz`: arrange them as a line, then open a new line with
        child `i`, or, when it alone exceeds the bound, arrange it on a line
        of its own and step the index past it. */
    method SwitchLine(children: seq<Option<Size>>, o: Orientation, itemDirect: Option<real>, ghost slots: seq<Option<OrientedSize>>,
                      bound: Extent, i0: nat, sz: OrientedSize, firstInLine0: nat, curLine0: OrientedSize, accumulatedIndirect0: real,
                      ghost lines0: seq<LineSlot>, placements0: seq<Placement>)
      returns (i: nat, firstInLine: nat, curLine: OrientedSize, accumulatedIndirect: real, ghost lines: seq<LineSlot>, placements: seq<Placement>)
      requires o == orientation && i0 < |slots| == |children| && firstInLine0 <= i0 && slots[i0] == Some(sz)
      requires Exceeds(curLine0.direct + sz.direct, bound)
      requires ArrangeLoopInv(children, o, itemDirect, slots, bound, i0, ArrangeState(firstInLine0, curLine0, accumulatedIndirect0, lines0), placements0)
      ensures firstInLine == i && i0 <= i <= i0 + 1
      ensures ArrangeLoopInv(children, o, itemDirect, slots, bound, i + 1, ArrangeState(firstInLine, curLine, accumulatedIndirect, lines), placements)
    {
      ghost var st := ArrangeState(firstInLine0, curLine0, accumulatedIndirect0, lines0);
      i := i0;
      var ps := ArrangeLine(children, accumulatedIndirect0, curLine0.indirect, firstInLine0, i, itemDirect);
      placements := placements0 + ps;
      lines := lines0 + [LineSlot(Span(firstInLine0, i), accumulatedIndirect0, curLine0.indirect)];
      accumulatedIndirect := accumulatedIndirect0 + curLine0.indirect;
      curLine := sz;
      if Exceeds(sz.direct, bound) {
        var qs := ArrangeLine(children, accumulatedIndirect, sz.indirect, i, i + 1, itemDirect);
        placements := placements + qs;
        lines := lines + [LineSlot(Span(i, i + 1), accumulatedIndirect, sz.indirect)];
        i := i + 1;
        accumulatedIndirect := accumulatedIndirect + sz.indirect;
        curLine := Zero;
        OversizedKeepsLoopInv(children, o, itemDirect, slots, bound, i0, st, placements0, ps, qs,
          ArrangeState(i, curLine, accumulatedIndirect, lines));
      } else {
        BreakKeepsLoopInv(children, o, itemDirect, slots, bound, i, st, placements0, ps,
          ArrangeState(i, curLine, accumulatedIndirect, lines));
      }
      firstInLine := i;
    }

    /** Arrange the children `[start, end)` on one line: each non-null child
        at the running direct offset, as wide (directly) as the item size or
        its desired size, and as tall (indirectly) as the line. */
    method ArrangeLine(children: seq<Option<Size>>, indirect: real, lineIndirect: real, start: nat, end: nat, itemDirect: Option<real>)
      returns (ps: seq<Placement>)
      requires start <= end <= |children|
      ensures ps == LinePlacements(children, orientation, itemDirect, LineSlot(Span(start, end), indirect, lineIndirect))
    {
      var o := orientation;
      ghost var line := LineSlot(Span(start, end), indirect, lineIndirect);
      var direct := 0.0;
      ps := [];
      var k := start;
      while k < end
        invariant start <= k <= end
        invariant direct == DirectOffset(children, o, itemDirect, start, k)
        invariant ps == LinePlacementsUpTo(children, o, itemDirect, line, k)
      {
        if children[k].Some? {
          var slotDirect := itemDirect.GetOr(DirectOf(o, children[k].value));
          ps := ps + [Placement(k, LineRect(o, direct, indirect, slotDirect, lineIndirect))];
          direct := direct + slotDirect;
        }
        k := k + 1;
      }
    }
  }
}
