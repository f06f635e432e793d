/** The flow-wrapping layout shared by both WrapPanel copies, stated on values.

    Sizes are "oriented": `direct` is the extent along the panel's
    orientation (width when Horizontal, height when Vertical) and `indirect`
    the extent across it. Children are a sequence of optional slots (None is
    a null child). The measure pass is a left fold (`MeasureRun`) and is
    characterised by an independent greedy line partition (`Wrap`, `Lines`).
    The arrange pass re-derives line boundaries with the index skip that
    both sources perform after an oversized child (`ArrangeFrom`), so its
    lines can differ from the measured ones; `ArrangeFromFixed` is the
    arrangement without the skip, proved to reproduce the measured lines. */
module WrapLayout {
  import opened Host

  datatype OrientedSize = OrientedSize(direct: real, indirect: real)

  const Zero: OrientedSize := OrientedSize(0.0, 0.0)

  /** The `Width` getter of an oriented size. */
  function WidthOf(o: Orientation, s: OrientedSize): real {
    if o == Horizontal then s.direct else s.indirect
  }

  /** The `Height` getter of an oriented size. */
  function HeightOf(o: Orientation, s: OrientedSize): real {
    if o == Horizontal then s.indirect else s.direct
  }

  /** The constructor `OrientedSize(orientation, width, height)`: the getters read back what was set. */
  function Orient(o: Orientation, width: real, height: real): (s: OrientedSize)
    ensures WidthOf(o, s) == width && HeightOf(o, s) == height
  {
    if o == Horizontal then OrientedSize(width, height) else OrientedSize(height, width)
  }

  /** Setting both dimensions from the getters gives back the same oriented size. */
  lemma OrientOfGetters(o: Orientation, s: OrientedSize)
    ensures Orient(o, WidthOf(o, s), HeightOf(o, s)) == s
  {
  }

  /** The size reported to the host from an oriented total. */
  function SizeOf(o: Orientation, s: OrientedSize): (r: Size)
    ensures Orient(o, r.width, r.height) == s
  {
    Size(WidthOf(o, s), HeightOf(o, s))
  }

  /** The direct dimension of a desired size. */
  function DirectOf(o: Orientation, s: Size): real {
    if o == Horizontal then s.width else s.height
  }

  /** The direct dimension of an available size: the bound a line must fit in. */
  function DirectBound(o: Orientation, available: AvailableSize): Extent {
    if o == Horizontal then available.width else available.height
  }

  // ---------------------------------------------------------------------------
  // Item sizes

  /** Assigning `ItemWidth`/`ItemHeight`: rejected when the value is a
      number that is not positive, or positive infinity; otherwise NaN
      stores "unset" and a positive number stores itself. */
  function ItemSizeSetting(v: Double): (r: Result<Option<real>>)
    ensures r.Ok? <==> v.NaN? || (v.Finite? && v.value > 0.0)
    ensures r.Fail? ==> r.error == ArgumentInvalid
    ensures r.Ok? ==> (r.value.None? <==> v.NaN?)
    ensures r.Ok? && r.value.Some? ==> r.value.value > 0.0 && v == Finite(r.value.value)
  {
    match v
    case NaN => Ok(None)
    case PositiveInfinity => Fail(ArgumentInvalid)
    case NegativeInfinity => Fail(ArgumentInvalid)
    case Finite(x) => if x <= 0.0 then Fail(ArgumentInvalid) else Ok(Some(x))
  }

  /** A stored item size is unset or strictly positive. */
  predicate ValidItemSize(s: Option<real>) {
    s.Some? ==> s.value > 0.0
  }

  /** The fixed direct item size, if set (`directDelta` / `itemDirect`). */
  function ItemDirect(o: Orientation, itemWidth: Option<real>, itemHeight: Option<real>): Option<real> {
    if o == Horizontal then itemWidth else itemHeight
  }

  /** The constraint every child is measured against: the item size where
      set, the available size otherwise. */
  function ChildConstraint(itemWidth: Option<real>, itemHeight: Option<real>, available: AvailableSize): AvailableSize {
    AvailableSize(
      if itemWidth.Some? then Bounded(itemWidth.value) else available.width,
      if itemHeight.Some? then Bounded(itemHeight.value) else available.height)
  }

  /** The oriented size a child occupies for line breaking: the item size
      where set, its desired size otherwise. */
  function SlotSize(o: Orientation, itemWidth: Option<real>, itemHeight: Option<real>, desired: Size): (s: OrientedSize)
    ensures WidthOf(o, s) == itemWidth.GetOr(desired.width)
    ensures HeightOf(o, s) == itemHeight.GetOr(desired.height)
  {
    Orient(o, itemWidth.GetOr(desired.width), itemHeight.GetOr(desired.height))
  }

  function Slots(o: Orientation, itemWidth: Option<real>, itemHeight: Option<real>, children: seq<Option<Size>>): (r: seq<Option<OrientedSize>>)
    ensures |r| == |children|
  {
    seq(|children|, k requires 0 <= k < |children| =>
      match children[k]
      case None => None
      case Some(d) => Some(SlotSize(o, itemWidth, itemHeight, d)))
  }

  /** Every present slot has non-negative extents (desired sizes are never
      negative and set item sizes are positive). */
  predicate NonNegative(slots: seq<Option<OrientedSize>>) {
    forall k :: 0 <= k < |slots| && slots[k].Some? ==>
      slots[k].value.direct >= 0.0 && slots[k].value.indirect >= 0.0
  }

  /** Children with non-negative desired sizes and valid item sizes give non-negative slots. */
  lemma SlotsNonNegative(o: Orientation, itemWidth: Option<real>, itemHeight: Option<real>, children: seq<Option<Size>>)
    requires ValidItemSize(itemWidth) && ValidItemSize(itemHeight)
    requires forall k :: 0 <= k < |children| && children[k].Some? ==>
      children[k].value.width >= 0.0 && children[k].value.height >= 0.0
    ensures NonNegative(Slots(o, itemWidth, itemHeight, children))
  {
  }

  // ---------------------------------------------------------------------------
  // Measure pass

  /** The running sizes of the measure loop: the open line and the panel total. */
  datatype MeasureState = MeasureState(line: OrientedSize, panel: OrientedSize)

  /** Fold a closed line into the panel total: max of directs, sum of indirects. */
  function CloseLine(panel: OrientedSize, line: OrientedSize): (r: OrientedSize)
    ensures r.direct >= panel.direct && r.direct >= line.direct
    ensures r.indirect == panel.indirect + line.indirect
  {
    OrientedSize(Max(line.direct, panel.direct), panel.indirect + line.indirect)
  }

  /** One iteration of the measure loop on one child. */
  function MeasureStep(st: MeasureState, slot: Option<OrientedSize>, bound: Extent): MeasureState {
    match slot
    case None => st
    case Some(sz) =>
      if Exceeds(st.line.direct + sz.direct, bound) then
        var panel := CloseLine(st.panel, st.line);
        if Exceeds(sz.direct, bound) then MeasureState(Zero, CloseLine(panel, sz))
        else MeasureState(sz, panel)
      else
        MeasureState(OrientedSize(st.line.direct + sz.direct, Max(st.line.indirect, sz.indirect)), st.panel)
  }

  /** The measure loop over all of `slots`. */
  function MeasureRun(slots: seq<Option<OrientedSize>>, bound: Extent): MeasureState
    decreases |slots|
  {
    if |slots| == 0 then MeasureState(Zero, Zero)
    else MeasureStep(MeasureRun(slots[..|slots| - 1], bound), slots[|slots| - 1], bound)
  }

  /** The oriented size the measure pass reports: the last line folded in. */
  function Measured(slots: seq<Option<OrientedSize>>, bound: Extent): OrientedSize {
    var st := MeasureRun(slots, bound);
    CloseLine(st.panel, st.line)
  }

  /** A null child anywhere leaves every running size of the measure loop unchanged. */
  lemma {:induction false} MeasureIgnoresNull(a: seq<Option<OrientedSize>>, b: seq<Option<OrientedSize>>, bound: Extent)
    ensures MeasureRun(a + [None] + b, bound) == MeasureRun(a + b, bound)
    decreases |b|
  {
    if |b| == 0 {
      assert a + [None] + b == a + [None];
      assert (a + [None])[..|a|] == a;
      assert a + b == a;
    } else {
      var b' := b[..|b| - 1];
      MeasureIgnoresNull(a, b', bound);
      assert (a + [None] + b)[..|a + [None] + b| - 1] == a + [None] + b';
      assert (a + b)[..|a + b| - 1] == a + b';
    }
  }

  // ---------------------------------------------------------------------------
  // Lines: the greedy first-fit partition that the measure pass realises

  /** The children `[start, end)` by index. */
  datatype Span = Span(start: nat, end: nat)

  /** `spans` are contiguous, in order, and exactly cover `[a, b)`: the last
      one ends at `b` and the others cover up to where it starts. */
  ghost predicate Tiles(spans: seq<Span>, a: nat, b: nat)
    decreases |spans|
  {
    if |spans| == 0 then a == b
    else
      var last := spans[|spans| - 1];
      last.start <= last.end == b && Tiles(spans[..|spans| - 1], a, last.start)
  }

  /** Tiling spans lie inside `[a, b)`, each starting where the previous one ends. */
  lemma {:induction false} TilesWithin(spans: seq<Span>, a: nat, b: nat)
    requires Tiles(spans, a, b)
    ensures a <= b
    ensures |spans| > 0 ==> spans[0].start == a
    ensures forall j :: 0 <= j < |spans| ==> a <= spans[j].start <= spans[j].end <= b
    ensures forall i, j :: 0 <= i && j == i + 1 && j < |spans| ==> spans[i].end == spans[j].start
    decreases |spans|
  {
    if |spans| > 0 {
      TilesWithin(spans[..|spans| - 1], a, spans[|spans| - 1].start);
    }
  }

  lemma TilesAppend(spans: seq<Span>, a: nat, b: nat, c: nat)
    requires Tiles(spans, a, b) && b <= c
    ensures Tiles(spans + [Span(b, c)], a, c)
  {
    assert (spans + [Span(b, c)])[..|spans|] == spans;
  }

  /** The extent of a line: directs summed, indirects maxed (nulls skipped). */
  function LineSize(line: seq<Option<OrientedSize>>): OrientedSize
    decreases |line|
  {
    if |line| == 0 then Zero
    else
      var s := LineSize(line[..|line| - 1]);
      match line[|line| - 1]
      case None => s
      case Some(sz) => OrientedSize(s.direct + sz.direct, Max(s.indirect, sz.indirect))
  }

  /** The extent of the line `s` of `slots` (nothing for a span outside them). */
  function LineAt(slots: seq<Option<OrientedSize>>, s: Span): OrientedSize {
    if s.start <= s.end <= |slots| then LineSize(slots[s.start..s.end]) else Zero
  }

  /** Closed lines so far and the first index of the open line. */
  datatype Wrapping = Wrapping(closed: seq<Span>, open: nat)

  /** Greedy line breaking, from the contents of the open line: a child
      that would overflow the open line closes it; a child that overflows
      on its own gets a closed line of its own. */
  function Wrap(slots: seq<Option<OrientedSize>>, bound: Extent): (w: Wrapping)
    ensures w.open <= |slots|
    decreases |slots|
  {
    if |slots| == 0 then Wrapping([], 0)
    else
      var k := |slots| - 1;
      var w := Wrap(slots[..k], bound);
      match slots[k]
      case None => w
      case Some(sz) =>
        if Exceeds(LineSize(slots[w.open..k]).direct + sz.direct, bound) then
          if Exceeds(sz.direct, bound) then Wrapping(w.closed + [Span(w.open, k)] + [Span(k, k + 1)], k + 1)
          else Wrapping(w.closed + [Span(w.open, k)], k)
        else w
  }

  /** All lines of a measure pass: the closed ones and a non-empty last line. */
  function Lines(slots: seq<Option<OrientedSize>>, bound: Extent): seq<Span> {
    var w := Wrap(slots, bound);
    if w.open < |slots| then w.closed + [Span(w.open, |slots|)] else w.closed
  }

  /** The measure pass's lines cover every child exactly once, in order. */
  lemma LinesTile(slots: seq<Option<OrientedSize>>, bound: Extent)
    ensures Tiles(Lines(slots, bound), 0, |slots|)
  {
    WrapTiles(slots, bound, |slots|);
    assert slots[..|slots|] == slots;
    var w := Wrap(slots, bound);
    if w.open < |slots| {
      TilesAppend(w.closed, 0, w.open, |slots|);
    }
  }

  /** The panel size of a sequence of lines: the widest line and the lines stacked. */
  function PanelSize(slots: seq<Option<OrientedSize>>, spans: seq<Span>): (p: OrientedSize)
    ensures p.direct >= 0.0
    decreases |spans|
  {
    if |spans| == 0 then Zero
    else CloseLine(PanelSize(slots, spans[..|spans| - 1]), LineAt(slots, spans[|spans| - 1]))
  }

  lemma PanelSizeAppend(slots: seq<Option<OrientedSize>>, spans: seq<Span>, s: Span)
    ensures PanelSize(slots, spans + [s]) == CloseLine(PanelSize(slots, spans), LineAt(slots, s))
  {
    assert (spans + [s])[..|spans|] == spans;
  }

  /** The line is within the bound along the direct axis. */
  predicate Fits(slots: seq<Option<OrientedSize>>, s: Span, bound: Extent) {
    !Exceeds(LineAt(slots, s).direct, bound)
  }

  /** The line holds exactly one child, which alone exceeds the bound. */
  predicate Oversized(slots: seq<Option<OrientedSize>>, s: Span, bound: Extent) {
    s.end == s.start + 1 && s.start < |slots| && slots[s.start].Some? && Exceeds(slots[s.start].value.direct, bound)
  }

  lemma LineSizeAppend(slots: seq<Option<OrientedSize>>, a: nat, k: nat)
    requires a <= k < |slots|
    ensures LineSize(slots[a..k + 1]) ==
      match slots[k]
      case None => LineSize(slots[a..k])
      case Some(sz) => OrientedSize(LineSize(slots[a..k]).direct + sz.direct, Max(LineSize(slots[a..k]).indirect, sz.indirect))
  {
    assert slots[a..k + 1][..k - a] == slots[a..k];
  }

  /** A line of one non-negative child is as large as that child. */
  lemma LineSizeSingle(slots: seq<Option<OrientedSize>>, k: nat)
    requires k < |slots| && slots[k].Some?
    ensures LineSize(slots[k..k + 1]).direct == slots[k].value.direct
    ensures slots[k].value.indirect >= 0.0 ==> LineSize(slots[k..k + 1]) == slots[k].value
  {
    assert slots[k..k + 1][..0] == [];
  }

  /** Wrapping a prefix one child longer is one step of `Wrap`. */
  lemma WrapAppend(slots: seq<Option<OrientedSize>>, bound: Extent, k: nat)
    requires k < |slots|
    ensures
      var w := Wrap(slots[..k], bound);
      Wrap(slots[..k + 1], bound) ==
        match slots[k]
        case None => w
        case Some(sz) =>
          if Exceeds(LineSize(slots[w.open..k]).direct + sz.direct, bound) then
            if Exceeds(sz.direct, bound) then Wrapping(w.closed + [Span(w.open, k)] + [Span(k, k + 1)], k + 1)
            else Wrapping(w.closed + [Span(w.open, k)], k)
          else w
  {
    var p := slots[..k + 1];
    assert p[..k] == slots[..k];
    var w := Wrap(slots[..k], bound);
    assert p[w.open..k] == slots[w.open..k];
  }

  /** `WrapAppend` for a child that fits the open line, or a null child. */
  lemma WrapAppendNext(slots: seq<Option<OrientedSize>>, bound: Extent, k: nat)
    requires k < |slots|
    requires slots[k].Some? ==>
      !Exceeds(LineSize(slots[Wrap(slots[..k], bound).open..k]).direct + slots[k].value.direct, bound)
    ensures Wrap(slots[..k + 1], bound) == Wrap(slots[..k], bound)
  {
    WrapAppend(slots, bound, k);
  }

  /** `WrapAppend` for a child that overflows the open line but fits alone. */
  lemma WrapAppendBreak(slots: seq<Option<OrientedSize>>, bound: Extent, k: nat)
    requires k < |slots| && slots[k].Some? && !Exceeds(slots[k].value.direct, bound)
    requires Exceeds(LineSize(slots[Wrap(slots[..k], bound).open..k]).direct + slots[k].value.direct, bound)
    ensures Wrap(slots[..k + 1], bound) ==
      Wrapping(Wrap(slots[..k], bound).closed + [Span(Wrap(slots[..k], bound).open, k)], k)
  {
    WrapAppend(slots, bound, k);
  }

  /** `WrapAppend` for a child that alone exceeds the bound. */
  lemma WrapAppendOversized(slots: seq<Option<OrientedSize>>, bound: Extent, k: nat)
    requires k < |slots| && slots[k].Some? && Exceeds(slots[k].value.direct, bound)
    requires Exceeds(LineSize(slots[Wrap(slots[..k], bound).open..k]).direct + slots[k].value.direct, bound)
    ensures Wrap(slots[..k + 1], bound) ==
      Wrapping(Wrap(slots[..k], bound).closed + [Span(Wrap(slots[..k], bound).open, k)] + [Span(k, k + 1)], k + 1)
  {
    WrapAppend(slots, bound, k);
  }

  /** The closed lines cover, in order, every child before the open line. */
  lemma {:induction false} WrapTiles(slots: seq<Option<OrientedSize>>, bound: Extent, n: nat)
    requires n <= |slots|
    ensures Tiles(Wrap(slots[..n], bound).closed, 0, Wrap(slots[..n], bound).open)
  {
    if n > 0 {
      var k := n - 1;
      WrapTiles(slots, bound, k);
      var w := Wrap(slots[..k], bound);
      if slots[k].None? || !Exceeds(LineSize(slots[w.open..k]).direct + slots[k].value.direct, bound) {
        WrapAppendNext(slots, bound, k);
      } else if Exceeds(slots[k].value.direct, bound) {
        WrapAppendOversized(slots, bound, k);
        TilesAppend(w.closed, 0, w.open, k);
        TilesAppend(w.closed + [Span(w.open, k)], 0, k, k + 1);
      } else {
        WrapAppendBreak(slots, bound, k);
        TilesAppend(w.closed, 0, w.open, k);
      }
    }
  }

  /** The sizes the measure loop keeps after the first `n` children. */
  ghost predicate MeasureMatchesWrap(slots: seq<Option<OrientedSize>>, bound: Extent, n: nat)
    requires n <= |slots|
  {
    var w := Wrap(slots[..n], bound);
    MeasureRun(slots[..n], bound) == MeasureState(LineSize(slots[w.open..n]), PanelSize(slots, w.closed))
  }

  /** The measure loop over one more child is one more step. */
  lemma MeasureRunAppend(slots: seq<Option<OrientedSize>>, bound: Extent, k: nat)
    requires k < |slots|
    ensures MeasureRun(slots[..k + 1], bound) == MeasureStep(MeasureRun(slots[..k], bound), slots[k], bound)
  {
    assert slots[..k + 1][..k] == slots[..k];
  }

  lemma MeasureNextMatchesWrap(slots: seq<Option<OrientedSize>>, bound: Extent, k: nat)
    requires k < |slots| && MeasureMatchesWrap(slots, bound, k)
    requires slots[k].Some? ==>
      !Exceeds(LineSize(slots[Wrap(slots[..k], bound).open..k]).direct + slots[k].value.direct, bound)
    ensures MeasureMatchesWrap(slots, bound, k + 1)
  {
    var w := Wrap(slots[..k], bound);
    var st := MeasureRun(slots[..k], bound);
    MeasureRunAppend(slots, bound, k);
    WrapAppendNext(slots, bound, k);
    LineSizeAppend(slots, w.open, k);
    assert st.line == LineSize(slots[w.open..k]);
    assert MeasureRun(slots[..k + 1], bound) == MeasureState(LineSize(slots[w.open..k + 1]), st.panel);
  }

  lemma MeasureBreakMatchesWrap(slots: seq<Option<OrientedSize>>, bound: Extent, k: nat)
    requires k < |slots| && NonNegative(slots) && MeasureMatchesWrap(slots, bound, k)
    requires slots[k].Some? && !Exceeds(slots[k].value.direct, bound)
    requires Exceeds(LineSize(slots[Wrap(slots[..k], bound).open..k]).direct + slots[k].value.direct, bound)
    ensures MeasureMatchesWrap(slots, bound, k + 1)
  {
    var w := Wrap(slots[..k], bound);
    MeasureRunAppend(slots, bound, k);
    WrapAppendBreak(slots, bound, k);
    LineSizeSingle(slots, k);
    PanelSizeAppend(slots, w.closed, Span(w.open, k));
  }

  lemma MeasureOversizedMatchesWrap(slots: seq<Option<OrientedSize>>, bound: Extent, k: nat)
    requires k < |slots| && NonNegative(slots) && MeasureMatchesWrap(slots, bound, k)
    requires slots[k].Some? && Exceeds(slots[k].value.direct, bound)
    requires Exceeds(LineSize(slots[Wrap(slots[..k], bound).open..k]).direct + slots[k].value.direct, bound)
    ensures MeasureMatchesWrap(slots, bound, k + 1)
  {
    var w := Wrap(slots[..k], bound);
    MeasureRunAppend(slots, bound, k);
    WrapAppendOversized(slots, bound, k);
    LineSizeSingle(slots, k);
    PanelSizeAppend(slots, w.closed, Span(w.open, k));
    PanelSizeAppend(slots, w.closed + [Span(w.open, k)], Span(k, k + 1));
    assert slots[k + 1..k + 1] == [];
  }

  lemma MeasureStepMatchesWrap(slots: seq<Option<OrientedSize>>, bound: Extent, k: nat)
    requires k < |slots| && NonNegative(slots) && MeasureMatchesWrap(slots, bound, k)
    ensures MeasureMatchesWrap(slots, bound, k + 1)
  {
    var w := Wrap(slots[..k], bound);
    if slots[k].None? || !Exceeds(LineSize(slots[w.open..k]).direct + slots[k].value.direct, bound) {
      MeasureNextMatchesWrap(slots, bound, k);
    } else if Exceeds(slots[k].value.direct, bound) {
      MeasureOversizedMatchesWrap(slots, bound, k);
    } else {
      MeasureBreakMatchesWrap(slots, bound, k);
    }
  }

  /** The measure loop's running sizes are those of the greedy partition:
      the open line's size, and the closed lines folded into the total. */
  lemma {:induction false} MeasureRunIsWrap(slots: seq<Option<OrientedSize>>, bound: Extent, n: nat)
    requires n <= |slots| && NonNegative(slots)
    ensures MeasureMatchesWrap(slots, bound, n)
  {
    if n == 0 {
      assert slots[..0] == [] && slots[0..0] == [];
    } else {
      MeasureRunIsWrap(slots, bound, n - 1);
      MeasureStepMatchesWrap(slots, bound, n - 1);
    }
  }

  /** The measured size is the panel size of the lines: the widest line's
      direct extent and the sum of the lines' indirect extents. */
  lemma MeasuredIsLines(slots: seq<Option<OrientedSize>>, bound: Extent)
    requires NonNegative(slots)
    ensures Measured(slots, bound) == PanelSize(slots, Lines(slots, bound))
  {
    MeasureRunIsWrap(slots, bound, |slots|);
    assert slots[..|slots|] == slots;
    var w := Wrap(slots, bound);
    if w.open < |slots| {
      PanelSizeAppend(slots, w.closed, Span(w.open, |slots|));
    } else {
      assert slots[w.open..|slots|] == [];
    }
  }

  /** After the first `n` children every closed line fits the bound or is a
      lone oversized child, and the open line fits. */
  ghost predicate WrapFits(slots: seq<Option<OrientedSize>>, bound: Extent, n: nat)
    requires n <= |slots|
  {
    var w := Wrap(slots[..n], bound);
    && Fits(slots, Span(w.open, n), bound)
    && forall s :: s in w.closed ==> Fits(slots, s, bound) || Oversized(slots, s, bound)
  }

  lemma WrapFitsStep(slots: seq<Option<OrientedSize>>, bound: Extent, k: nat)
    requires k < |slots| && (bound.Bounded? ==> bound.value >= 0.0) && WrapFits(slots, bound, k)
    ensures WrapFits(slots, bound, k + 1)
  {
    WrapAppend(slots, bound, k);
    var w := Wrap(slots[..k], bound);
    LineSizeAppend(slots, w.open, k);
    match slots[k]
    case None =>
    case Some(sz) =>
      if Exceeds(LineSize(slots[w.open..k]).direct + sz.direct, bound) {
        LineSizeSingle(slots, k);
        assert slots[k + 1..k + 1] == [];
      }
  }

  lemma {:induction false} WrapLinesFit(slots: seq<Option<OrientedSize>>, bound: Extent, n: nat)
    requires n <= |slots| && (bound.Bounded? ==> bound.value >= 0.0)
    ensures WrapFits(slots, bound, n)
  {
    if n == 0 {
      assert slots[..0] == [] && slots[0..0] == [];
    } else {
      WrapLinesFit(slots, bound, n - 1);
      WrapFitsStep(slots, bound, n - 1);
    }
  }

  /** All lines of the measure pass fit, or are a lone oversized child. */
  lemma LinesFit(slots: seq<Option<OrientedSize>>, bound: Extent)
    requires bound.Bounded? ==> bound.value >= 0.0
    ensures forall s :: s in Lines(slots, bound) ==> Fits(slots, s, bound) || Oversized(slots, s, bound)
  {
    WrapLinesFit(slots, bound, |slots|);
    assert slots[..|slots|] == slots;
  }

  lemma {:induction false} PanelSizeWithinBound(slots: seq<Option<OrientedSize>>, spans: seq<Span>, bound: Extent)
    requires forall s :: s in spans ==> Fits(slots, s, bound)
    requires bound.Bounded? ==> bound.value >= 0.0
    ensures !Exceeds(PanelSize(slots, spans).direct, bound)
    decreases |spans|
  {
    if |spans| > 0 {
      var prefix := spans[..|spans| - 1];
      assert forall s :: s in prefix ==> s in spans;
      assert spans[|spans| - 1] in spans;
      PanelSizeWithinBound(slots, prefix, bound);
    }
  }

  /** When no child alone exceeds the bound, neither does the measured direct extent. */
  lemma MeasuredWithinBound(slots: seq<Option<OrientedSize>>, bound: Extent)
    requires NonNegative(slots) && (bound.Bounded? ==> bound.value >= 0.0)
    requires forall k :: 0 <= k < |slots| && slots[k].Some? ==> !Exceeds(slots[k].value.direct, bound)
    ensures !Exceeds(Measured(slots, bound).direct, bound)
  {
    MeasuredIsLines(slots, bound);
    LinesFit(slots, bound);
    PanelSizeWithinBound(slots, Lines(slots, bound), bound);
  }

  /** The line `a` is closed for good before a line starting at `start`:
      it alone exceeds the bound, or the present child at `start` would
      make it exceed the bound. */
  ghost predicate ClosedBefore(slots: seq<Option<OrientedSize>>, bound: Extent, a: Span, start: nat) {
    || Exceeds(LineAt(slots, a).direct, bound)
    || (start < |slots| && slots[start].Some? && Exceeds(LineAt(slots, a).direct + slots[start].value.direct, bound))
  }

  /** After the first `n` children, each closed line is closed for good
      before the line after it, the open line included. */
  ghost predicate WrapBreaks(slots: seq<Option<OrientedSize>>, bound: Extent, n: nat)
    requires n <= |slots|
  {
    var w := Wrap(slots[..n], bound);
    && (forall j :: 0 <= j < |w.closed| - 1 ==> ClosedBefore(slots, bound, w.closed[j], w.closed[j + 1].start))
    && (|w.closed| > 0 ==> ClosedBefore(slots, bound, w.closed[|w.closed| - 1], w.open))
  }

  lemma WrapBreaksStep(slots: seq<Option<OrientedSize>>, bound: Extent, k: nat)
    requires k < |slots| && WrapBreaks(slots, bound, k)
    ensures WrapBreaks(slots, bound, k + 1)
  {
    var w := Wrap(slots[..k], bound);
    if slots[k].None? || !Exceeds(LineSize(slots[w.open..k]).direct + slots[k].value.direct, bound) {
      WrapAppendNext(slots, bound, k);
    } else if Exceeds(slots[k].value.direct, bound) {
      WrapAppendOversized(slots, bound, k);
      LineSizeSingle(slots, k);
      var c := w.closed + [Span(w.open, k)] + [Span(k, k + 1)];
      assert ClosedBefore(slots, bound, Span(w.open, k), k);
      assert ClosedBefore(slots, bound, Span(k, k + 1), k + 1);
      assert forall j :: 0 <= j < |c| - 1 ==> ClosedBefore(slots, bound, c[j], c[j + 1].start) by {
        forall j | 0 <= j < |c| - 1 ensures ClosedBefore(slots, bound, c[j], c[j + 1].start) {
          if j < |w.closed| - 1 {
            assert c[j] == w.closed[j] && c[j + 1] == w.closed[j + 1];
          }
        }
      }
    } else {
      WrapAppendBreak(slots, bound, k);
      var c := w.closed + [Span(w.open, k)];
      assert ClosedBefore(slots, bound, Span(w.open, k), k);
      assert forall j :: 0 <= j < |c| - 1 ==> ClosedBefore(slots, bound, c[j], c[j + 1].start) by {
        forall j | 0 <= j < |c| - 1 ensures ClosedBefore(slots, bound, c[j], c[j + 1].start) {
          if j < |w.closed| - 1 {
            assert c[j] == w.closed[j] && c[j + 1] == w.closed[j + 1];
          }
        }
      }
    }
  }

  lemma {:induction false} WrapBreaksAll(slots: seq<Option<OrientedSize>>, bound: Extent, n: nat)
    requires n <= |slots|
    ensures WrapBreaks(slots, bound, n)
  {
    if n == 0 {
      assert slots[..0] == [];
    } else {
      WrapBreaksAll(slots, bound, n - 1);
      WrapBreaksStep(slots, bound, n - 1);
    }
  }

  /** Child `m` is the first present child of the line `s`. */
  ghost predicate FirstPresent(slots: seq<Option<OrientedSize>>, s: Span, m: nat) {
    s.start <= m < s.end && m < |slots| && slots[m].Some? && forall i :: s.start <= i < m ==> slots[i].None?
  }

  /** A measured line ends only where it has no room left: the first
      present child of the next line would make it exceed the bound. With
      `LinesFit` this fixes `Lines` as the first-fit partition. */
  lemma LinesFirstFit(slots: seq<Option<OrientedSize>>, bound: Extent)
    requires NonNegative(slots)
    ensures var lines := Lines(slots, bound);
      forall j :: 0 <= j < |lines| - 1 ==>
        forall m: nat :: FirstPresent(slots, lines[j + 1], m) ==>
          Exceeds(LineAt(slots, lines[j]).direct + slots[m].value.direct, bound)
  {
    WrapBreaksAll(slots, bound, |slots|);
    assert slots[..|slots|] == slots;
    var w := Wrap(slots, bound);
    var lines := Lines(slots, bound);
    forall j | 0 <= j < |lines| - 1
      ensures forall m: nat :: FirstPresent(slots, lines[j + 1], m) ==>
        Exceeds(LineAt(slots, lines[j]).direct + slots[m].value.direct, bound)
    {
      assert ClosedBefore(slots, bound, lines[j], lines[j + 1].start) by {
        if j < |w.closed| - 1 {
          assert lines[j] == w.closed[j] && lines[j + 1] == w.closed[j + 1];
        } else {
          assert lines[j] == w.closed[|w.closed| - 1] && lines[j + 1].start == w.open;
        }
      }
      forall m: nat | FirstPresent(slots, lines[j + 1], m)
        ensures Exceeds(LineAt(slots, lines[j]).direct + slots[m].value.direct, bound)
      {
        if m > lines[j + 1].start {
          assert slots[lines[j + 1].start].None?;
        }
      }
    }
  }

  /** Greedy first fit, not optimal packing: extents 30, 40, 50 into 100 make lines [30, 40] and [50]. */
  lemma FirstFitExample()
    ensures
      var s := [Some(OrientedSize(30.0, 1.0)), Some(OrientedSize(40.0, 1.0)), Some(OrientedSize(50.0, 1.0))];
      Lines(s, Bounded(100.0)) == [Span(0, 2), Span(2, 3)] && Measured(s, Bounded(100.0)) == OrientedSize(70.0, 2.0)
  {
    var s := [Some(OrientedSize(30.0, 1.0)), Some(OrientedSize(40.0, 1.0)), Some(OrientedSize(50.0, 1.0))];
    var b := Bounded(100.0);
    assert s[..1][..0] == [] && s[..2][..1] == s[..1] && s[..3] == s;
    assert s[0..0] == [] && s[0..1] == s[..1] && s[0..2] == s[..2];
    assert s[2..3] == [s[2]] && [s[2]][..0] == [];
    assert Wrap(s[..1], b) == Wrapping([], 0);
    assert Wrap(s[..2], b) == Wrapping([], 0);
    assert LineSize(s[0..2]).direct == 70.0;
    assert Wrap(s, b) == Wrapping([Span(0, 2)], 2);
    assert MeasureRun(s[..1], b) == MeasureState(OrientedSize(30.0, 1.0), Zero);
    assert MeasureRun(s[..2], b) == MeasureState(OrientedSize(70.0, 1.0), Zero);
  }

  // ---------------------------------------------------------------------------
  // Arrange pass

  /** One `ArrangeLine` call: its children, indirect offset and indirect extent. */
  datatype LineSlot = LineSlot(span: Span, offset: real, extent: real)

  function Spans(lines: seq<LineSlot>): (r: seq<Span>)
    ensures |r| == |lines|
    decreases |lines|
  {
    if |lines| == 0 then [] else Spans(lines[..|lines| - 1]) + [lines[|lines| - 1].span]
  }

  lemma SpansAppend(lines: seq<LineSlot>, x: LineSlot)
    ensures Spans(lines + [x]) == Spans(lines) + [x.span]
  {
    assert (lines + [x])[..|lines|] == lines;
  }

  lemma {:induction false} SpansAt(lines: seq<LineSlot>, j: nat)
    requires j < |lines|
    ensures Spans(lines)[j] == lines[j].span
    decreases |lines|
  {
    if j < |lines| - 1 {
      SpansAt(lines[..|lines| - 1], j);
    }
  }

  /** Sum of the indirect extents of `lines`. */
  function SumExtents(lines: seq<LineSlot>): real
    decreases |lines|
  {
    if |lines| == 0 then 0.0 else SumExtents(lines[..|lines| - 1]) + lines[|lines| - 1].extent
  }

  /** Each line starts, along the indirect axis, where the earlier lines end. */
  predicate Stacked(lines: seq<LineSlot>)
    decreases |lines|
  {
    |lines| == 0 ||
    (Stacked(lines[..|lines| - 1]) && lines[|lines| - 1].offset == SumExtents(lines[..|lines| - 1]))
  }

  /** Line `j` of a stacked sequence sits at the sum of the extents of the lines before it. */
  lemma {:induction false} StackedAt(lines: seq<LineSlot>, j: nat)
    requires Stacked(lines) && j < |lines|
    ensures lines[j].offset == SumExtents(lines[..j])
    decreases |lines|
  {
    if j < |lines| - 1 {
      var prefix := lines[..|lines| - 1];
      StackedAt(prefix, j);
      assert prefix[..j] == lines[..j];
    }
  }

  /** The running variables of the arrange loop: first index of the open
      line, its accumulated size, the indirect offset, and the lines
      arranged so far. */
  datatype ArrangeState = ArrangeState(first: nat, line: OrientedSize, offset: real, lines: seq<LineSlot>)

  const ArrangeStart: ArrangeState := ArrangeState(0, Zero, 0.0, [])

  /** What the arrange loop keeps true: lines so far tile `[0, first)`,
      stack up, and end at the running offset. */
  ghost predicate ArrangeInv(n: nat, st: ArrangeState) {
    && st.first <= n
    && Tiles(Spans(st.lines), 0, st.first)
    && Stacked(st.lines)
    && st.offset == SumExtents(st.lines)
  }

  /** Close the open line `[first, end)` at the running offset. */
  function CloseArranged(st: ArrangeState, end: nat, extent: real): ArrangeState {
    ArrangeState(st.first, st.line, st.offset + extent, st.lines + [LineSlot(Span(st.first, end), st.offset, extent)])
  }

  lemma CloseArrangedInv(n: nat, st: ArrangeState, end: nat, extent: real, line: OrientedSize)
    requires ArrangeInv(n, st) && st.first <= end <= n
    ensures ArrangeInv(n, CloseArranged(st, end, extent).(first := end, line := line))
  {
    var x := LineSlot(Span(st.first, end), st.offset, extent);
    SpansAppend(st.lines, x);
    TilesAppend(Spans(st.lines), 0, st.first, end);
    StackedAppend(st.lines, x);
  }

  /** The invariant does not depend on the open line's size. */
  lemma ArrangeInvAnyLine(n: nat, st: ArrangeState, line: OrientedSize)
    requires ArrangeInv(n, st)
    ensures ArrangeInv(n, st.(line := line))
  {
  }

  lemma StackedAppend(lines: seq<LineSlot>, x: LineSlot)
    requires Stacked(lines) && x.offset == SumExtents(lines)
    ensures Stacked(lines + [x]) && SumExtents(lines + [x]) == SumExtents(lines) + x.extent
  {
    assert (lines + [x])[..|lines|] == lines;
  }

  /** The arrange loop as the sources write it, from index `i` on. After a
      child that alone exceeds the bound it closes that child's line and
      then advances the index a second time: the next child starts the new
      line but is never added to the line's accumulated size. */
  function ArrangeFrom(slots: seq<Option<OrientedSize>>, bound: Extent, i: nat, st: ArrangeState): ArrangeState
    decreases |slots| + 1 - i
  {
    if i >= |slots| then st
    else
      match slots[i]
      case None => ArrangeFrom(slots, bound, i + 1, st)
      case Some(sz) =>
        if Exceeds(st.line.direct + sz.direct, bound) then
          var closed := CloseArranged(st, i, st.line.indirect).(first := i, line := sz);
          if Exceeds(sz.direct, bound) then
            ArrangeFrom(slots, bound, i + 2, CloseArranged(closed, i + 1, sz.indirect).(first := i + 1, line := Zero))
          else
            ArrangeFrom(slots, bound, i + 1, closed)
        else
          ArrangeFrom(slots, bound, i + 1, st.(line := Extend(st.line, sz)))
  }

  /** The open line after adding the child `sz` to it. */
  function Extend(line: OrientedSize, sz: OrientedSize): OrientedSize {
    OrientedSize(line.direct + sz.direct, Max(line.indirect, sz.indirect))
  }

  /** The arrange loop keeps its lines tiling, stacked and summed. */
  lemma {:induction false} ArrangeFromInv(slots: seq<Option<OrientedSize>>, bound: Extent, i: nat, st: ArrangeState)
    requires st.first <= i <= |slots| + 1 && ArrangeInv(|slots|, st)
    ensures ArrangeInv(|slots|, ArrangeFrom(slots, bound, i, st))
    decreases |slots| + 1 - i
  {
    if i < |slots| {
      if slots[i].None? || !Exceeds(st.line.direct + slots[i].value.direct, bound) {
        var next := if slots[i].None? then st else st.(line := Extend(st.line, slots[i].value));
        ArrangeFromNext(slots, bound, i, st);
        ArrangeInvAnyLine(|slots|, st, next.line);
        assert next == st.(line := next.line);
        ArrangeFromInv(slots, bound, i + 1, next);
      } else {
        var sz := slots[i].value;
        var closed := CloseArranged(st, i, st.line.indirect).(first := i, line := sz);
        CloseArrangedInv(|slots|, st, i, st.line.indirect, sz);
        if Exceeds(sz.direct, bound) {
          var next := CloseArranged(closed, i + 1, sz.indirect).(first := i + 1, line := Zero);
          ArrangeFromOversized(slots, bound, i, st);
          CloseArrangedInv(|slots|, closed, i + 1, sz.indirect, Zero);
          ArrangeFromInv(slots, bound, i + 2, next);
        } else {
          ArrangeFromBreak(slots, bound, i, st);
          ArrangeFromInv(slots, bound, i + 1, closed);
        }
      }
    }
  }

  /** Unfolding `ArrangeFrom` at a null child or a child that fits the open line. */
  lemma ArrangeFromNext(slots: seq<Option<OrientedSize>>, bound: Extent, i: nat, st: ArrangeState)
    requires i < |slots|
    requires slots[i].Some? ==> !Exceeds(st.line.direct + slots[i].value.direct, bound)
    ensures ArrangeFrom(slots, bound, i, st) ==
      ArrangeFrom(slots, bound, i + 1, if slots[i].None? then st else st.(line := Extend(st.line, slots[i].value)))
  {
  }

  /** Unfolding `ArrangeFrom` at a child that closes the open line and starts the next. */
  lemma ArrangeFromBreak(slots: seq<Option<OrientedSize>>, bound: Extent, i: nat, st: ArrangeState)
    requires i < |slots|
    requires slots[i].Some? && Exceeds(st.line.direct + slots[i].value.direct, bound) && !Exceeds(slots[i].value.direct, bound)
    ensures ArrangeFrom(slots, bound, i, st) ==
      ArrangeFrom(slots, bound, i + 1, CloseArranged(st, i, st.line.indirect).(first := i, line := slots[i].value))
  {
  }

  /** Unfolding `ArrangeFrom` at a child that alone exceeds the bound: two
      lines close and the loop resumes two children further on. */
  lemma ArrangeFromOversized(slots: seq<Option<OrientedSize>>, bound: Extent, i: nat, st: ArrangeState)
    requires i < |slots|
    requires slots[i].Some? && Exceeds(st.line.direct + slots[i].value.direct, bound) && Exceeds(slots[i].value.direct, bound)
    ensures var closed := CloseArranged(st, i, st.line.indirect).(first := i, line := slots[i].value);
      ArrangeFrom(slots, bound, i, st) ==
      ArrangeFrom(slots, bound, i + 2, CloseArranged(closed, i + 1, slots[i].value.indirect).(first := i + 1, line := Zero))
  {
  }

  /** The lines the arrange pass lays out: those of the loop, and the open
      line if it is not empty. */
  function ArrangeLines(slots: seq<Option<OrientedSize>>, bound: Extent): seq<LineSlot> {
    var st := ArrangeFrom(slots, bound, 0, ArrangeStart);
    if st.first < |slots| then CloseArranged(st, |slots|, st.line.indirect).lines else st.lines
  }

  /** These lines tile all children and stack up. */
  lemma ArrangeLinesTile(slots: seq<Option<OrientedSize>>, bound: Extent)
    ensures Tiles(Spans(ArrangeLines(slots, bound)), 0, |slots|) && Stacked(ArrangeLines(slots, bound))
  {
    ArrangeFromInv(slots, bound, 0, ArrangeStart);
    var st := ArrangeFrom(slots, bound, 0, ArrangeStart);
    if st.first < |slots| {
      CloseArrangedInv(|slots|, st, |slots|, st.line.indirect, st.line);
    }
  }

  /** The arrange pass's lines partition the children into contiguous runs in
      order, and each line's indirect offset is the sum of the indirect
      extents of the lines before it. */
  lemma ArrangeLinesLayout(slots: seq<Option<OrientedSize>>, bound: Extent)
    ensures var lines := ArrangeLines(slots, bound);
      && (|slots| > 0 ==> |lines| > 0 && lines[0].span.start == 0 && lines[|lines| - 1].span.end == |slots|)
      && (forall j :: 0 <= j < |lines| ==> lines[j].span.start <= lines[j].span.end <= |slots|)
      && (forall i, j :: 0 <= i && j == i + 1 && j < |lines| ==> lines[i].span.end == lines[j].span.start)
      && (forall j :: 0 <= j < |lines| ==> lines[j].offset == SumExtents(lines[..j]))
      && (NonNegative(slots) && (forall k :: 0 <= k < |slots| && slots[k].Some? ==> !Exceeds(slots[k].value.direct, bound)) ==>
            Spans(lines) == Lines(slots, bound) && ExtentsMatch(slots, lines))
  {
    var lines := ArrangeLines(slots, bound);
    if NonNegative(slots) && (forall k :: 0 <= k < |slots| && slots[k].Some? ==> !Exceeds(slots[k].value.direct, bound)) {
      ArrangeLinesWithoutOversized(slots, bound);
    }
    ArrangeLinesTile(slots, bound);
    var spans := Spans(lines);
    TilesWithin(spans, 0, |slots|);
    forall j | 0 <= j < |lines| ensures spans[j] == lines[j].span {
      SpansAt(lines, j);
    }
    forall j | 0 <= j < |lines| ensures lines[j].offset == SumExtents(lines[..j]) {
      StackedAt(lines, j);
    }
    if |slots| > 0 {
      assert |spans| > 0;
    }
  }

  /** When no child alone exceeds the bound, the skip never fires and the
      arrange pass lays out the lines of the measure pass. */
  lemma ArrangeLinesWithoutOversized(slots: seq<Option<OrientedSize>>, bound: Extent)
    requires NonNegative(slots)
    requires forall k :: 0 <= k < |slots| && slots[k].Some? ==> !Exceeds(slots[k].value.direct, bound)
    ensures ArrangeLines(slots, bound) == ArrangeLinesFixed(slots, bound)
    ensures Spans(ArrangeLines(slots, bound)) == Lines(slots, bound) && ExtentsMatch(slots, ArrangeLines(slots, bound))
  {
    ArrangeAgreesUntilOversized(slots, bound, 0, |slots|, ArrangeStart);
    assert slots[..|slots|] == slots;
    FixedArrangeMatchesMeasure(slots, bound);
  }

  // ---------------------------------------------------------------------------
  // Placement of the children of one line

  /** How far a child advances the direct offset: the fixed item size if
      set, else its desired direct extent. */
  function Growth(o: Orientation, itemDirect: Option<real>, desired: Size): real {
    itemDirect.GetOr(DirectOf(o, desired))
  }

  /** The rectangle at a direct and indirect offset, axes per orientation. */
  function LineRect(o: Orientation, direct: real, indirect: real, growth: real, extent: real): (r: Rect)
    ensures o == Horizontal ==> r == Rect(direct, indirect, growth, extent)
    ensures o == Vertical ==> r == Rect(indirect, direct, extent, growth)
  {
    if o == Horizontal then Rect(direct, indirect, growth, extent) else Rect(indirect, direct, extent, growth)
  }

  /** The direct offset of child `k` in a line starting at `start`: the
      growths of the non-null children before it. */
  function DirectOffset(children: seq<Option<Size>>, o: Orientation, itemDirect: Option<real>, start: nat, k: nat): real
    requires start <= k <= |children|
    decreases k
  {
    if k == start then 0.0
    else
      DirectOffset(children, o, itemDirect, start, k - 1) +
        match children[k - 1]
        case None => 0.0
        case Some(d) => Growth(o, itemDirect, d)
  }

  /** The arrange call `ArrangeLine` makes for child `k` of `line`: none for a null child. */
  function LineCall(children: seq<Option<Size>>, o: Orientation, itemDirect: Option<real>, line: LineSlot, k: nat): seq<Placement>
    requires line.span.start <= k < |children|
  {
    match children[k]
    case None => []
    case Some(d) =>
      [Placement(k, LineRect(o, DirectOffset(children, o, itemDirect, line.span.start, k), line.offset, Growth(o, itemDirect, d), line.extent))]
  }

  /** The arrange calls `ArrangeLine` makes for the children of `line` before index `k`. */
  function LinePlacementsUpTo(children: seq<Option<Size>>, o: Orientation, itemDirect: Option<real>, line: LineSlot, k: nat): seq<Placement>
    requires line.span.start <= k <= |children|
    decreases k
  {
    if k == line.span.start then []
    else LinePlacementsUpTo(children, o, itemDirect, line, k - 1) + LineCall(children, o, itemDirect, line, k - 1)
  }

  /** The arrange calls `ArrangeLine` makes for all children of `line`. */
  function LinePlacements(children: seq<Option<Size>>, o: Orientation, itemDirect: Option<real>, line: LineSlot): seq<Placement> {
    if line.span.start <= line.span.end <= |children| then LinePlacementsUpTo(children, o, itemDirect, line, line.span.end)
    else []
  }

  /** The arrange calls of a whole pass, line by line. */
  function Placements(children: seq<Option<Size>>, o: Orientation, itemDirect: Option<real>, lines: seq<LineSlot>): seq<Placement>
    decreases |lines|
  {
    if |lines| == 0 then []
    else Placements(children, o, itemDirect, lines[..|lines| - 1]) + LinePlacements(children, o, itemDirect, lines[|lines| - 1])
  }

  lemma PlacementsAppend(children: seq<Option<Size>>, o: Orientation, itemDirect: Option<real>, lines: seq<LineSlot>, x: LineSlot)
    ensures Placements(children, o, itemDirect, lines + [x]) ==
      Placements(children, o, itemDirect, lines) + LinePlacements(children, o, itemDirect, x)
  {
    assert (lines + [x])[..|lines|] == lines;
  }

  /** The arrange calls of a line are on its non-null children, in index order. */
  lemma {:induction false} LinePlacementsIndices(children: seq<Option<Size>>, o: Orientation, itemDirect: Option<real>, line: LineSlot, k: nat)
    requires line.span.start <= k <= |children|
    ensures Indices(LinePlacementsUpTo(children, o, itemDirect, line, k)) == NonNullIn(children, line.span.start, k)
    decreases k
  {
    if k > line.span.start {
      LinePlacementsIndices(children, o, itemDirect, line, k - 1);
      IndicesConcat(LinePlacementsUpTo(children, o, itemDirect, line, k - 1), LineCall(children, o, itemDirect, line, k - 1));
    }
  }

  /** Every arrange call of a line is on a non-null child of the line, at
      the direct offset its predecessors reach, sharing the line's indirect
      offset and extent. */
  lemma {:induction false} LinePlacementsGeometry(children: seq<Option<Size>>, o: Orientation, itemDirect: Option<real>, line: LineSlot, k: nat)
    requires line.span.start <= k <= |children|
    ensures forall p :: p in LinePlacementsUpTo(children, o, itemDirect, line, k) ==>
      && line.span.start <= p.index < k
      && children[p.index].Some?
      && p.rect == LineRect(o, DirectOffset(children, o, itemDirect, line.span.start, p.index),
                            line.offset, Growth(o, itemDirect, children[p.index].value), line.extent)
    decreases k
  {
    if k > line.span.start {
      LinePlacementsGeometry(children, o, itemDirect, line, k - 1);
    }
  }

  /** Lines that tile `[0, m)` arrange every non-null child below `m` exactly once, in index order. */
  lemma {:induction false} PlacementsInOrder(children: seq<Option<Size>>, o: Orientation, itemDirect: Option<real>, lines: seq<LineSlot>, m: nat)
    requires m <= |children| && Tiles(Spans(lines), 0, m)
    ensures Indices(Placements(children, o, itemDirect, lines)) == NonNullIn(children, 0, m)
    decreases |lines|
  {
    if |lines| > 0 {
      var prefix := lines[..|lines| - 1];
      var last := lines[|lines| - 1];
      SpansAppend(prefix, last);
      assert prefix + [last] == lines;
      assert (Spans(prefix) + [last.span])[..|prefix|] == Spans(prefix);
      PlacementsInOrder(children, o, itemDirect, prefix, last.span.start);
      TilesWithin(Spans(prefix), 0, last.span.start);
      LinePlacementsIndices(children, o, itemDirect, last, last.span.end);
      IndicesConcat(Placements(children, o, itemDirect, prefix), LinePlacements(children, o, itemDirect, last));
      NonNullInSplit(children, 0, last.span.start, m);
    } else {
      assert NonNullIn(children, 0, m) == [];
    }
  }

  /** The arrange calls of a whole pass on `children` against a final size. */
  function Arranged(o: Orientation, itemWidth: Option<real>, itemHeight: Option<real>, children: seq<Option<Size>>, finalSize: Size): seq<Placement> {
    Placements(children, o, ItemDirect(o, itemWidth, itemHeight),
      ArrangeLines(Slots(o, itemWidth, itemHeight, children), Bounded(DirectOf(o, finalSize))))
  }

  /** An arrange pass calls `Arrange` exactly once on each non-null child, in index order. */
  lemma ArrangedOnceInOrder(o: Orientation, itemWidth: Option<real>, itemHeight: Option<real>, children: seq<Option<Size>>, finalSize: Size)
    ensures Indices(Arranged(o, itemWidth, itemHeight, children, finalSize)) == NonNullIndices(children)
  {
    var lines := ArrangeLines(Slots(o, itemWidth, itemHeight, children), Bounded(DirectOf(o, finalSize)));
    ArrangeLinesTile(Slots(o, itemWidth, itemHeight, children), Bounded(DirectOf(o, finalSize)));
    PlacementsInOrder(children, o, ItemDirect(o, itemWidth, itemHeight), lines, |children|);
  }

  // ---------------------------------------------------------------------------
  // The arrange loop of the panels, one iteration at a time

  /** What a panel's arrange loop keeps: resuming `ArrangeFrom` at `i` in
      state `st` ends where the whole loop does, and the calls made so far
      are those of the lines closed so far. */
  ghost predicate ArrangeLoopInv(children: seq<Option<Size>>, o: Orientation, itemDirect: Option<real>,
                                 slots: seq<Option<OrientedSize>>, bound: Extent, i: nat, st: ArrangeState, placements: seq<Placement>)
  {
    && ArrangeFrom(slots, bound, i, st) == ArrangeFrom(slots, bound, 0, ArrangeStart)
    && placements == Placements(children, o, itemDirect, st.lines)
  }

  /** A null child, or one that fits the open line, makes no call; the loop
      goes on at `i + 1` in state `next`. */
  lemma NextKeepsLoopInv(children: seq<Option<Size>>, o: Orientation, itemDirect: Option<real>,
                         slots: seq<Option<OrientedSize>>, bound: Extent, i: nat, st: ArrangeState, placements: seq<Placement>,
                         next: ArrangeState)
    requires i < |slots| && ArrangeLoopInv(children, o, itemDirect, slots, bound, i, st, placements)
    requires slots[i].Some? ==> !Exceeds(st.line.direct + slots[i].value.direct, bound)
    requires next == if slots[i].None? then st else st.(line := Extend(st.line, slots[i].value))
    ensures ArrangeLoopInv(children, o, itemDirect, slots, bound, i + 1, next, placements)
  {
    ArrangeFromNext(slots, bound, i, st);
  }

  /** A child that overflows the open line closes it with the calls `ps` of
      that line; the loop goes on at `i + 1` in state `next`. */
  lemma BreakKeepsLoopInv(children: seq<Option<Size>>, o: Orientation, itemDirect: Option<real>,
                          slots: seq<Option<OrientedSize>>, bound: Extent, i: nat, st: ArrangeState, placements: seq<Placement>,
                          ps: seq<Placement>, next: ArrangeState)
    requires i < |slots| && ArrangeLoopInv(children, o, itemDirect, slots, bound, i, st, placements)
    requires slots[i].Some? && Exceeds(st.line.direct + slots[i].value.direct, bound) && !Exceeds(slots[i].value.direct, bound)
    requires ps == LinePlacements(children, o, itemDirect, LineSlot(Span(st.first, i), st.offset, st.line.indirect))
    requires next == CloseArranged(st, i, st.line.indirect).(first := i, line := slots[i].value)
    ensures ArrangeLoopInv(children, o, itemDirect, slots, bound, i + 1, next, placements + ps)
  {
    ArrangeFromBreak(slots, bound, i, st);
    PlacementsAppend(children, o, itemDirect, st.lines, LineSlot(Span(st.first, i), st.offset, st.line.indirect));
  }

  /** A child that alone exceeds the bound closes the open line with the
      calls `ps`, then its own line with the calls `qs`; the loop goes on
      two children further on, at `i + 2`, in state `next`. */
  lemma OversizedKeepsLoopInv(children: seq<Option<Size>>, o: Orientation, itemDirect: Option<real>,
                              slots: seq<Option<OrientedSize>>, bound: Extent, i: nat, st: ArrangeState, placements: seq<Placement>,
                              ps: seq<Placement>, qs: seq<Placement>, next: ArrangeState)
    requires i < |slots| && ArrangeLoopInv(children, o, itemDirect, slots, bound, i, st, placements)
    requires slots[i].Some? && Exceeds(st.line.direct + slots[i].value.direct, bound) && Exceeds(slots[i].value.direct, bound)
    requires ps == LinePlacements(children, o, itemDirect, LineSlot(Span(st.first, i), st.offset, st.line.indirect))
    requires qs == LinePlacements(children, o, itemDirect, LineSlot(Span(i, i + 1), st.offset + st.line.indirect, slots[i].value.indirect))
    requires next == CloseArranged(CloseArranged(st, i, st.line.indirect).(first := i, line := slots[i].value), i + 1,
                                   slots[i].value.indirect).(first := i + 1, line := Zero)
    ensures ArrangeLoopInv(children, o, itemDirect, slots, bound, i + 2, next, placements + ps + qs)
  {
    ArrangeFromOversized(slots, bound, i, st);
    var closed := CloseArranged(st, i, st.line.indirect).(first := i, line := slots[i].value);
    PlacementsAppend(children, o, itemDirect, st.lines, LineSlot(Span(st.first, i), st.offset, st.line.indirect));
    PlacementsAppend(children, o, itemDirect, closed.lines, LineSlot(Span(i, i + 1), closed.offset, slots[i].value.indirect));
  }

  /** Once the loop has passed every child, arranging the open line (if it
      holds any child) completes the calls of the whole pass. */
  lemma LoopEndArranged(o: Orientation, itemWidth: Option<real>, itemHeight: Option<real>, children: seq<Option<Size>>, finalSize: Size,
                        i: nat, st: ArrangeState, placements: seq<Placement>)
    requires |children| <= i
    requires ArrangeLoopInv(children, o, ItemDirect(o, itemWidth, itemHeight), Slots(o, itemWidth, itemHeight, children),
                            Bounded(DirectOf(o, finalSize)), i, st, placements)
    ensures st.first < |children| ==>
      placements + LinePlacements(children, o, ItemDirect(o, itemWidth, itemHeight), LineSlot(Span(st.first, |children|), st.offset, st.line.indirect)) ==
      Arranged(o, itemWidth, itemHeight, children, finalSize)
    ensures |children| <= st.first ==> placements == Arranged(o, itemWidth, itemHeight, children, finalSize)
  {
    if st.first < |children| {
      PlacementsAppend(children, o, ItemDirect(o, itemWidth, itemHeight), st.lines, LineSlot(Span(st.first, |children|), st.offset, st.line.indirect));
    }
  }

  // ---------------------------------------------------------------------------
  // Measure and arrange disagree after an oversized child

  /** The children of the disagreement example below, with their direct and indirect extents. */
  const SkipExample: seq<Option<OrientedSize>> :=
    [Some(OrientedSize(150.0, 10.0)), Some(OrientedSize(80.0, 40.0)), Some(OrientedSize(80.0, 30.0))]

  /** Measure gives the oversized child and each of the 80s a line of its own. */
  lemma SkipExampleMeasureLines()
    ensures Lines(SkipExample, Bounded(100.0)) == [Span(0, 0), Span(0, 1), Span(1, 2), Span(2, 3)]
  {
    SkipExampleWrap(SkipExample, Bounded(100.0));
  }

  /** The partition of the example, one child at a time. */
  lemma SkipExampleWrap(s: seq<Option<OrientedSize>>, b: Extent)
    requires s == SkipExample && b == Bounded(100.0)
    ensures Lines(s, b) == [Span(0, 0), Span(0, 1), Span(1, 2), Span(2, 3)]
  {
    var closed := [Span(0, 0), Span(0, 1)];
    assert s[..0] == [] && s[0..0] == [];
    WrapAppendOversized(s, b, 0);
    assert Wrap(s[..1], b) == Wrapping(closed, 1);
    assert s[1..1] == [];
    WrapAppendNext(s, b, 1);
    assert Wrap(s[..2], b) == Wrapping(closed, 1);
    assert s[1..2] == [s[1]] && [s[1]][..0] == [];
    assert LineSize(s[1..2]) == OrientedSize(80.0, 40.0);
    WrapAppendBreak(s, b, 2);
    assert s[..3] == s;
    assert Wrap(s, b) == Wrapping(closed + [Span(1, 2)], 2);
  }

  /** Arrange skips the first 80 when it steps past the oversized child. */
  lemma SkipExampleArrangeLines()
    ensures ArrangeLines(SkipExample, Bounded(100.0)) ==
      [LineSlot(Span(0, 0), 0.0, 0.0), LineSlot(Span(0, 1), 0.0, 10.0), LineSlot(Span(1, 3), 10.0, 30.0)]
  {
    var s := SkipExample;
    var b := Bounded(100.0);
    var st0 := ArrangeState(0, OrientedSize(150.0, 10.0), 0.0, [LineSlot(Span(0, 0), 0.0, 0.0)]);
    var st1 := ArrangeState(1, Zero, 10.0, [LineSlot(Span(0, 0), 0.0, 0.0), LineSlot(Span(0, 1), 0.0, 10.0)]);
    var st2 := st1.(line := OrientedSize(80.0, 30.0));
    assert CloseArranged(ArrangeStart, 0, 0.0).(first := 0, line := OrientedSize(150.0, 10.0)) == st0;
    assert CloseArranged(st0, 1, 10.0).(first := 1, line := Zero) == st1;
    assert ArrangeFrom(s, b, 0, ArrangeStart) == ArrangeFrom(s, b, 2, st1);
    assert ArrangeFrom(s, b, 2, st1) == ArrangeFrom(s, b, 3, st2);
  }

  /** Into a bound of 100: a child of direct extent 150, then two of 80.
      Measure gives the two 80s a line each; arrange, having skipped the
      first 80 after the oversized child, puts both on one line whose
      direct extent is 160 and whose indirect extent (30) is smaller than
      the first of them (40). */
  lemma ArrangeSkipsAfterOversized()
    ensures
      var b := Bounded(100.0);
      && Spans(ArrangeLines(SkipExample, b)) != Lines(SkipExample, b)
      && ArrangeLines(SkipExample, b)[2] == LineSlot(Span(1, 3), 10.0, 30.0)
      && !Fits(SkipExample, Span(1, 3), b) && !Oversized(SkipExample, Span(1, 3), b)
      && LineAt(SkipExample, Span(1, 3)).indirect == 40.0
  {
    var s := SkipExample;
    SkipExampleMeasureLines();
    SkipExampleArrangeLines();
    assert |Spans(ArrangeLines(s, Bounded(100.0)))| == 3;
    var t := s[1..3];
    assert t[..1] == [s[1]] && [s[1]][..0] == [];
    assert LineSize([s[1]]) == OrientedSize(80.0, 40.0);
    assert LineSize(t) == OrientedSize(160.0, 40.0);
  }

  // ---------------------------------------------------------------------------
  // The arrangement without the skip

  /** One iteration of the arrange loop without the second index advance. */
  function FixedStep(slots: seq<Option<OrientedSize>>, bound: Extent, i: nat, st: ArrangeState): ArrangeState
    requires i < |slots|
  {
    match slots[i]
    case None => st
    case Some(sz) =>
      if Exceeds(st.line.direct + sz.direct, bound) then
        var closed := CloseArranged(st, i, st.line.indirect).(first := i, line := sz);
        if Exceeds(sz.direct, bound) then CloseArranged(closed, i + 1, sz.indirect).(first := i + 1, line := Zero)
        else closed
      else
        st.(line := Extend(st.line, sz))
  }

  function ArrangeFromFixed(slots: seq<Option<OrientedSize>>, bound: Extent, i: nat, st: ArrangeState): ArrangeState
    requires i <= |slots|
    decreases |slots| - i
  {
    if i == |slots| then st else ArrangeFromFixed(slots, bound, i + 1, FixedStep(slots, bound, i, st))
  }

  lemma FixedStepInv(slots: seq<Option<OrientedSize>>, bound: Extent, i: nat, st: ArrangeState)
    requires i < |slots| && st.first <= i && ArrangeInv(|slots|, st)
    ensures FixedStep(slots, bound, i, st).first <= i + 1 && ArrangeInv(|slots|, FixedStep(slots, bound, i, st))
  {
    var r := FixedStep(slots, bound, i, st);
    if slots[i].None? {
      assert r == st;
    } else if !Exceeds(st.line.direct + slots[i].value.direct, bound) {
      ArrangeInvAnyLine(|slots|, st, Extend(st.line, slots[i].value));
      assert r == st.(line := Extend(st.line, slots[i].value));
    } else {
      var sz := slots[i].value;
      var closed := CloseArranged(st, i, st.line.indirect).(first := i, line := sz);
      CloseArrangedInv(|slots|, st, i, st.line.indirect, sz);
      if Exceeds(sz.direct, bound) {
        CloseArrangedInv(|slots|, closed, i + 1, sz.indirect, Zero);
        assert r == CloseArranged(closed, i + 1, sz.indirect).(first := i + 1, line := Zero);
      } else {
        assert r == closed;
      }
    }
  }

  lemma {:induction false} ArrangeFromFixedInv(slots: seq<Option<OrientedSize>>, bound: Extent, i: nat, st: ArrangeState)
    requires st.first <= i <= |slots| && ArrangeInv(|slots|, st)
    ensures ArrangeInv(|slots|, ArrangeFromFixed(slots, bound, i, st))
    decreases |slots| - i
  {
    if i < |slots| {
      FixedStepInv(slots, bound, i, st);
      ArrangeFromFixedInv(slots, bound, i + 1, FixedStep(slots, bound, i, st));
    }
  }

  /** The lines of the arrange pass with the index skip removed. */
  function ArrangeLinesFixed(slots: seq<Option<OrientedSize>>, bound: Extent): seq<LineSlot> {
    var st := ArrangeFromFixed(slots, bound, 0, ArrangeStart);
    if st.first < |slots| then CloseArranged(st, |slots|, st.line.indirect).lines else st.lines
  }

  /** These lines tile all children and stack up. */
  lemma ArrangeLinesFixedTile(slots: seq<Option<OrientedSize>>, bound: Extent)
    ensures Tiles(Spans(ArrangeLinesFixed(slots, bound)), 0, |slots|) && Stacked(ArrangeLinesFixed(slots, bound))
  {
    ArrangeFromFixedInv(slots, bound, 0, ArrangeStart);
    var st := ArrangeFromFixed(slots, bound, 0, ArrangeStart);
    if st.first < |slots| {
      CloseArrangedInv(|slots|, st, |slots|, st.line.indirect, st.line);
    }
  }

  /** Each line's indirect extent is the largest indirect extent among its children. */
  ghost predicate ExtentsMatch(slots: seq<Option<OrientedSize>>, lines: seq<LineSlot>)
    decreases |lines|
  {
    |lines| == 0 ||
    (ExtentsMatch(slots, lines[..|lines| - 1]) && lines[|lines| - 1].extent == LineAt(slots, lines[|lines| - 1].span).indirect)
  }

  lemma ExtentsMatchAppend(slots: seq<Option<OrientedSize>>, lines: seq<LineSlot>, x: LineSlot)
    requires ExtentsMatch(slots, lines) && x.extent == LineAt(slots, x.span).indirect
    ensures ExtentsMatch(slots, lines + [x])
  {
    assert (lines + [x])[..|lines|] == lines;
  }

  /** The arrange loop's state after `i` children agrees with the greedy partition of the first `i`. */
  ghost predicate MatchesWrap(slots: seq<Option<OrientedSize>>, bound: Extent, i: nat, st: ArrangeState)
    requires i <= |slots|
  {
    var w := Wrap(slots[..i], bound);
    && st.first == w.open
    && Spans(st.lines) == w.closed
    && ExtentsMatch(slots, st.lines)
    && st.line == LineSize(slots[w.open..i])
  }

  /** Closing the open line at `i` in both the loop state and the partition keeps them in step. */
  lemma CloseMatchesWrap(slots: seq<Option<OrientedSize>>, st: ArrangeState, w: Wrapping, i: nat)
    requires i <= |slots| && w.open <= i && st.first == w.open && Spans(st.lines) == w.closed
    requires ExtentsMatch(slots, st.lines) && st.line == LineSize(slots[w.open..i])
    ensures var c := CloseArranged(st, i, st.line.indirect);
      Spans(c.lines) == w.closed + [Span(w.open, i)] && ExtentsMatch(slots, c.lines)
  {
    var x := LineSlot(Span(st.first, i), st.offset, st.line.indirect);
    SpansAppend(st.lines, x);
    ExtentsMatchAppend(slots, st.lines, x);
  }

  /** The loop state `st2` matches the partition `w2` of the first `i + 1` children. */
  lemma MatchesWrapAt(slots: seq<Option<OrientedSize>>, bound: Extent, i: nat, st2: ArrangeState, w2: Wrapping)
    requires i < |slots| && Wrap(slots[..i + 1], bound) == w2 && w2.open <= i + 1
    requires st2.first == w2.open && Spans(st2.lines) == w2.closed && ExtentsMatch(slots, st2.lines)
    requires st2.line == LineSize(slots[w2.open..i + 1])
    ensures MatchesWrap(slots, bound, i + 1, st2)
  {
  }

  /** A child that would overflow the open line: both close it at `i`. */
  lemma BreakMatchesWrap(slots: seq<Option<OrientedSize>>, bound: Extent, i: nat, st: ArrangeState)
    requires i < |slots| && slots[i].Some? && NonNegative(slots) && MatchesWrap(slots, bound, i, st)
    requires Exceeds(st.line.direct + slots[i].value.direct, bound)
    ensures var w := Wrap(slots[..i], bound);
      var closed := CloseArranged(st, i, st.line.indirect).(first := i, line := slots[i].value);
      && Spans(closed.lines) == w.closed + [Span(w.open, i)] && ExtentsMatch(slots, closed.lines)
      && closed.line == LineSize(slots[i..i + 1])
  {
    var w := Wrap(slots[..i], bound);
    LineSizeSingle(slots, i);
    CloseMatchesWrap(slots, st, w, i);
  }

  lemma FixedNextMatchesWrap(slots: seq<Option<OrientedSize>>, bound: Extent, i: nat, st: ArrangeState)
    requires i < |slots| && NonNegative(slots) && MatchesWrap(slots, bound, i, st)
    requires slots[i].Some? ==> !Exceeds(st.line.direct + slots[i].value.direct, bound)
    ensures MatchesWrap(slots, bound, i + 1, FixedStep(slots, bound, i, st))
  {
    WrapAppendNext(slots, bound, i);
    var w := Wrap(slots[..i], bound);
    LineSizeAppend(slots, w.open, i);
    var r := FixedStep(slots, bound, i, st);
    if slots[i].None? {
      assert r == st;
    } else {
      assert r == st.(line := Extend(st.line, slots[i].value));
    }
    MatchesWrapAt(slots, bound, i, r, w);
  }

  lemma FixedBreakMatchesWrap(slots: seq<Option<OrientedSize>>, bound: Extent, i: nat, st: ArrangeState)
    requires i < |slots| && NonNegative(slots) && MatchesWrap(slots, bound, i, st)
    requires slots[i].Some? && Exceeds(st.line.direct + slots[i].value.direct, bound) && !Exceeds(slots[i].value.direct, bound)
    ensures MatchesWrap(slots, bound, i + 1, FixedStep(slots, bound, i, st))
  {
    var w := Wrap(slots[..i], bound);
    WrapAppendBreak(slots, bound, i);
    BreakMatchesWrap(slots, bound, i, st);
    var r := FixedStep(slots, bound, i, st);
    assert r == CloseArranged(st, i, st.line.indirect).(first := i, line := slots[i].value);
    MatchesWrapAt(slots, bound, i, r, Wrapping(w.closed + [Span(w.open, i)], i));
  }

  lemma FixedOversizedMatchesWrap(slots: seq<Option<OrientedSize>>, bound: Extent, i: nat, st: ArrangeState)
    requires i < |slots| && NonNegative(slots) && MatchesWrap(slots, bound, i, st)
    requires slots[i].Some? && Exceeds(st.line.direct + slots[i].value.direct, bound) && Exceeds(slots[i].value.direct, bound)
    ensures MatchesWrap(slots, bound, i + 1, FixedStep(slots, bound, i, st))
  {
    var w := Wrap(slots[..i], bound);
    WrapAppendOversized(slots, bound, i);
    var sz := slots[i].value;
    BreakMatchesWrap(slots, bound, i, st);
    var w1 := Wrapping(w.closed + [Span(w.open, i)], i);
    var closed := CloseArranged(st, i, st.line.indirect).(first := i, line := sz);
    var r := FixedStep(slots, bound, i, st);
    assert r == CloseArranged(closed, i + 1, closed.line.indirect).(first := i + 1, line := Zero);
    OversizedCloseMatchesWrap(slots, closed, w1, i);
    MatchesWrapAt(slots, bound, i, r, Wrapping(w1.closed + [Span(i, i + 1)], i + 1));
  }

  /** Closing the oversized child's own line keeps the loop state and the partition in step. */
  lemma OversizedCloseMatchesWrap(slots: seq<Option<OrientedSize>>, closed: ArrangeState, w1: Wrapping, i: nat)
    requires i < |slots| && closed.first == i && w1.open == i
    requires Spans(closed.lines) == w1.closed && ExtentsMatch(slots, closed.lines) && closed.line == LineSize(slots[i..i + 1])
    ensures var r := CloseArranged(closed, i + 1, closed.line.indirect).(first := i + 1, line := Zero);
      && Spans(r.lines) == w1.closed + [Span(i, i + 1)] && ExtentsMatch(slots, r.lines)
      && r.line == LineSize(slots[i + 1..i + 1])
  {
    CloseMatchesWrap(slots, closed, w1, i + 1);
    assert slots[i + 1..i + 1] == [];
  }

  /** One step of the arrange loop without the skip keeps it in step with the partition. */
  lemma FixedStepMatchesWrap(slots: seq<Option<OrientedSize>>, bound: Extent, i: nat, st: ArrangeState)
    requires i < |slots| && NonNegative(slots) && MatchesWrap(slots, bound, i, st)
    ensures MatchesWrap(slots, bound, i + 1, FixedStep(slots, bound, i, st))
  {
    if slots[i].None? || !Exceeds(st.line.direct + slots[i].value.direct, bound) {
      FixedNextMatchesWrap(slots, bound, i, st);
    } else if Exceeds(slots[i].value.direct, bound) {
      FixedOversizedMatchesWrap(slots, bound, i, st);
    } else {
      FixedBreakMatchesWrap(slots, bound, i, st);
    }
  }

  lemma {:induction false} FixedRunMatchesWrap(slots: seq<Option<OrientedSize>>, bound: Extent, i: nat, st: ArrangeState)
    requires i <= |slots| && NonNegative(slots) && MatchesWrap(slots, bound, i, st)
    ensures MatchesWrap(slots, bound, |slots|, ArrangeFromFixed(slots, bound, i, st))
    decreases |slots| - i
  {
    if i < |slots| {
      FixedStepMatchesWrap(slots, bound, i, st);
      FixedRunMatchesWrap(slots, bound, i + 1, FixedStep(slots, bound, i, st));
    }
  }

  /** Without the skip, arrange lays out exactly the lines the measure pass
      accounts for, each as tall (indirectly) as its largest child. */
  lemma FixedArrangeMatchesMeasure(slots: seq<Option<OrientedSize>>, bound: Extent)
    requires NonNegative(slots)
    ensures Spans(ArrangeLinesFixed(slots, bound)) == Lines(slots, bound)
    ensures ExtentsMatch(slots, ArrangeLinesFixed(slots, bound))
  {
    assert slots[..0] == [] && slots[0..0] == [];
    assert MatchesWrap(slots, bound, 0, ArrangeStart);
    FixedRunMatchesWrap(slots, bound, 0, ArrangeStart);
    assert slots[..|slots|] == slots;
    var st := ArrangeFromFixed(slots, bound, 0, ArrangeStart);
    if st.first < |slots| {
      var x := LineSlot(Span(st.first, |slots|), st.offset, st.line.indirect);
      SpansAppend(st.lines, x);
      ExtentsMatchAppend(slots, st.lines, x);
    }
  }

  /** Up to the first child that alone exceeds the bound, the arrange loop
      as written takes the same steps as the loop without the skip: running
      it from `i` is running the skip-free loop over the children before
      `n`, then the loop as written from `n` on. */
  lemma {:induction false} ArrangeAgreesUntilOversized(slots: seq<Option<OrientedSize>>, bound: Extent, i: nat, n: nat, st: ArrangeState)
    requires i <= n <= |slots|
    requires forall k :: i <= k < n && slots[k].Some? ==> !Exceeds(slots[k].value.direct, bound)
    ensures ArrangeFrom(slots, bound, i, st) == ArrangeFrom(slots, bound, n, ArrangeFromFixed(slots[..n], bound, i, st))
    decreases n - i
  {
    if i < n {
      assert slots[..n][i] == slots[i];
      assert FixedStep(slots[..n], bound, i, st) == FixedStep(slots, bound, i, st);
      ArrangeAgreesUntilOversized(slots, bound, i + 1, n, FixedStep(slots, bound, i, st));
    }
  }
}
