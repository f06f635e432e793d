# SoftwareKobo.UI layout panels and visibility converter, modelled in Dafny

This project models the core of the SoftwareKobo.UI control library. The library exists twice: a shared copy for Windows and Windows Phone (`SoftwareKobo.UI.Shared`) and a Windows Runtime copy (`SoftwareKobo.UI.WinRT`). Each copy has three classes in the core:

- **WrapPanel** flows its children into lines along its `Orientation`. A child that would overflow the open line starts a new one. A child that is too long on its own gets a line of its own. `ItemWidth` and `ItemHeight` can fix the size of every child's layout slot.
- **DockPanel** docks each child to a side (`Left`, `Top`, `Right`, `Bottom`) of the space the children before it leave over. With `LastChildFill`, the last child gets all of what remains.
- **VisibilityToBooleanConverter** converts `Visibility` to `bool` and back, for data binding.

The model has one module per source class, plus shared ones:

- `Host`: the framework's value types. These are sizes, available sizes that may be infinite, rectangles, the values a `double` property may be assigned (NaN, ±infinity, finite), enumeration values that may name no member, and boxed converter arguments. It also holds records of the `Measure` and `Arrange` calls a panel makes into its children.
- `WrapLayout` and `DockLayout`: each layout algorithm as pure functions on values, with the lemmas that characterise them. Both copies of a panel share them.
- `SharedWrapPanel`, `WinRTWrapPanel`, `SharedDockPanel` and `WinRTDockPanel`: each panel as a class.
  - Its dependency properties are fields.
  - Its property setters and change callbacks are methods that update those fields.
  - `MeasureOverride` and `ArrangeOverride` are methods with the source's loops. Each is proved against the layout functions.
- `SharedConverter` and `WinRTConverter`: the two converters, as functions on boxed values.

Children are given to the panels as the desired sizes they report after being measured, with `None` for a null child. A dock panel child also carries its `Dock` value. What a pass does to its children is returned as the sequence of calls it makes, in order.

What is proved, in the panel's own terms:

- **WrapPanel measure.** The measure loop computes the greedy first-fit line partition (`Lines`). The lines cover every child once, in order. The reported size is the direct extent of the widest line by the summed indirect extents of the lines (`MeasuredIsLines`). Every line fits the bound or holds one oversized child (`LinesFit`).
- **WrapPanel arrange.** The arrange pass calls `Arrange` exactly once on each non-null child, in order. Its lines tile the children and stack up along the indirect axis.
- **The arrange index skip.** Both sources advance the index a second time after an oversized child. The model reproduces this exactly and exhibits an input where the arranged lines differ from the measured ones. Up to the first oversized child, the pass as written takes the same steps as the pass without the skip. So when no child alone exceeds the bound, it lays out exactly the measured lines. The arrangement without the skip is proved to reproduce the measured lines for every input (see Findings).
- **DockPanel measure.** The measured size is the least size that covers the docked children. Each child is measured against what the children before it left over.
- **DockPanel arrange.** The loop is proved equal to a closed form in which each child's rectangle depends on the sums of the extents docked to each side before it. With `LastChildFill`, the last child fills what remains. When the final size is at least the measured size, every arranged rectangle lies inside it.
- **Converters.** Both converters round-trip. The Windows Runtime converter throws exactly where the shared one falls back to its default. It also unboxes a boxed `Int32` as the visibility it numbers, which the shared one's exact type test rejects. Apart from that one case, the two agree wherever the Windows Runtime one does not throw.

## Model

| member | source | states |
|---|---|---|
| WrapLayout.Orient | SoftwareKobo.UI/SoftwareKobo.UI.Shared/Controls/WrapPanel.cs:267-325 | The `Width` and `Height` getters of an oriented size read back the width and height it was built from, in either orientation. |
| WrapLayout.OrientOfGetters | SoftwareKobo.UI/SoftwareKobo.UI.Shared/Controls/WrapPanel.cs:267-325 | Rebuilding an oriented size from its own `Width` and `Height` getters gives the same direct and indirect extents. |
| WrapLayout.SizeOf | SoftwareKobo.UI/SoftwareKobo.UI.Shared/Controls/WrapPanel.cs:210-211 | The size reported to the host, oriented again, is the panel's oriented total. |
| WrapLayout.ItemSizeSetting | SoftwareKobo.UI/SoftwareKobo.UI.Shared/Controls/WrapPanel.cs:214-227 | An item size is accepted iff it is NaN or a positive finite number. NaN means unset. Zero, negatives and ±infinity fail with an argument error. |
| WrapLayout.SlotSize | SoftwareKobo.UI/SoftwareKobo.UI.Shared/Controls/WrapPanel.cs:181-184 | A child's slot is as wide as the item width if set, else its desired width; likewise for height. |
| WrapLayout.SlotsNonNegative | SoftwareKobo.UI/SoftwareKobo.UI.Shared/Controls/WrapPanel.cs:181-184 | Valid item sizes and non-negative desired sizes give slots of non-negative extent. |
| WrapLayout.MeasureIgnoresNull | SoftwareKobo.UI/SoftwareKobo.UI.Shared/Controls/WrapPanel.cs:171-175 | Inserting a null child anywhere leaves every running size of the measure loop unchanged. |
| WrapLayout.LinesTile | SoftwareKobo.UI/SoftwareKobo.UI.Shared/Controls/WrapPanel.cs:186-208 | The measured lines are contiguous, in order, and cover every child exactly once. |
| WrapLayout.MeasuredIsLines | SoftwareKobo.UI/SoftwareKobo.UI.Shared/Controls/WrapPanel.cs:186-211 | The measured size has the direct extent of the widest greedy line and the indirect extent of all lines stacked. |
| WrapLayout.LinesFit | SoftwareKobo.UI/SoftwareKobo.UI.Shared/Controls/WrapPanel.cs:186-197 | Every measured line fits the bound or is a single child that alone exceeds it. |
| WrapLayout.LinesFirstFit | SoftwareKobo.UI/SoftwareKobo.UI.Shared/Controls/WrapPanel.cs:186-197 | A measured line ends only where it has no room left: the first present child of the next line would make it exceed the bound. With `LinesFit`, this fixes the first-fit partition up to where null children and empty lines fall. |
| WrapLayout.MeasuredWithinBound | SoftwareKobo.UI/SoftwareKobo.UI.Shared/Controls/WrapPanel.cs:186-211 | When no child alone exceeds the available direct extent, neither does the measured size. |
| WrapLayout.FirstFitExample | SoftwareKobo.UI/SoftwareKobo.UI.Shared/Controls/WrapPanel.cs:186-203 | Line breaking is first fit: extents 30, 40, 50 into 100 give the lines [30, 40] and [50] and a size of 70 by 2. |
| WrapLayout.ArrangeFromInv | SoftwareKobo.UI/SoftwareKobo.UI.Shared/Controls/WrapPanel.cs:102-137 | The arrange loop, skip included, keeps its lines tiling the children it has passed, stacked, with the running offset equal to their summed extents. |
| WrapLayout.ArrangeLinesTile | SoftwareKobo.UI/SoftwareKobo.UI.Shared/Controls/WrapPanel.cs:102-143 | The arranged lines, last line included, cover every child exactly once, in order, and each is stacked on the ones before it. |
| WrapLayout.ArrangeLinesLayout | SoftwareKobo.UI/SoftwareKobo.UI.Shared/Controls/WrapPanel.cs:115-143 | The arranged lines start at child 0, end at the last child and follow one another without gap or overlap. Each line's indirect offset is the sum of the extents of the lines before it. When no child alone exceeds the bound, they are the measured lines, each with the indirect extent of its tallest child. |
| WrapLayout.ArrangeLinesWithoutOversized | SoftwareKobo.UI/SoftwareKobo.UI.Shared/Controls/WrapPanel.cs:115-143 | When no child alone exceeds the bound, the pass as written gives the same lines as the pass without the skip. These are the measured lines, with tallest-child extents. |
| WrapLayout.ArrangeAgreesUntilOversized | SoftwareKobo.UI/SoftwareKobo.UI.Shared/Controls/WrapPanel.cs:115-136 | Up to the first child that alone exceeds the bound, the loop as written takes the same steps as the loop without the skip. |
| WrapLayout.LinePlacementsIndices | SoftwareKobo.UI/SoftwareKobo.UI.Shared/Controls/WrapPanel.cs:250-254 | `ArrangeLine` calls `Arrange` on exactly the non-null children of its range, in index order. |
| WrapLayout.LinePlacementsGeometry | SoftwareKobo.UI/SoftwareKobo.UI.Shared/Controls/WrapPanel.cs:244-265 | Each rectangle `ArrangeLine` gives sits at the sum of its predecessors' growths along the line. Its direct extent is the item size if set, else the desired one. It has the line's indirect offset and extent. |
| WrapLayout.PlacementsInOrder | SoftwareKobo.UI/SoftwareKobo.UI.Shared/Controls/WrapPanel.cs:102-143 | Lines that tile a prefix of the children arrange each non-null child of it once, in order. |
| WrapLayout.ArrangedOnceInOrder | SoftwareKobo.UI/SoftwareKobo.UI.Shared/Controls/WrapPanel.cs:87-146 | A whole arrange pass calls `Arrange` exactly once on each non-null child, in index order. |
| WrapLayout.LoopEndArranged | SoftwareKobo.UI/SoftwareKobo.UI.Shared/Controls/WrapPanel.cs:139-143 | After the loop, arranging the open line (when it holds a child) completes exactly the calls of the whole pass. |
| WrapLayout.SkipExampleMeasureLines | SoftwareKobo.UI/SoftwareKobo.UI.Shared/Controls/WrapPanel.cs:186-197 | Extents 150, 80, 80 into 100 measure as an empty line, the 150 alone, then each 80 alone. |
| WrapLayout.SkipExampleArrangeLines | SoftwareKobo.UI/SoftwareKobo.UI.Shared/Controls/WrapPanel.cs:115-131 | The same children arrange as an empty line, the 150 alone, then both 80s on one line of indirect extent 30. |
| WrapLayout.ArrangeSkipsAfterOversized | SoftwareKobo.UI/SoftwareKobo.UI.Shared/Controls/WrapPanel.cs:122-130 | After an oversized child the arranged lines differ from the measured ones. The 80s share a line that neither fits the bound nor is a lone child, and that line is thinner than its first child. |
| WrapLayout.ArrangeLinesFixedTile | SoftwareKobo.UI/SoftwareKobo.UI.Shared/Controls/WrapPanel.cs:115-143 | Without the skip, the arranged lines still tile every child and stack up. |
| WrapLayout.FixedArrangeMatchesMeasure | SoftwareKobo.UI/SoftwareKobo.UI.Shared/Controls/WrapPanel.cs:115-136 | Without the skip, arrange lays out exactly the measured lines, each with the indirect extent of its tallest child. |
| SharedWrapPanel.WrapPanel.constructor | SoftwareKobo.UI/SoftwareKobo.UI.Shared/Controls/WrapPanel.cs:17-27 | A new panel has `ItemHeight` and `ItemWidth` unset (NaN) and is `Horizontal`. |
| SharedWrapPanel.WrapPanel.SetItemWidth | SoftwareKobo.UI/SoftwareKobo.UI.Shared/Controls/WrapPanel.cs:214-227 | An invalid width is reverted and rejected with an argument error; a valid one is stored; nothing else changes. |
| SharedWrapPanel.WrapPanel.SetItemHeight | SoftwareKobo.UI/SoftwareKobo.UI.Shared/Controls/WrapPanel.cs:214-227 | As `SetItemWidth`, for the height. |
| SharedWrapPanel.WrapPanel.SetOrientation | SoftwareKobo.UI/SoftwareKobo.UI.Shared/Controls/WrapPanel.cs:229-242 | An orientation naming no member is reverted and rejected; a member is stored. |
| SharedWrapPanel.WrapPanel.MeasureOverride | SoftwareKobo.UI/SoftwareKobo.UI.Shared/Controls/WrapPanel.cs:153-212 | Reports the panel size of the greedy partition of the slots. Measures each non-null child once, in order, against the child constraint. |
| SharedWrapPanel.WrapPanel.ArrangeOverride | SoftwareKobo.UI/SoftwareKobo.UI.Shared/Controls/WrapPanel.cs:87-146 | Returns the final size and makes exactly the calls of the arrange pass, skip included. |
| SharedWrapPanel.WrapPanel.SwitchLine | SoftwareKobo.UI/SoftwareKobo.UI.Shared/Controls/WrapPanel.cs:115-131 | Closing the open line, and an oversized child's own line, keeps the arrange loop in step with the arrange pass, advancing the index once more after an oversized child. |
| SharedWrapPanel.WrapPanel.ArrangeLine | SoftwareKobo.UI/SoftwareKobo.UI.Shared/Controls/WrapPanel.cs:244-265 | Makes exactly the calls of one line: each non-null child of the range, at its running direct offset. |
| WinRTWrapPanel.ArrangedEveryChild | SoftwareKobo.UI.WinRT/SoftwareKobo.UI.WinRT/Controls/WrapPanel.cs:108-140 | With no null child, arrange calls `Arrange` on every child exactly once, in order. |
| WinRTWrapPanel.WrapPanel.constructor | SoftwareKobo.UI.WinRT/SoftwareKobo.UI.WinRT/Controls/WrapPanel.cs:17-27 | A new panel has `ItemHeight` and `ItemWidth` unset (NaN) and is `Horizontal`. |
| WinRTWrapPanel.WrapPanel.SetItemWidth | SoftwareKobo.UI.WinRT/SoftwareKobo.UI.WinRT/Controls/WrapPanel.cs:201-214 | An invalid width is reverted and rejected with an argument error; a valid one is stored; nothing else changes. |
| WinRTWrapPanel.WrapPanel.SetItemHeight | SoftwareKobo.UI.WinRT/SoftwareKobo.UI.WinRT/Controls/WrapPanel.cs:201-214 | As `SetItemWidth`, for the height. |
| WinRTWrapPanel.WrapPanel.SetOrientation | SoftwareKobo.UI.WinRT/SoftwareKobo.UI.WinRT/Controls/WrapPanel.cs:216-229 | An orientation naming no member is reverted and rejected; a member is stored. |
| WinRTWrapPanel.WrapPanel.MeasureOverride | SoftwareKobo.UI.WinRT/SoftwareKobo.UI.WinRT/Controls/WrapPanel.cs:150-199 | Reports the panel size of the greedy partition. Measures each non-null child once, in order, against the child constraint. |
| WinRTWrapPanel.WrapPanel.ArrangeOverride | SoftwareKobo.UI.WinRT/SoftwareKobo.UI.WinRT/Controls/WrapPanel.cs:87-143 | With no null child: returns the final size and makes exactly the calls of the arrange pass, skip included. |
| WinRTWrapPanel.WrapPanel.SwitchLine | SoftwareKobo.UI.WinRT/SoftwareKobo.UI.WinRT/Controls/WrapPanel.cs:114-129 | Closing the open line, and an oversized child's own line, keeps the loop in step with the arrange pass, advancing `lineEnd` once more after an oversized child. |
| WinRTWrapPanel.WrapPanel.ArrangeLine | SoftwareKobo.UI.WinRT/SoftwareKobo.UI.WinRT/Controls/WrapPanel.cs:231-248 | Makes exactly the calls of one line: each child of the range at its running direct offset, grown by `directDelta` if set, else by its desired extent. |
| DockLayout.UIElement.constructor | SoftwareKobo.UI/SoftwareKobo.UI.Shared/Controls/DockPanel.cs:41 | An element's `Dock` defaults to `Left`. |
| DockLayout.FillRect | SoftwareKobo.UI/SoftwareKobo.UI.Shared/Controls/DockPanel.cs:124-128 | The leftover rectangle starts after the left and top offsets and is never of negative extent. |
| DockLayout.DockedRectSides | SoftwareKobo.UI/SoftwareKobo.UI.Shared/Controls/DockPanel.cs:130-156 | A docked child takes its desired width (left, right) or height (top, bottom) and the whole leftover extent across. Left and top children start at the corner of the leftover space. Right and bottom children end where the leftover space ends, or are pinned at 0 when there is no room. |
| DockLayout.MeasureConsumes | SoftwareKobo.UI/SoftwareKobo.UI.Shared/Controls/DockPanel.cs:207-220 | The measure loop's accumulated width and height are the widths of the left/right children and the heights of the top/bottom ones. |
| DockLayout.MeasureCallsRemaining | SoftwareKobo.UI/SoftwareKobo.UI.Shared/Controls/DockPanel.cs:184-194 | The j-th `Measure` call goes to the j-th non-null child, constrained to the available size less what the children before it consume, floored at zero. |
| DockLayout.MeasuredWidthIsLeast | SoftwareKobo.UI/SoftwareKobo.UI.Shared/Controls/DockPanel.cs:207-227 | The measured width covers the docked children and is the least width that does. |
| DockLayout.MeasuredHeightIsLeast | SoftwareKobo.UI/SoftwareKobo.UI.Shared/Controls/DockPanel.cs:207-227 | The measured height covers the docked children and is the least height that does. |
| DockLayout.ArrangeRunClosedForm | SoftwareKobo.UI/SoftwareKobo.UI.Shared/Controls/DockPanel.cs:104-162 | The arrange loop takes from each side exactly the extents docked there. It arranges each non-null child once, in order, at the rectangle given by those sums. |
| DockLayout.LastChildFills | SoftwareKobo.UI/SoftwareKobo.UI.Shared/Controls/DockPanel.cs:108 | With `LastChildFill`, a non-null last child is arranged last, in all the space the others leave. |
| DockLayout.NoFillDocksAll | SoftwareKobo.UI/SoftwareKobo.UI.Shared/Controls/DockPanel.cs:108 | Without `LastChildFill`, every child, the last included, is docked to its side. |
| DockLayout.ArrangedOnceInOrder | SoftwareKobo.UI/SoftwareKobo.UI.Shared/Controls/DockPanel.cs:115-159 | Every non-null child is arranged exactly once, in index order. |
| DockLayout.ArrangedRectsNonNegative | SoftwareKobo.UI/SoftwareKobo.UI.Shared/Controls/DockPanel.cs:123-156 | With non-negative desired sizes, every arranged rectangle has non-negative position and extent. |
| DockLayout.ChildRectWithin | SoftwareKobo.UI/SoftwareKobo.UI.Shared/Controls/DockPanel.cs:123-156 | When the final size is at least the measured size, a child's rectangle lies inside the final size. |
| DockLayout.ArrangedWithinFinal | SoftwareKobo.UI/SoftwareKobo.UI.Shared/Controls/DockPanel.cs:104-162 | Measure and arrange agree: given at least the measured size, every arranged rectangle lies inside it. |
| SharedDockPanel.DockPanel.constructor | SoftwareKobo.UI/SoftwareKobo.UI.Shared/Controls/DockPanel.cs:46 | `LastChildFill` defaults to true. |
| SharedDockPanel.DockPanel.SetLastChildFill | SoftwareKobo.UI/SoftwareKobo.UI.Shared/Controls/DockPanel.cs:59-69 | Any boolean is stored. |
| SharedDockPanel.DockPanel.GetDock | SoftwareKobo.UI/SoftwareKobo.UI.Shared/Controls/DockPanel.cs:76-83 | A null element is rejected with an argument-null error; otherwise the element's `Dock` is read. |
| SharedDockPanel.DockPanel.SetDock | SoftwareKobo.UI/SoftwareKobo.UI.Shared/Controls/DockPanel.cs:90-97 | A null element is rejected. An undefined dock is reverted and rejected. A member is stored and read back by `GetDock`. |
| SharedDockPanel.DockPanel.MeasureOverride | SoftwareKobo.UI/SoftwareKobo.UI.Shared/Controls/DockPanel.cs:169-228 | Reports the least size covering the children. Measures each non-null child once, in order, against the remaining space. |
| SharedDockPanel.DockPanel.ArrangeOverride | SoftwareKobo.UI/SoftwareKobo.UI.Shared/Controls/DockPanel.cs:104-162 | Returns the final size and makes exactly the calls of the arrange pass, one per non-null child, in order. |
| WinRTDockPanel.DockPanel.constructor | SoftwareKobo.UI.WinRT/SoftwareKobo.UI.WinRT/Controls/DockPanel.cs:45 | `LastChildFill` defaults to true. |
| WinRTDockPanel.DockPanel.SetLastChildFill | SoftwareKobo.UI.WinRT/SoftwareKobo.UI.WinRT/Controls/DockPanel.cs:58-68 | Any boolean is stored. |
| WinRTDockPanel.DockPanel.GetDock | SoftwareKobo.UI.WinRT/SoftwareKobo.UI.WinRT/Controls/DockPanel.cs:75-82 | A null element is rejected with an argument-null error; otherwise the element's `Dock` is read. |
| WinRTDockPanel.DockPanel.SetDock | SoftwareKobo.UI.WinRT/SoftwareKobo.UI.WinRT/Controls/DockPanel.cs:89-96 | A null element is rejected. An undefined dock is reverted and rejected. A member is stored and read back by `GetDock`. |
| WinRTDockPanel.DockPanel.MeasureOverride | SoftwareKobo.UI.WinRT/SoftwareKobo.UI.WinRT/Controls/DockPanel.cs:164-209 | Reports the least size covering the children. Measures each non-null child once, in order, against the remaining space. |
| WinRTDockPanel.DockPanel.ArrangeOverride | SoftwareKobo.UI.WinRT/SoftwareKobo.UI.WinRT/Controls/DockPanel.cs:103-157 | Returns the final size and makes exactly the calls of the arrange pass, one per non-null child, in order. |
| SharedConverter.Convert | SoftwareKobo.UI/SoftwareKobo.UI.Shared/Converters/VisibilityToBooleanConverter.cs:17-34 | True exactly for a boxed `Visible`. Any other value, null included, gives false. |
| SharedConverter.ConvertBack | SoftwareKobo.UI/SoftwareKobo.UI.Shared/Converters/VisibilityToBooleanConverter.cs:36-56 | `Visible` exactly for a boxed true; `Collapsed` for anything else. |
| SharedConverter.VisibilityRoundTrip | SoftwareKobo.UI/SoftwareKobo.UI.Shared/Converters/VisibilityToBooleanConverter.cs:17-56 | Converting a visibility and back gives it back. |
| SharedConverter.BoolRoundTrip | SoftwareKobo.UI/SoftwareKobo.UI.Shared/Converters/VisibilityToBooleanConverter.cs:17-56 | Converting a boolean back and forth gives it back. |
| SharedConverter.WrongTypeDefaults | SoftwareKobo.UI/SoftwareKobo.UI.Shared/Converters/VisibilityToBooleanConverter.cs:26-33 | Null, a wrong type or an undefined visibility converts to the default instead of failing. |
| WinRTConverter.VisibilityOf | SoftwareKobo.UI.WinRT/SoftwareKobo.UI.WinRT/VisibilityToBooleanConverter.cs:11 | A boxed `Int32` unboxes to a member exactly when it is that member's value. |
| WinRTConverter.Convert | SoftwareKobo.UI.WinRT/SoftwareKobo.UI.WinRT/VisibilityToBooleanConverter.cs:9-23 | Succeeds iff the value is a defined visibility, boxed as a `Visibility` or as its `Int32` value, giving true exactly for `Visible`. Otherwise: null fails to unbox, another type fails the cast, and an undefined visibility or integer is an argument error. |
| WinRTConverter.IntegerConvertsAsVisibility | SoftwareKobo.UI.WinRT/SoftwareKobo.UI.WinRT/VisibilityToBooleanConverter.cs:11-22 | A visibility boxed as its `Int32` value converts exactly as the visibility itself. |
| WinRTConverter.ConvertBack | SoftwareKobo.UI.WinRT/SoftwareKobo.UI.WinRT/VisibilityToBooleanConverter.cs:25-35 | Succeeds iff the value is a boxed boolean, giving `Visible` exactly for true. Null fails to unbox; another type fails the cast. |
| WinRTConverter.VisibilityRoundTrip | SoftwareKobo.UI.WinRT/SoftwareKobo.UI.WinRT/VisibilityToBooleanConverter.cs:9-35 | Converting a visibility and back succeeds and gives it back. |
| WinRTConverter.BoolRoundTrip | SoftwareKobo.UI.WinRT/SoftwareKobo.UI.WinRT/VisibilityToBooleanConverter.cs:9-35 | Converting a boolean back and forth succeeds and gives it back. |
| WinRTConverter.AgreesWithShared | SoftwareKobo.UI.WinRT/SoftwareKobo.UI.WinRT/VisibilityToBooleanConverter.cs:9-35 | Where this converter succeeds on anything but a boxed integer, it agrees with the shared one. Where it throws, the shared one returns its default. On a boxed integer the shared one gives false, while this one gives true for the value of `Visible`. |

## Left out

- The dependency-property machinery is not modelled: registration, `GetValue`/`SetValue`, metadata, and the `InvalidateMeasure`/`InvalidateArrange` calls of the change callbacks. Each property is a field, and each callback's revert-and-throw is folded into its setter's `Outcome`.
- The `Dock` change callback looks up the element's parent with `VisualTreeHelper.GetParent` to invalidate its measure. This lookup is left out: the visual tree is not modelled.
- A panel reads each child's `Dock` once per pass, as a snapshot (`DockChild`). Element objects (`DockLayout.UIElement`) appear only for `GetDock` and `SetDock`.
- Desired sizes are inputs. What `Measure` does inside a child is not modelled: each child is given by the desired size it reports afterwards, and the calls are recorded.
- Floating point is modelled as exact reals. NaN is modelled only as "unset" for the item sizes. Infinity is modelled only as an unbounded available extent. Rounding, and NaN or infinity arising from arithmetic, are not modelled.
- WinRTWrapPanel.WrapPanel.ArrangeOverride: requires that no child is null. The source reads `DesiredSize` of every child without a null check, so a null child throws a `NullReferenceException`, and that path is not modelled.
- The converters' `targetType`, `parameter`, `culture` and `language` arguments are ignored by the source and left out. The `#if` platform conditionals select between these argument lists and are not modelled.
- The shared `ConvertBack`'s `bool?` branch is not modelled separately. A boxed nullable boolean arrives as a boxed `bool` or as null, so the `value is bool` test already decides it.
- `SoftwareKobo.UI.WinRT/SoftwareKobo.UI.WinRT/WrapPanel.cs` is not part of this model. It is an unfinished earlier `WrapPanel` that only declares its `Orientation`, `ItemWidth` and `ItemHeight` properties: its constructor and orientation callback are marked TODO, and it has no measure or arrange pass.
- WrapLayout.ArrangeLinesLayout: when some child alone exceeds the bound, the lines the pass as written lays out after that child are described only by their shape (contiguous, in order, stacked). They are not tied to the measured lines, because the index skip makes them differ (see Findings). Before that child they are (`WrapLayout.ArrangeAgreesUntilOversized`).
- WinRTConverter.AgreesWithShared: does not promise agreement on a boxed `Int32`. The Windows Runtime converter unboxes it as the visibility it numbers, while the shared one's `value is Visibility` test gives false for it.
- `SwitchLine` is a helper method. It groups the line-switch branch of each arrange loop (Shared lines 115-131, WinRT lines 114-129) so that each loop iteration is proved in two parts. It makes the same calls in the same order as the inline source.

## Findings

| source | as written | input that shows it | evidently intended | confidence | as-written member | corrected member |
|---|---|---|---|---|---|---|
| SoftwareKobo.UI/SoftwareKobo.UI.Shared/Controls/WrapPanel.cs:122-130 (also SoftwareKobo.UI.WinRT/SoftwareKobo.UI.WinRT/Controls/WrapPanel.cs:121-128) | After giving an oversized child a line of its own, `ArrangeLine(..., i, ++i, ...)` advances the index, and the loop's `i++` advances it again. The child after the oversized one opens the new line but is never added to the line's accumulated size. | Extents 150, 80, 80 (indirect 10, 40, 30) into a direct bound of 100. Measure gives each 80 its own line. Arrange puts both 80s on one line of direct extent 160 and indirect extent 30, thinner than the first 80's 40. | The arrange loop lays out exactly the lines the measure pass accounts for, each as tall as its tallest child. | not executed | WrapLayout.ArrangeSkipsAfterOversized | WrapLayout.FixedArrangeMatchesMeasure |

The panel classes follow the code as written, so `WrapLayout.ArrangeLines`, which both `ArrangeOverride` methods are proved against, keeps the skip. Measure and arrange are meant to lay out the same lines. For every input, that is proved only for the arrangement without the skip, `WrapLayout.ArrangeLinesFixed`. For the code as written it is proved when no child alone exceeds the bound (`WrapLayout.ArrangeLinesWithoutOversized`).
