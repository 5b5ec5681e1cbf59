# Expandable peer title geometry

This project models the title of a Telegram peer-info header. When the avatar expands, the header title spreads from a single line into its full, several-line layout. Two revisions of this are modelled.

- **Later revision.** `ExpandableMultiScaleTextNode.swift` has three parts:
  - `ExpandablePeerTitleContainerNode` lays out the title states.
  - `ExpandablePeerTitleTextNode` cuts one title into one fragment per glyph run and blends each fragment between its single-line and its expanded frame.
  - `getLayoutLines` splits an attributed string into CoreText lines.
- **Earlier revision.** `MultiScaleTextNodeExpandable.swift` does the same per line instead of per run:
  - `MultiScaleTextStateNodeExpandable` holds one state.
  - `MultiScaleTextNodeExpandable` fans progress and alpha out to its state nodes.

Seven modules make up the model:

| module | models |
|---|---|
| `Geometry` | Sizes and rectangles over `real`. `ExpandedFrame`, the alignment table both revisions share. |
| `LayoutLines` | The CoreText oracle, `LayoutLine` and `getLayoutLines`, including its folding of an overflowing last line. |
| `ExpandedLayout` | `getExpandedLayout`'s computation: total size, walk order of the runs in a line, and the frame of every run. |
| `RangeOrder` | Sorting the keys of `rangeToFrame` by location. |
| `TitleTextNode` | The text node: a class whose fields are the caches the source updates. |
| `TitleContainer` | The container node: a class over a map of text nodes. |
| `MultiScaleExpandable` | The earlier revision: state nodes and their container, both classes. |

Fixed parts of the system become parameters of the model:

- CoreText line breaking and glyph offsets are the `CoreText` datatype of functions.
- `TextNode.asyncLayout` is the `TextShaper` function.
- `ImmediateTextNode.updateLayout` sizing is `measure`.
- The vertical easing `sqrt(1 - (p - 1)^2)` of both revisions (ExpandableMultiScaleTextNode.swift:686, MultiScaleTextNodeExpandable.swift:86) is the parameter `yProgress`. Every constructor that takes it requires `Geometry.EasesOut`: 0 at progress 0, 1 at progress 1, and between 0 and 1 in between. Both state nodes keep it in `Valid()`.

Every state-changing operation is a method. Each method is proved to leave its object in the state that a specification function of the old state gives. Lemmas state what those functions promise:

- layouts cover every run;
- frames abut and settle at their expanded positions;
- an update repeated with the same title changes nothing;
- an expansion applied twice equals the expansion applied once;
- the ellipsis and the fade mask exclude each other.

## Model

Sources are cited from the repository root. `ExpandableMultiScaleTextNode.swift` is the later revision, and `MultiScaleTextNodeExpandable.swift` the earlier one.

| member | source | states |
|---|---|---|
| `Geometry.ExpandedFrame` | submodules/TelegramUI/Sources/ExpandableMultiScaleTextNode.swift:870-904 | The line keeps its size at the given y. Centred alignment leaves equal margins on both sides. Right alignment, or natural alignment of an RTL line, is flush with the right edge. Every other alignment is flush left. A line no wider than the container stays inside it. |
| `Geometry.Blend` | submodules/TelegramUI/Sources/ExpandableMultiScaleTextNode.swift:688-693 | The progress blend `e * p - c * (p - 1)`. It is the collapsed value at 0 and the expanded value at 1, and lies between the two for progress in [0, 1]. |
| `LayoutLines.MinExtent` | submodules/TelegramUI/Sources/ExpandableMultiScaleTextNode.swift:985 | `min(textSize.width, w)`. An unbounded box (`greatestFiniteMagnitude`) leaves `w` unchanged. |
| `LayoutLines.Substring` | submodules/TelegramUI/Sources/ExpandableMultiScaleTextNode.swift:972 | `attributedSubstring(from:)`. For a range inside the text it is exactly that slice. A range outside is clamped where the source raises; see "## Left out". |
| `LayoutLines.GetLayoutLines` | submodules/TelegramUI/Sources/ExpandableMultiScaleTextNode.swift:917-1004 | The method returns `LayoutLinesOf` for every text, box and line limit. |
| `LayoutLines.FittingLines` | submodules/TelegramUI/Sources/ExpandableMultiScaleTextNode.swift:954-1002 | Without overflow, each CoreText line gives one layout line with: origin 0; width `min(box, ceil(typographic - trailing whitespace))`; height `floor(ascent + descent)` of the font at the first unit (else the system font); RTL exactly when its first run is RTL; its own range, substring, runs and run ranges. |
| `LayoutLines.OverflowFolds` | submodules/TelegramUI/Sources/ExpandableMultiScaleTextNode.swift:930-952 | With more lines than the limit, the result is the lines of the text before the last visible line, then one line for the whole rest of the text, laid out unbounded. That line carries the rest's range, its frame and runs, and run ranges shifted by the rest's start. |
| `LayoutLines.ZeroLimitIsEmpty` | submodules/TelegramUI/Sources/ExpandableMultiScaleTextNode.swift:928 | A limit of zero lines gives no lines. |
| `LayoutLines.LayoutLinesWellFormed` | submodules/TelegramUI/Sources/ExpandableMultiScaleTextNode.swift:996-1000 | Every layout line has one run range per run, and each range is that run's string range. |
| `ExpandedLayout.LinesOf` | submodules/TelegramUI/Sources/ExpandableMultiScaleTextNode.swift:372-385 | One well-formed layout line per shaped line, with the shaped line's range, rectangle, direction and runs. |
| `ExpandedLayout.TotalSizeIsWidestLine` | submodules/TelegramUI/Sources/ExpandableMultiScaleTextNode.swift:387-393 | The total width is the widest line clipped to the constrained width. It is 0 only when no line is wider, and never more than a non-negative constrained width. |
| `ExpandedLayout.MeasureLines` | submodules/TelegramUI/Sources/ExpandableMultiScaleTextNode.swift:563-571 | The method's loop computes `TotalSize`. |
| `ExpandedLayout.SortByKeyPermutes` | submodules/TelegramUI/Sources/ExpandableMultiScaleTextNode.swift:416 | Sorting the run indices by location is a permutation of them. |
| `ExpandedLayout.SortByKey` | submodules/TelegramUI/Sources/ExpandableMultiScaleTextNode.swift:416 | The result is sorted by key and indexes only existing runs. |
| `ExpandedLayout.WalkOrder` | submodules/TelegramUI/Sources/ExpandableMultiScaleTextNode.swift:414-419 | An RTL line set by an LTR typesetter walks its runs sorted by location. Every other line walks them in CoreText order. |
| `ExpandedLayout.WalkOrderVisitsEachRun` | submodules/TelegramUI/Sources/ExpandableMultiScaleTextNode.swift:414-420 | Either walk visits every run of the line exactly once. |
| `ExpandedLayout.RunPlacementsAt` | submodules/TelegramUI/Sources/ExpandableMultiScaleTextNode.swift:420-449 | The k-th assignment of a line's walk pairs the k-th walked run's range with `RunFrame`. |
| `ExpandedLayout.BuildExpandedLayout` | submodules/TelegramUI/Sources/ExpandableMultiScaleTextNode.swift:352-467 | The method returns `ExpandedLayoutOf`. |
| `ExpandedLayout.PlaceLines` | submodules/TelegramUI/Sources/ExpandableMultiScaleTextNode.swift:394-465 | The loop over lines builds the map of every assignment, in walk order. |
| `ExpandedLayout.PlaceLine` | submodules/TelegramUI/Sources/ExpandableMultiScaleTextNode.swift:400-465 | One line's iteration extends the map with that line's assignments. |
| `ExpandedLayout.WalkLineRuns` | submodules/TelegramUI/Sources/ExpandableMultiScaleTextNode.swift:420-450 | The inner loop over runs adds each walked run's range and frame to the map. |
| `ExpandedLayout.MapOfLastAssignment` | submodules/TelegramUI/Sources/ExpandableMultiScaleTextNode.swift:448 | In a sequence of dictionary writes, a key's value is its last write. |
| `ExpandedLayout.LastAssignmentWins` | submodules/TelegramUI/Sources/ExpandableMultiScaleTextNode.swift:400-465 | The frame stored for a run's range is that run's `RunFrame`, when no later run of the walk has the same range. |
| `ExpandedLayout.LayoutFrameOfRun` | submodules/TelegramUI/Sources/ExpandableMultiScaleTextNode.swift:394-467 | In the layout `getExpandedLayout` returns, the frame of a run's range is that run's frame in a container the size of the widest line. This holds for the last run assigning the range. |
| `ExpandedLayout.LayoutCoversEveryRun` | submodules/TelegramUI/Sources/ExpandableMultiScaleTextNode.swift:394-467 | The keys of `rangeToFrame` are exactly the run ranges of the layout's lines. |
| `ExpandedLayout.WidthSumPermutation` | submodules/TelegramUI/Sources/ExpandableMultiScaleTextNode.swift:429-438 | Walking runs in another order does not change the width they add up to. |
| `ExpandedLayout.RunsAbut` | submodules/TelegramUI/Sources/ExpandableMultiScaleTextNode.swift:426-440 | Consecutive runs share y and height and touch. They go left to right, or right to left in a mirrored line (an RTL line after a non-RTL one). |
| `ExpandedLayout.WalkSpansLine` | submodules/TelegramUI/Sources/ExpandableMultiScaleTextNode.swift:406-440 | A line's walk starts at the line frame's edge and ends the runs' total width away from it, from the right in a mirrored line. |
| `RangeOrder.SortedKeysMembers` | submodules/TelegramUI/Sources/ExpandableMultiScaleTextNode.swift:510 | Sorting the keys of `rangeToFrame` keeps exactly those keys. |
| `RangeOrder.SortedKeysSorted` | submodules/TelegramUI/Sources/ExpandableMultiScaleTextNode.swift:510 | The sorted keys are strictly increasing. |
| `RangeOrder.SortedKeysByLocation` | submodules/TelegramUI/Sources/ExpandableMultiScaleTextNode.swift:592 | The sorted keys are in non-decreasing location. |
| `RangeOrder.SortedIsUnique` | submodules/TelegramUI/Sources/ExpandableMultiScaleTextNode.swift:510 | Two strictly sorted sequences with the same members are equal, so the sort order is determined. |
| `RangeOrder.SortRanges` | submodules/TelegramUI/Sources/ExpandableMultiScaleTextNode.swift:510 | The method's insertion loop produces `SortedKeys`. |
| `TitleTextNode.EllipsisText` | submodules/TelegramUI/Sources/ExpandableMultiScaleTextNode.swift:520 | A single "…" carrying the attributes at the title's first unit, or no attributes for an empty title. |
| `TitleTextNode.FirstRunContaining` | submodules/TelegramUI/Sources/ExpandableMultiScaleTextNode.swift:652 | `firstIndex(where:)`: the first run range containing the location, or none if no range does. |
| `TitleTextNode.RtlAdjustment` | submodules/TelegramUI/Sources/ExpandableMultiScaleTextNode.swift:613-619 | Non-negative. It is 0 unless the single line is RTL and wider than the container, and then half the excess. |
| `TitleTextNode.ProgressFrame` | submodules/TelegramUI/Sources/ExpandableMultiScaleTextNode.swift:635-693 | The fragment keeps its expanded size. At fraction 1 it sits exactly at its expanded origin. Otherwise x blends between collapsed and expanded x, and y is the expanded y times the vertical progress. Both stay between their ends. |
| `TitleTextNode.ExpandedFragments` | submodules/TelegramUI/Sources/ExpandableMultiScaleTextNode.swift:621-721 | Each of the first `rangeToFrame.count` fragments gets its progress frame. Texts and all later fragments are unchanged. |
| `TitleTextNode.ExpansionOverwrites` | submodules/TelegramUI/Sources/ExpandableMultiScaleTextNode.swift:621-721 | A second expansion overwrites the first: only the last fraction counts. |
| `TitleTextNode.ContainerFadeMask` | submodules/TelegramUI/Sources/ExpandableMultiScaleTextNode.swift:267-338 | A mask exists exactly for a truncated layout with lines that needs fading. The mask covers the container. The top band starts at the origin, is at least as wide as the container and the last line, and reaches down to the last line. The bottom band ends at `bottomY` (the last fragment's bottom, else the container height) and is 50 short of `lastLineWidth` (the last fragment's right edge for LTR, else the container width). The gradient is 50 wide, on the fading side. |
| `TitleTextNode.TruncationMarkedOnce` | submodules/TelegramUI/Sources/ExpandableMultiScaleTextNode.swift:508-540 | Among freshly made fragments, only the last can be an ellipsis. It is one exactly when no container fade mask is made. |
| `TitleTextNode.FragmentProgressFrame` | submodules/TelegramUI/Sources/ExpandableMultiScaleTextNode.swift:638-693 | The fragment's frame is the progress frame, measured from its collapsed x less the RTL adjustment. |
| `TitleTextNode.ExpandablePeerTitleTextNode.constructor` | submodules/TelegramUI/Sources/ExpandableMultiScaleTextNode.swift:211-247 | A fresh node has no caches, no fragments and no mask, and allows at most two lines. Its easing must ease out, as the fixed easing of line 686 does. |
| `TitleTextNode.ExpandablePeerTitleTextNode.SingleLine` | submodules/TelegramUI/Sources/ExpandableMultiScaleTextNode.swift:478 | The first unbounded layout line of a title is well-formed. |
| `TitleTextNode.ExpandablePeerTitleTextNode.GetExpandedLayout` | submodules/TelegramUI/Sources/ExpandableMultiScaleTextNode.swift:340-469 | With the same title, size and alignment it returns the cached layout. Otherwise it recomputes `ExpandedLayoutOf`. The result keeps the size and the alignment (left by default). |
| `TitleTextNode.ExpandablePeerTitleTextNode.UpdateExpansion` | submodules/TelegramUI/Sources/ExpandableMultiScaleTextNode.swift:582-723 | With a layout and a single line, every fragment moves to its progress frame. The single line and the fraction are remembered. Otherwise nothing changes. Since the node's easing eases out, `AfterExpansionCollapsed` and `AfterExpansionBetween` place the fragments at fraction 0 and in between. |
| `TitleTextNode.ExpandablePeerTitleTextNode.MoveFragments` | submodules/TelegramUI/Sources/ExpandableMultiScaleTextNode.swift:621-721 | The loop sets the fragments to `ExpandedFragments`. |
| `TitleTextNode.ExpandablePeerTitleTextNode.AfterExpansionCollapsed` | submodules/TelegramUI/Sources/ExpandableMultiScaleTextNode.swift:638-693 | At fraction 0 every fragment is back on the one line: y 0, its collapsed x less the RTL adjustment, and its expanded size. |
| `TitleTextNode.ExpandablePeerTitleTextNode.AfterExpansionBetween` | submodules/TelegramUI/Sources/ExpandableMultiScaleTextNode.swift:676-693 | For a fraction in [0, 1] every fragment lies between its collapsed and its expanded place, in x and in y. |
| `TitleTextNode.ExpandablePeerTitleTextNode.AfterExpansionOverwrites` | submodules/TelegramUI/Sources/ExpandableMultiScaleTextNode.swift:542-545 | Re-applying the previous fraction before the new one has the effect of the new one alone. |
| `TitleTextNode.ExpandablePeerTitleTextNode.UpdateIfNeeded` | submodules/TelegramUI/Sources/ExpandableMultiScaleTextNode.swift:471-574 | The title and layout are cached. A changed title or `rangeToFrame` rebuilds the fragments and expands them to the fraction. Otherwise they are expanded only when asked. The total size is the cached one unless rebuilt. The single line is refreshed on a new title. The whole cache equals `UpdatedCache`. |
| `TitleTextNode.ExpandablePeerTitleTextNode.StoreLayout` | submodules/TelegramUI/Sources/ExpandableMultiScaleTextNode.swift:477-483 | Stores the title, layout, size and alignment. The single line is re-laid out only for a new title. |
| `TitleTextNode.ExpandablePeerTitleTextNode.RemakeFragments` | submodules/TelegramUI/Sources/ExpandableMultiScaleTextNode.swift:489-546 | The rebuilt fragments end at the requested fraction. |
| `TitleTextNode.ExpandablePeerTitleTextNode.StoreExpandedSize` | submodules/TelegramUI/Sources/ExpandableMultiScaleTextNode.swift:559-573 | Returns and caches the cached size unless the fragments were remade, else the measured size of the lines. |
| `TitleTextNode.ExpandablePeerTitleTextNode.RebuildFragments` | submodules/TelegramUI/Sources/ExpandableMultiScaleTextNode.swift:490-540 | Makes one fragment per range, in sorted order, as `FreshFragments`. |
| `TitleTextNode.ExpandablePeerTitleTextNode.UpdateContainerFading` | submodules/TelegramUI/Sources/ExpandableMultiScaleTextNode.swift:267-338 | The installed mask is `ContainerFadeMask` of the current layout, the last fragment and the text frame. |
| `TitleTextNode.ExpandablePeerTitleTextNode.UpdateTextFrame` | submodules/TelegramUI/Sources/ExpandableMultiScaleTextNode.swift:249-256 | Sets the frame and recomputes the container mask against it. |
| `TitleContainer.FadingMask` | submodules/TelegramUI/Sources/ExpandableMultiScaleTextNode.swift:98-164 | RTL: the solid part starts at `max(containerWidth - solidWidth, 30)`, is `containerWidth + 12` wide, and has the 30-wide gradient on its left. LTR: the solid part is `solidWidth` wide from 0, followed by a 45-wide gradient. The mask frame is centred at the offset with zero width. |
| `TitleContainer.CentredFrame` | submodules/TelegramUI/Sources/ExpandableMultiScaleTextNode.swift:65-73 | Every state's text frame has the main size and is centred on the origin. |
| `TitleContainer.UpdateStateNode` | submodules/TelegramUI/Sources/ExpandableMultiScaleTextNode.swift:53-58 | One state's node is updated with the common layout, or else with its own layout. |
| `TitleContainer.ViewAlphaFromSharer` | submodules/TelegramUI/Sources/ExpandableMultiScaleTextNode.swift:75-79 | An accessory view ends with the alpha of the last visited state that shares it, or keeps its alpha if none does. |
| `TitleContainer.ViewAlphaOwn` | submodules/TelegramUI/Sources/ExpandableMultiScaleTextNode.swift:75-79 | A view no other state shares takes its own state's alpha. |
| `TitleContainer.AccessoryView.constructor` | submodules/TelegramUI/Sources/ExpandableMultiScaleTextNode.swift:174-180 | An accessory view starts with the given alpha. |
| `TitleContainer.ExpandablePeerTitleContainerNode.constructor` | submodules/TelegramUI/Sources/ExpandableMultiScaleTextNode.swift:182-204 | One fresh, empty text node per distinct state key, each with the given easing, which must ease out. Nothing is aligned, and there are no accessories or mask. |
| `TitleContainer.ExpandablePeerTitleContainerNode.Update` | submodules/TelegramUI/Sources/ExpandableMultiScaleTextNode.swift:41-83 | The result has a size for every state that has a node. Each such node is updated from its old cache with the main state's layout, or else its own. With a main size, every node is centred on it and its fade mask recomputed. Alphas follow the states unless transitioning. Nodes without a state are untouched. |
| `TitleContainer.ExpandablePeerTitleContainerNode.ApplyAlphasUnlessTransitioning` | submodules/TelegramUI/Sources/ExpandableMultiScaleTextNode.swift:75-80 | Node and accessory alphas follow the states only when not transitioning. Caches and frames are unchanged. |
| `TitleContainer.ExpandablePeerTitleContainerNode.LayOutAndUpdateNodes` | submodules/TelegramUI/Sources/ExpandableMultiScaleTextNode.swift:42-73 | The layout and centring half of `update`, with alphas unchanged. |
| `TitleContainer.ExpandablePeerTitleContainerNode.LayOutMainState` | submodules/TelegramUI/Sources/ExpandableMultiScaleTextNode.swift:46-51 | Records the main state, and computes and remembers its layout (left if the avatar is expanded, else centred). |
| `TitleContainer.ExpandablePeerTitleContainerNode.UpdateAndPlaceNodes` | submodules/TelegramUI/Sources/ExpandableMultiScaleTextNode.swift:53-73 | Updates every state's node, then centres the nodes on the main size. |
| `TitleContainer.ExpandablePeerTitleContainerNode.UpdateState` | submodules/TelegramUI/Sources/ExpandableMultiScaleTextNode.swift:53-62 | One iteration updates one node's cache and leaves the other nodes unchanged. |
| `TitleContainer.ExpandablePeerTitleContainerNode.CachesUpdatedExtend` | submodules/TelegramUI/Sources/ExpandableMultiScaleTextNode.swift:53-63 | Each loop step adds one key's updated cache and size to what is done. |
| `TitleContainer.ExpandablePeerTitleContainerNode.UpdateNodes` | submodules/TelegramUI/Sources/ExpandableMultiScaleTextNode.swift:53-63 | The loop updates every state with a node, and only those. |
| `TitleContainer.ExpandablePeerTitleContainerNode.PlaceNodes` | submodules/TelegramUI/Sources/ExpandableMultiScaleTextNode.swift:65-73 | Every listed node gets the frame and a mask recomputed for it. Other nodes are untouched. |
| `TitleContainer.ExpandablePeerTitleContainerNode.ApplyStateAlpha` | submodules/TelegramUI/Sources/ExpandableMultiScaleTextNode.swift:77-78 | One state's node and every view shared with its accessory get the alpha. |
| `TitleContainer.ExpandablePeerTitleContainerNode.ApplyAlphas` | submodules/TelegramUI/Sources/ExpandableMultiScaleTextNode.swift:76-79 | Every state's node takes its alpha, and each accessory takes `ViewAlpha`. |
| `TitleContainer.ExpandablePeerTitleContainerNode.AlignedSingleLine` | submodules/TelegramUI/Sources/ExpandableMultiScaleTextNode.swift:91-94 | The guard passes only for an aligned state with a node and a title. The line is the cached single line, or else the first unbounded line. |
| `TitleContainer.ExpandablePeerTitleContainerNode.UpdateContainerFadings` | submodules/TelegramUI/Sources/ExpandableMultiScaleTextNode.swift:88 | Every node's mask is recomputed. |
| `TitleContainer.ExpandablePeerTitleContainerNode.UpdateFading` | submodules/TelegramUI/Sources/ExpandableMultiScaleTextNode.swift:87-165 | Every node's mask is recomputed. The old gradient mask is detached. A new `FadingMask` is installed exactly when the guard passes, in the single line's direction. |
| `TitleContainer.ExpandablePeerTitleContainerNode.AddAccessory` | submodules/TelegramUI/Sources/ExpandableMultiScaleTextNode.swift:176-180 | The view replaces the state's accessory. |
| `MultiScaleExpandable.GetLinesArrayOfString` | submodules/TelegramUI/Sources/MultiScaleTextNodeExpandable.swift:324-362 | The method returns `LinesArrayOf`. |
| `MultiScaleExpandable.LinesArrayShape` | submodules/TelegramUI/Sources/MultiScaleTextNodeExpandable.swift:333-359 | One line per CoreText line: its substring and range; origin 0; height 36; width `min(box, ceil(typographic - trailing whitespace))`; RTL exactly when the first run is. |
| `MultiScaleExpandable.CollapsedMaskFrame` | submodules/TelegramUI/Sources/MultiScaleTextNodeExpandable.swift:217-223 | The single-line mask sits at the origin, is as high as the single line, and is `max(180, single-line width)` wide. |
| `MultiScaleExpandable.MaskSublayers` | submodules/TelegramUI/Sources/MultiScaleTextNodeExpandable.swift:226-240 | The opaque part spans the mask's height and is followed by a 50-wide gradient. Together they fill the mask's width. |
| `MultiScaleExpandable.CollapsedMaskOpaqueWidth` | submodules/TelegramUI/Sources/MultiScaleTextNodeExpandable.swift:222-232 | The opaque part is at least 130 wide, and at least the single line's width less 50. |
| `MultiScaleExpandable.CentredLineFramesAt` | submodules/TelegramUI/Sources/MultiScaleTextNodeExpandable.swift:242-271 | Line i is centred horizontally and placed below the lines before it, at their height plus a spacing of -4 each. |
| `MultiScaleExpandable.CentredLinesStack` | submodules/TelegramUI/Sources/MultiScaleTextNodeExpandable.swift:264-271 | The appended lines start at y 0 and each is the centred `expandedFrame`. Each line starts its height minus 4 below the previous one. |
| `MultiScaleExpandable.MovedOntoLineAt` | submodules/TelegramUI/Sources/MultiScaleTextNodeExpandable.swift:277-284 | Each node of a previous line moves to y 0 and to x `floor(offset of that line's start in the single line)`. Later nodes stay. |
| `MultiScaleExpandable.MovedOntoLineLastWins` | submodules/TelegramUI/Sources/MultiScaleTextNodeExpandable.swift:272-289 | Moving keeps sizes and puts moved nodes at y 0. Moving twice equals the last move. |
| `MultiScaleExpandable.ExpansionProgressFrame` | submodules/TelegramUI/Sources/MultiScaleTextNodeExpandable.swift:73-93 | The blended frame keeps the node's size. At progress 1 with easing 1 it is the line's `ExpandedFrame`. |
| `MultiScaleExpandable.ExpansionFramesAt` | submodules/TelegramUI/Sources/MultiScaleTextNodeExpandable.swift:63-97 | Node i's frame is the progress frame of remembered line i, below the heights of the nodes before it. |
| `MultiScaleExpandable.ExpansionFramesAgain` | submodules/TelegramUI/Sources/MultiScaleTextNodeExpandable.swift:63-97 | Expanding twice to the same progress equals expanding once. |
| `MultiScaleExpandable.ExpansionFramesSettle` | submodules/TelegramUI/Sources/MultiScaleTextNodeExpandable.swift:63-97 | Node sizes are kept. At progress 1 every node sits at its expanded frame, and each starts where the previous one ends. |
| `MultiScaleExpandable.LinesPlacedEnd` | submodules/TelegramUI/Sources/MultiScaleTextNodeExpandable.swift:244-305 | After the line loop, one of three cases holds. Expanding from collapsed appends one centred node per line. Collapsing moves the old nodes onto the last line. Otherwise the nodes are unchanged. |
| `MultiScaleExpandable.AvatarAlphas` | submodules/TelegramUI/Sources/MultiScaleTextNodeExpandable.swift:444-445 | State 0 is hidden exactly when the avatar is expanded, and state 2 shows the other way. Other states keep their alphas. |
| `MultiScaleExpandable.AvatarAlphasAgain` | submodules/TelegramUI/Sources/MultiScaleTextNodeExpandable.swift:443-446 | Applying the avatar alphas again changes nothing. |
| `MultiScaleExpandable.CrossFadeSettles` | submodules/TelegramUI/Sources/MultiScaleTextNodeExpandable.swift:415-442 | From settled alphas, state 0 shows exactly when progress reaches the threshold, and state 2 is its complement. |
| `MultiScaleExpandable.CrossFadeAgain` | submodules/TelegramUI/Sources/MultiScaleTextNodeExpandable.swift:415-442 | A second cross-fade at the same progress changes nothing. |
| `MultiScaleExpandable.CentredTextFrame` | submodules/TelegramUI/Sources/MultiScaleTextNodeExpandable.swift:469-476 | A state's text frame has its own size, starts at the main bounds' left edge, and is centred vertically in them, rounded down. |
| `MultiScaleExpandable.KeyOrder` | submodules/TelegramUI/Sources/MultiScaleTextNodeExpandable.swift:413 | Some order visiting every key once. Dictionary order is left open. |
| `MultiScaleExpandable.AlphasSoFarDone` | submodules/TelegramUI/Sources/MultiScaleTextNodeExpandable.swift:413-447 | Whatever the dictionary's order, the loop ends at `ExpansionAlphas`. |
| `MultiScaleExpandable.MultiScaleTextStateNodeExpandable.constructor` | submodules/TelegramUI/Sources/MultiScaleTextNodeExpandable.swift:9-32 | A fresh state node has no lines, nothing remembered, progress 0 and an empty mask. |
| `MultiScaleExpandable.MultiScaleTextStateNodeExpandable.UpdateTextFrame` | submodules/TelegramUI/Sources/MultiScaleTextNodeExpandable.swift:34-36 | Sets the text container's frame. |
| `MultiScaleExpandable.MultiScaleTextStateNodeExpandable.UpdateRemembers` | submodules/TelegramUI/Sources/MultiScaleTextNodeExpandable.swift:147-313 | `update` remembers the title, the measured (not the given) size, its lines and its mode. A reset clears the progress. |
| `MultiScaleExpandable.MultiScaleTextStateNodeExpandable.UpdateMask` | submodules/TelegramUI/Sources/MultiScaleTextNodeExpandable.swift:166-241 | Collapsed: the single-line mask at full opacity. Expanding from nothing: that mask grown to the text's height. Otherwise the old mask, grown when first expanding. The sublayers always match the frame. |
| `MultiScaleExpandable.MultiScaleTextStateNodeExpandable.UpdateExpands` | submodules/TelegramUI/Sources/MultiScaleTextNodeExpandable.swift:147-305 | Expanding after a reset or from collapsed gives one centred node per line at the constrained width. The exception is when the remembered title, laid out again at the remembered size, has no line. Then there are no nodes. |
| `MultiScaleExpandable.MultiScaleTextStateNodeExpandable.UpdateCollapses` | submodules/TelegramUI/Sources/MultiScaleTextNodeExpandable.swift:272-289 | Collapsing an expanded title keeps the nodes' texts and moves them onto the single line. |
| `MultiScaleExpandable.MultiScaleTextStateNodeExpandable.UpdateKeepsLineNodes` | submodules/TelegramUI/Sources/MultiScaleTextNodeExpandable.swift:155-164 | Outside those two transitions the line nodes are kept, or cleared by a reset. |
| `MultiScaleExpandable.MultiScaleTextStateNodeExpandable.UpdateRepeatResets` | submodules/TelegramUI/Sources/MultiScaleTextNodeExpandable.swift:149-153 | When the measured size differs from the given one, the next identical `update` resets again. |
| `MultiScaleExpandable.MultiScaleTextStateNodeExpandable.UpdateRepeatSettles` | submodules/TelegramUI/Sources/MultiScaleTextNodeExpandable.swift:139-313 | When the measured size equals the given one, a repeated `update` changes nothing. |
| `MultiScaleExpandable.MultiScaleTextStateNodeExpandable.Update` | submodules/TelegramUI/Sources/MultiScaleTextNodeExpandable.swift:139-314 | Returns the measured size (zero for a blank title). The new state is `Updated`. Collapsing keeps the number of nodes or clears them. |
| `MultiScaleExpandable.MultiScaleTextStateNodeExpandable.ResetIfChanged` | submodules/TelegramUI/Sources/MultiScaleTextNodeExpandable.swift:147-164 | A new title or size clears the nodes and what was remembered. |
| `MultiScaleExpandable.MultiScaleTextStateNodeExpandable.LayOut` | submodules/TelegramUI/Sources/MultiScaleTextNodeExpandable.swift:166-313 | The state after the reset is laid out as `LaidOut`, and the measured size is returned. |
| `MultiScaleExpandable.MultiScaleTextStateNodeExpandable.Remember` | submodules/TelegramUI/Sources/MultiScaleTextNodeExpandable.swift:309-312 | Stores size, title, lines and mode, and nothing else. |
| `MultiScaleExpandable.MultiScaleTextStateNodeExpandable.UpdateSingleLineFadeMask` | submodules/TelegramUI/Sources/MultiScaleTextNodeExpandable.swift:210-241 | The mask step as `MaskUpdated`. First expanding drops the nodes. |
| `MultiScaleExpandable.MultiScaleTextStateNodeExpandable.PlaceLineNodes` | submodules/TelegramUI/Sources/MultiScaleTextNodeExpandable.swift:242-305 | The line loop as `AfterLineLoop`. Nodes are only appended, and never when collapsing. |
| `MultiScaleExpandable.MultiScaleTextStateNodeExpandable.PlaceEveryLine` | submodules/TelegramUI/Sources/MultiScaleTextNodeExpandable.swift:244-305 | The loop keeps the placement invariant up to the last line. |
| `MultiScaleExpandable.MultiScaleTextStateNodeExpandable.AppendExpandedLine` | submodules/TelegramUI/Sources/MultiScaleTextNodeExpandable.swift:255-271 | Appends the line's centred node and moves the offset by its height minus 4. |
| `MultiScaleExpandable.MultiScaleTextStateNodeExpandable.CollapseLine` | submodules/TelegramUI/Sources/MultiScaleTextNodeExpandable.swift:272-289 | Moves every previous line's node onto this line. |
| `MultiScaleExpandable.MultiScaleTextStateNodeExpandable.MoveOntoSingleLine` | submodules/TelegramUI/Sources/MultiScaleTextNodeExpandable.swift:277-289 | The inner loop sets the frames to `MovedOntoLine` and keeps the texts. |
| `MultiScaleExpandable.MultiScaleTextStateNodeExpandable.CollapsedResetLeavesNoLineNodes` | submodules/TelegramUI/Sources/MultiScaleTextNodeExpandable.swift:155-311 | A collapsed `update` after a reset leaves remembered lines but no line nodes. A later expansion would index a missing node, so the trap at `textSubnodes[index]` is reachable. |
| `MultiScaleExpandable.MultiScaleTextStateNodeExpandable.ExpandedLineNode` | submodules/TelegramUI/Sources/MultiScaleTextNodeExpandable.swift:63-97 | Node i of a remembered line gets that line's text and its progress frame, measured from the single line of the remembered title in the widened remembered size. Later nodes stay. |
| `MultiScaleExpandable.MultiScaleTextStateNodeExpandable.ExpandedAgain` | submodules/TelegramUI/Sources/MultiScaleTextNodeExpandable.swift:47-98 | Expanding twice to the same progress equals expanding once. |
| `MultiScaleExpandable.MultiScaleTextStateNodeExpandable.ExpandedSettles` | submodules/TelegramUI/Sources/MultiScaleTextNodeExpandable.swift:63-97 | At progress 1 every remembered line's node holds its text at its `ExpandedFrame`. |
| `MultiScaleExpandable.MultiScaleTextStateNodeExpandable.UpdateExpansion` | submodules/TelegramUI/Sources/MultiScaleTextNodeExpandable.swift:47-98 | The new state is `Expanded`. The method requires a node for every remembered line, where the source traps at line 67. |
| `MultiScaleExpandable.MultiScaleTextStateNodeExpandable.ExpandLines` | submodules/TelegramUI/Sources/MultiScaleTextNodeExpandable.swift:63-97 | The loop sets each remembered line's node to its text and progress frame. |
| `MultiScaleExpandable.MultiScaleTextStateNodeExpandable.ExpandLineNode` | submodules/TelegramUI/Sources/MultiScaleTextNodeExpandable.swift:64-96 | One iteration, with the offset moving down by the node's height. |
| `MultiScaleExpandable.MultiScaleTextNodeExpandable.constructor` | submodules/TelegramUI/Sources/MultiScaleTextNodeExpandable.swift:384-396 | One fresh, empty state node per distinct key. The avatar is not expanded and nothing is transitioning. |
| `MultiScaleExpandable.MultiScaleTextNodeExpandable.UpdateExpansion` | submodules/TelegramUI/Sources/MultiScaleTextNodeExpandable.swift:402-448 | Marks the transition. Every state node is expanded to the progress, aligned by the avatar state. The alphas become `ExpansionAlphas`. State 2 must exist beside state 0 when the avatar is collapsed, since the source force-unwraps it. |
| `MultiScaleExpandable.MultiScaleTextNodeExpandable.ShowAvatarState` | submodules/TelegramUI/Sources/MultiScaleTextNodeExpandable.swift:444-445 | Sets the alphas to `AvatarAlphas`. |
| `MultiScaleExpandable.MultiScaleTextNodeExpandable.CrossFade` | submodules/TelegramUI/Sources/MultiScaleTextNodeExpandable.swift:416-441 | Sets the alphas to `CrossFaded`. |
| `MultiScaleExpandable.MultiScaleTextNodeExpandable.UpdateLayout` | submodules/TelegramUI/Sources/MultiScaleTextNodeExpandable.swift:452-478 | The result has a size for every state with a node, and that node is updated and keeps the size as its layout. With a main size, every such node's text frame is `CentredTextFrame`. |
| `MultiScaleExpandable.MultiScaleTextNodeExpandable.LayOutAll` | submodules/TelegramUI/Sources/MultiScaleTextNodeExpandable.swift:456-468 | The loop over states updates every node with a state, and only those. |
| `MultiScaleExpandable.MultiScaleTextNodeExpandable.PlaceTextContainers` | submodules/TelegramUI/Sources/MultiScaleTextNodeExpandable.swift:469-476 | Every laid-out state's frame is centred on the main size. |
| `MultiScaleExpandable.MultiScaleTextNodeExpandable.UpdateFractions` | submodules/TelegramUI/Sources/MultiScaleTextNodeExpandable.swift:480-505 | Remembers the avatar state. Unless transitioning, every laid-out state named in the fractions is expanded fully in the alignment, and the alphas become `AvatarAlphas`. With `ExpandedSettles`, every line then sits at its expanded frame. |

## Left out

- Animations, transitions, `layer.animateAlpha` and the `DispatchQueue.main.asyncAfter` removal of collapsed line nodes are not modelled. Every frame is set immediately.
- Floating point: `CGFloat` is `real`. `floor`, `ceil`, `min` and `max` are exact, and rounding error is not modelled.
- CoreText (`CTFramesetter`, line and run metrics, `CTLineGetOffsetForStringIndex`, run positions) is left out. So are `TextNode.asyncLayout` and `ImmediateTextNode.updateLayout`. They are opaque functions given as parameters (`CoreText`, `TextShaper`, `measure`), so nothing is proved about their results.
- `sqrt(1 - (p - 1)^2)` is the parameter `yProgress`, in both revisions constrained only by `Geometry.EasesOut`: 0 at progress 0, 1 at progress 1, and in [0, 1] between. Its exact values in between are not modelled.
- `reweightString` (both revisions) is the identity: font weight and variation axes are not modelled. `shouldChangeKernForReweight` is taken as false, so widths are not scaled by 1.1 and `collapseAdjustment` is 0.
- The CALayer colours, gradient start and end points, `masksToBounds` and `redrawIfPossible` are not modelled. Mask geometry is.
- `print` calls, debug text nodes and commented-out code are not modelled.
- `LayoutLines.Substring`: clamps an out-of-range `NSRange`, where `attributedSubstring(from:)` raises `NSRangeException`. The raise is reachable: the container hands the main state's layout to every state (ExpandableMultiScaleTextNode.swift:48-57), and `updateIfNeeded` cuts each state's own string at the main string's ranges (:510). A secondary title shorter than the main one ("Al" beside "Alexander", range 0 to 9) raises there, and the model goes on with the clamped text instead.
- `RangeOrder.Before`: breaks ties of equal location by length, so that the order on keys is total. The source sorts on location only, leaving such ties to dictionary order. `SortedKeysByLocation` states only the location order the source promises.
- `MultiScaleExpandable.MultiScaleTextNodeExpandable.constructor`: accepts any key. The source force-unwraps `order[key as! Int]!`, which traps for any key other than 0, 1 or 2, and orders subnodes 0, 2, 1. Subnode order is not modelled.
- `TitleContainer.ExpandablePeerTitleContainerNode.constructor`: the `order` argument and the resulting subnode order are not modelled.
- `textContainer`, `stateNode(forKey:)` and the node hierarchy (`addSubnode`, `removeFromSupernode`) are not modelled. Line nodes and fragments are values held in sequences, so aliasing between nodes is not modelled.
- Dictionary iteration order is open: loops over a Swift dictionary take any order visiting each key once (`KeyOrder`, `Enumerates`), and contracts hold for every such order.
- `MultiScaleExpandable.MultiScaleTextStateNodeExpandable.Update`: the `assertionFailure()` branch (expanding from collapsed with no previous line) is modelled as doing nothing, as in a release build.
- `MultiScaleExpandable.MultiScaleTextStateNodeExpandable.Update`: `textSubnodes[lineIndex]` in the collapse loop traps when a previous line has no node. The source does not check this, so it is a requires (`UpdateInBounds`) instead of a modelled crash.
- `MultiScaleExpandable.MultiScaleTextStateNodeExpandable.UpdateExpansion`: `textSubnodes[index]` likewise traps when a remembered line has no node. This is the requires `ExpansionInBounds`, which the callers `UpdateExpansion` and `UpdateFractions` carry. `CollapsedResetLeavesNoLineNodes` shows that the trap is reachable.
- `MultiScaleExpandable.MultiScaleTextNodeExpandable.UpdateLayout`: the debug `assert`s on the key sets are not preconditions, as in a release build.
- `MultiScaleExpandable.MultiScaleTextNodeExpandable.UpdateFractions`: `fractionSum` and the `alpha` argument are computed or passed but never used, and are not modelled.
- `isTransitioning`: the earlier revision sets it in `updateExpansion` and never clears it. The later revision never sets it, so it stays false unless a caller outside the core sets it. The model follows both.
- `MultiScaleTextLayoutExpandable` and `MultiScaleTextLayout` are modelled by the size they wrap.
- The later `updateExpansion` does not call `updateContainerFading`, and the model follows the code. The rtlAdjustment is half the excess width (`/ 2.0`), as the code computes.
- `ExpandedLayout.LayoutFrameOfRun`: states the frame of a range only for the last run that assigns it. When two runs share a range, earlier values are overwritten, as in the dictionary.
- `TitleTextNode.ExpandablePeerTitleTextNode.UpdateExpansion`: `textFragmentsNodes[index]` traps when there are fewer fragments than ranges. The model's fragment invariant (`Valid`) keeps one fragment per range, as `updateIfNeeded` builds them.
