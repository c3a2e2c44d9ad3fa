# lector: selection geometry, annotations, tooltip anchor, viewer stores and text-layer registry

This project models the state-handling core of lector, a React PDF viewer built on pdf.js, and proves properties of that model in Dafny:

- **Selection geometry**: `getDimension` turns the browser selection into highlight rectangles. It keeps client rectangles larger than one pixel each way that have a text layer under them. It converts them to zoom-1 page units, with the height capped at 16. It groups them by page, in the order pages first appear. Each group is sorted by top then left and folded in a single pass. The groups are then concatenated and stably sorted by page number. The same file defines `shouldMergeRectangles`, `mergeRectangles` and `consolidateRects`, the top-sorted pass that grows every merged box by a fixed margin.
- **Annotation store** (`useAnnotations`): a list that each action replaces with a new list. The actions are add, update by id, delete by id, set, and `addPDFAnnotations`. The last one drops every annotation on the page and appends the PDF's annotations, each converted from `[x1, y1, x2, y2]`.
- **Tooltip anchor** (`useAnnotationTooltip`): the reference rectangle is the union of an annotation's highlights, projected to viewport pixels. Its four running bounds belong to the reference object and persist across queries.
- **Viewer stores**: lector's `PDFStore` and the older pdf-viewer `PDFStore`. These cover zoom clamping (a value or a function of the previous zoom), the zoom-option defaults, the resolution bounds, page-proxy lookup, colored highlights, and the setters.
- **Text-layer selection registry** (`useTextLayer`): a map from bound text layers to their end-of-content divs. It holds one abort controller that exists exactly while the map is non-empty, plus the selection-change rule: layers that some range intersects are marked `selecting`, and the others are reset.

Modules:

- `Wrappers`: `Option` and `Result`.
- `Geometry`: `HighlightRect` and the per-page filter `OnPage`.
- `RectSort`: the stable sorts.
- `RectMerge`: the rectangle primitives and `consolidateRects`.
- `SelectionDimensions`: `getDimension`.
- `Annotations`.
- `AnnotationTooltip`.
- `Zoom`: the clamp shared by both stores.
- `LectorStore`.
- `ViewerStore`.
- `TextLayer`.

Stores whose fields the source overwrites are classes, and their actions are methods. Each method's postcondition gives the new state as a function of the old one. The lemmas beside each method prove what those functions guarantee. Loops in the source are `while` loops proved against these functions: the `getDimension` passes, the tooltip `forEach`, and the registry's iterations over the map.

The browser is an input throughout:

- For each client rectangle of the selection, the text layer under it (page number and viewport origin), if there is one.
- The page element's origin for the tooltip.
- `range.intersectsNode` for the registry.
- Identifiers (`uuidv4()`) and the clock (`Date.now()`, `new Date()`), given as arguments. Dates are integers counting milliseconds.

## Model

| member | source | states |
|---|---|---|
| Geometry.OnPageMembers | packages/lector/src/hooks/useSelectionDimensions.tsx:139-142 | a page's group holds exactly the collected rectangles on that page |
| Geometry.OnPage | packages/lector/src/hooks/useSelectionDimensions.tsx:139-142 | the group `textLayerMap` holds for page p: the rectangles on page p, in the order they were pushed |
| Geometry.OnPageAppend | packages/lector/src/hooks/useSelectionDimensions.tsx:139-142 | grouping by page distributes over concatenation |
| RectSort.SortBy | packages/lector/src/hooks/useSelectionDimensions.tsx:147-150 | the sorted list is a permutation of the input |
| RectSort.SortBySorted | packages/lector/src/hooks/useSelectionDimensions.tsx:147-150 | the result is ordered by the comparator (top; top then left; page number) |
| RectSort.SortByPageStable | packages/lector/src/hooks/useSelectionDimensions.tsx:184 | the sort by page keeps each page's rectangles in their input order (a stable sort) |
| RectSort.InsertByPageStable | packages/lector/src/hooks/useSelectionDimensions.tsx:184 | inserting one rectangle changes each page's subsequence only by that rectangle, at its front |
| RectSort.SortByStable | packages/lector/src/hooks/useSelectionDimensions.tsx:147-150 | the sort is stable under every comparator it is given (by top, by top then left, by page): the elements whose key equals any one key come out in their input order |
| RectSort.InsertStable | packages/lector/src/hooks/useSelectionDimensions.tsx:147-150 | inserting an element puts it in front of the elements with its key and keeps their order |
| RectMerge.ShouldMergeMeaning | packages/lector/src/hooks/useSelectionDimensions.tsx:12-29 | for non-negative heights and positive widths: merge iff the closed vertical spans meet and (a facing-edge gap is under 2 or the open horizontal spans meet) |
| RectMerge.VerticalOverlap | packages/lector/src/hooks/useSelectionDimensions.tsx:17-19 | the two vertical spans are not separated: neither top lies below the other's bottom |
| RectMerge.HorizontallyClose | packages/lector/src/hooks/useSelectionDimensions.tsx:22-26 | a right edge lies within 2 of the other's left edge, either way round, or the horizontal spans overlap |
| RectMerge.ShouldMergeRectangles | packages/lector/src/hooks/useSelectionDimensions.tsx:12-29 | both tests hold |
| RectMerge.ShouldMergeSymmetric | packages/lector/src/hooks/useSelectionDimensions.tsx:12-29 | the merge test does not depend on argument order |
| RectMerge.MergeRectangles | packages/lector/src/hooks/useSelectionDimensions.tsx:31-46 | the merged box keeps the first page, contains both rectangles, and takes each edge from one of them |
| RectMerge.MergeIsLeastCover | packages/lector/src/hooks/useSelectionDimensions.tsx:31-46 | any box containing both rectangles contains their merge |
| RectMerge.MergeSelf | packages/lector/src/hooks/useSelectionDimensions.tsx:68-72 | merging a rectangle with itself (the loop's first step) leaves it unchanged |
| RectMerge.BlowUpContains | packages/lector/src/hooks/useSelectionDimensions.tsx:58-66 | the margin-grown box contains the box it grew |
| RectMerge.BlowUp | packages/lector/src/hooks/useSelectionDimensions.tsx:58-66 | 2 more on the left and at the top, 4 wider and 2 taller, same page |
| RectMerge.ConsolidateRun | packages/lector/src/hooks/useSelectionDimensions.tsx:68-95 | the pass from the box being grown: the next rectangle is merged in when `ShouldMergeRectangles` holds, otherwise the box is closed, blown up and output, and the next one starts a new box; the last box is output blown up |
| RectMerge.Consolidate | packages/lector/src/hooks/useSelectionDimensions.tsx:48-97 | zero or one rectangle come back as they are; otherwise the rectangles are sorted by top and the pass runs from the first |
| RectMerge.ConsolidateRects | packages/lector/src/hooks/useSelectionDimensions.tsx:48-97 | the loop, including its `break` on the last element, computes `Consolidate` |
| RectMerge.ConsolidateRunLength | packages/lector/src/hooks/useSelectionDimensions.tsx:68-95 | the pass emits at least one box and no more boxes than rectangles read |
| RectMerge.ConsolidateRunCovers | packages/lector/src/hooks/useSelectionDimensions.tsx:68-95 | every rectangle read lies in the unexpanded part of some emitted box |
| RectMerge.ConsolidateRunTight | packages/lector/src/hooks/useSelectionDimensions.tsx:68-95 | every emitted box, before its margin, has its four edges and its page from the input rectangles |
| RectMerge.ConsolidateProperties | packages/lector/src/hooks/useSelectionDimensions.tsx:48-97 | with two or more inputs: 1..n outputs, every input covered by an output, every output a tight margin-grown bounding box of inputs |
| RectMerge.ConsolidateShort | packages/lector/src/hooks/useSelectionDimensions.tsx:49 | zero or one rectangle comes back unchanged, without a margin |
| SelectionDimensions.VisibleOnly | packages/lector/src/hooks/useSelectionDimensions.tsx:111-113 | a fragment survives iff both its width and height exceed one pixel |
| SelectionDimensions.Visible | packages/lector/src/hooks/useSelectionDimensions.tsx:111-113 | a client rectangle passes the size filter when it is more than 1 wide and more than 1 tall |
| SelectionDimensions.ToPageRect | packages/lector/src/hooks/useSelectionDimensions.tsx:131-137 | the converted rectangle has the layer's page number and a height of at most 16 |
| SelectionDimensions.ToPageRectInverse | packages/lector/src/hooks/useSelectionDimensions.tsx:131-137 | scaling back by the zoom from the layer origin restores left, top and width; height is height/zoom unless capped at 16 |
| SelectionDimensions.AttributedFrom | packages/lector/src/hooks/useSelectionDimensions.tsx:115-137 | every collected rectangle is the conversion of a fragment that has a text layer |
| SelectionDimensions.Attributed | packages/lector/src/hooks/useSelectionDimensions.tsx:115-143 | the converted rectangles of the fragments that hit a text layer, in fragment order; fragments with no layer are skipped |
| SelectionDimensions.PageRects | packages/lector/src/hooks/useSelectionDimensions.tsx:111-143 | the rectangles collected from a selection: the visible fragments, then the converted ones that hit a text layer |
| SelectionDimensions.PageRectsFrom | packages/lector/src/hooks/useSelectionDimensions.tsx:111-137 | every collected rectangle comes from a fragment that passed the size filter and has a text layer |
| SelectionDimensions.PageOrder | packages/lector/src/hooks/useSelectionDimensions.tsx:139-141 | the map's keys are exactly the pages of the collected rectangles |
| SelectionDimensions.PageOrderDistinct | packages/lector/src/hooks/useSelectionDimensions.tsx:139-141 | no page is a key twice |
| SelectionDimensions.GroupStep | packages/lector/src/hooks/useSelectionDimensions.tsx:139-142 | one more rectangle adds its page as a new last key if absent and appends it to its page's group |
| SelectionDimensions.PushRectGrouped | packages/lector/src/hooks/useSelectionDimensions.tsx:139-142 | create-then-push keeps the map equal to the grouping of the rectangles seen so far |
| SelectionDimensions.GroupByPage | packages/lector/src/hooks/useSelectionDimensions.tsx:115-143 | the first loop leaves `textLayerMap` holding the grouping by page, keys in first-appearance order |
| SelectionDimensions.MergeGroup | packages/lector/src/hooks/useSelectionDimensions.tsx:146-179 | one group's sort-and-fold loop computes `MergePage` of the group |
| SelectionDimensions.MergeGroups | packages/lector/src/hooks/useSelectionDimensions.tsx:145-181 | the second loop concatenates the merged groups in key order |
| SelectionDimensions.Adjacent | packages/lector/src/hooks/useSelectionDimensions.tsx:162-165 | the next rectangle joins the current one when their tops differ by less than 2 and it starts less than 2 past the current right edge |
| SelectionDimensions.Extend | packages/lector/src/hooks/useSelectionDimensions.tsx:166-172 | the joined rectangle keeps the current page, top and left, ends at the next one's right edge and takes the larger height |
| SelectionDimensions.FoldLine | packages/lector/src/hooks/useSelectionDimensions.tsx:156-178 | the pass over one sorted group: join while `Adjacent`, otherwise output the current rectangle and start from the next; the last current rectangle is output |
| SelectionDimensions.MergePage | packages/lector/src/hooks/useSelectionDimensions.tsx:146-179 | an empty group gives nothing; otherwise the group sorted by top then left and folded |
| SelectionDimensions.ConcatPages | packages/lector/src/hooks/useSelectionDimensions.tsx:145-181 | the merged groups of the pages, one after another in the given page order |
| SelectionDimensions.Highlights | packages/lector/src/hooks/useSelectionDimensions.tsx:107-184 | the merged groups in key order, then sorted by page number |
| SelectionDimensions.PushRect | packages/lector/src/hooks/useSelectionDimensions.tsx:139-142 | a new page gets a group holding the rectangle and is added to the key order; a known page gets the rectangle appended to its group |
| SelectionDimensions.GetDimension | packages/lector/src/hooks/useSelectionDimensions.tsx:102-188 | no result for an absent or collapsed selection; otherwise the highlights, the trimmed text, and `isCollapsed` false |
| SelectionDimensions.FoldLineProperties | packages/lector/src/hooks/useSelectionDimensions.tsx:156-178 | the fold emits 1..n rectangles, each taking top, left and page from one input, its right edge from one input and its height from one input |
| SelectionDimensions.MergePageProperties | packages/lector/src/hooks/useSelectionDimensions.tsx:146-179 | an empty group gives nothing, and a non-empty group gives 1..n rectangles drawn from it |
| SelectionDimensions.MergePageOnPage | packages/lector/src/hooks/useSelectionDimensions.tsx:166-172 | a page's merged rectangles stay on that page |
| SelectionDimensions.ConcatPagesOnPage | packages/lector/src/hooks/useSelectionDimensions.tsx:145-181 | on each page, the concatenation holds exactly that page's merged group |
| SelectionDimensions.HighlightsSorted | packages/lector/src/hooks/useSelectionDimensions.tsx:184 | the returned highlights are sorted by page number |
| SelectionDimensions.HighlightsByPage | packages/lector/src/hooks/useSelectionDimensions.tsx:183-184 | on every page the highlights are exactly the merge of that page's rectangles, in the pass's order |
| SelectionDimensions.AttributedHeight | packages/lector/src/hooks/useSelectionDimensions.tsx:133 | no collected rectangle is taller than 16 |
| SelectionDimensions.HighlightsHeight | packages/lector/src/hooks/useSelectionDimensions.tsx:133 | no returned highlight is taller than 16 |
| SelectionDimensions.HighlightsPerPage | packages/lector/src/hooks/useSelectionDimensions.tsx:156-178 | a page with k collected rectangles gets between 1 and k highlights |
| SelectionDimensions.FoldLineCanShrink | packages/lector/src/hooks/useSelectionDimensions.tsx:166-172 | a concrete pair, ordered by top then left, whose fold has width -7: the fold does not always contain its inputs |
| SelectionDimensions.TrimStart | packages/lector/src/hooks/useSelectionDimensions.tsx:185 | the index of the first character not in the given set (JavaScript white space for `Trim`): every character before it is in the set |
| SelectionDimensions.TrimEnd | packages/lector/src/hooks/useSelectionDimensions.tsx:185 | one past the last character not in the given set: every character from it on is in the set |
| SelectionDimensions.TrimMeaning | packages/lector/src/hooks/useSelectionDimensions.tsx:185 | for any set of characters, and so for `Trim` with JavaScript's white space: the trimmed text is a slice with only such characters around it, and it neither starts nor ends with one |
| SelectionDimensions.TrimBy | packages/lector/src/hooks/useSelectionDimensions.tsx:185 | the slice between the first and one past the last character outside the set; empty when every character is in it |
| SelectionDimensions.Trim | packages/lector/src/hooks/useSelectionDimensions.tsx:185 | `String.prototype.trim`: trimming by JavaScript's white space and line terminators |
| Annotations.ApplyPatch | packages/lector/src/hooks/useAnnotations.ts:45-53 | `updatedAt` is now; every field the patch has takes the patch's value and every field it lacks keeps its value |
| Annotations.NewAnnotation | packages/lector/src/hooks/useAnnotations.ts:35-40 | the draft's fields with the new id, and the clock as both dates |
| Annotations.Updated | packages/lector/src/hooks/useAnnotations.ts:45-53 | each record with the id goes through `ApplyPatch`, every other record stays, in order |
| Annotations.WithoutId | packages/lector/src/hooks/useAnnotations.ts:57 | the records whose id differs, in order |
| Annotations.OffPage | packages/lector/src/hooks/useAnnotations.ts:77-79 | the records not on the page, in order |
| Annotations.FromPdf | packages/lector/src/hooks/useAnnotations.ts:62-74 | one highlight on the page whose left/top are x1/y1 and whose right/bottom are x2/y2 |
| Annotations.FromPdfAll | packages/lector/src/hooks/useAnnotations.ts:62-74 | one converted annotation per PDF annotation, in order |
| Annotations.AnnotationStore.constructor | packages/lector/src/hooks/useAnnotations.ts:30 | the store starts empty |
| Annotations.AnnotationStore.AddAnnotation | packages/lector/src/hooks/useAnnotations.ts:31-42 | the new record is appended to the list |
| Annotations.AnnotationStore.UpdateAnnotation | packages/lector/src/hooks/useAnnotations.ts:43-54 | the list becomes `Updated` of the old list |
| Annotations.AnnotationStore.DeleteAnnotation | packages/lector/src/hooks/useAnnotations.ts:55-58 | the list becomes the old list without the id |
| Annotations.AnnotationStore.SetAnnotations | packages/lector/src/hooks/useAnnotations.ts:59 | the list is replaced |
| Annotations.AnnotationStore.AddPdfAnnotations | packages/lector/src/hooks/useAnnotations.ts:60-84 | the records on other pages, followed by the converted PDF annotations |
| Annotations.AddedRecord | packages/lector/src/hooks/useAnnotations.ts:31-42 | earlier records are kept, and the last record has the draft's fields, the new id and both dates equal to now |
| Annotations.UpdatedProperties | packages/lector/src/hooks/useAnnotations.ts:43-54 | same length and order; records with the id are patched and stamped, and all others are unchanged |
| Annotations.UpdatedAbsent | packages/lector/src/hooks/useAnnotations.ts:43-54 | updating an id no record has changes nothing |
| Annotations.WithoutIdMembers | packages/lector/src/hooks/useAnnotations.ts:55-58 | exactly the records with another id remain |
| Annotations.WithoutIdAppend | packages/lector/src/hooks/useAnnotations.ts:55-58 | deletion keeps order: it distributes over concatenation |
| Annotations.WithoutIdAbsent | packages/lector/src/hooks/useAnnotations.ts:55-58 | deleting an id no record has changes nothing |
| Annotations.OffPageMembers | packages/lector/src/hooks/useAnnotations.ts:76-79 | exactly the records on other pages remain |
| Annotations.OffPageLength | packages/lector/src/hooks/useAnnotations.ts:76-79 | the filtered list has one entry per record on another page |
| Annotations.OffPageAppend | packages/lector/src/hooks/useAnnotations.ts:77-79 | the filter keeps order: filtering a concatenation filters each part |
| Annotations.AddPdfProperties | packages/lector/src/hooks/useAnnotations.ts:60-84 | no record of the page survives, even a user-made one; the others keep their order; the i-th PDF annotation follows them at offset i |
| Annotations.AddKeepsUnique | packages/lector/src/hooks/useAnnotations.ts:31-42 | adding with a fresh id keeps ids unique |
| Annotations.DeleteKeepsUnique | packages/lector/src/hooks/useAnnotations.ts:55-58 | deleting keeps ids unique |
| AnnotationTooltip.MinWith | packages/lector/src/hooks/useAnnotationTooltip.ts:110-113 | `Math.min` against a running minimum that is a number or +Infinity (never -Infinity, which the bounds never hold) yields a number no larger than either argument |
| AnnotationTooltip.MaxWith | packages/lector/src/hooks/useAnnotationTooltip.ts:110-113 | `Math.max` against a running maximum that is a number or -Infinity (never +Infinity) yields a number no smaller than either argument |
| AnnotationTooltip.IsNewAnnotation | packages/lector/src/hooks/useAnnotationTooltip.ts:48 | the tooltip starts open when the annotation was created less than 1000 ms ago |
| AnnotationTooltip.Project | packages/lector/src/hooks/useAnnotationTooltip.ts:100-108 | a highlight scaled by the zoom and moved by the page's viewport origin: left, right, top and bottom |
| AnnotationTooltip.WidenAll | packages/lector/src/hooks/useAnnotationTooltip.ts:99-114 | the running bounds after the `forEach` has taken in every projected highlight, in order |
| AnnotationTooltip.Widen | packages/lector/src/hooks/useAnnotationTooltip.ts:110-113 | after one step the bounds are finite and enclose the projected highlight |
| AnnotationTooltip.RectOf | packages/lector/src/hooks/useAnnotationTooltip.ts:116-130 | the centre-based rectangle has left = x = minLeft, top = y = minTop, right = maxRight, bottom = maxBottom, and width/height as the differences |
| AnnotationTooltip.TooltipReference.constructor | packages/lector/src/hooks/useAnnotationTooltip.ts:82-88 | the bounds start at +/-Infinity |
| AnnotationTooltip.TooltipReference.GetBoundingClientRect | packages/lector/src/hooks/useAnnotationTooltip.ts:89-133 | without a viewport or page element: the zero rectangle, bounds untouched; otherwise the bounds are widened by every projected highlight and the rectangle spans them; for a non-negative scale and highlight sizes its width and height are non-negative on every call |
| AnnotationTooltip.TooltipReference.GetClientRects | packages/lector/src/hooks/useAnnotationTooltip.ts:134-136 | a one-element list holding the bounding rectangle |
| AnnotationTooltip.Tooltip.constructor | packages/lector/src/hooks/useAnnotationTooltip.ts:48-49 | the tooltip starts open iff the annotation was created less than 1000 ms ago |
| AnnotationTooltip.Tooltip.SetIsOpen | packages/lector/src/hooks/useAnnotationTooltip.ts:60-63 | the open flag takes the given value |
| AnnotationTooltip.Tooltip.UpdateTooltipPosition | packages/lector/src/hooks/useAnnotationTooltip.ts:79-139 | nothing happens without highlights; otherwise a fresh reference with unbounded bounds, the annotation's highlights and the scale |
| AnnotationTooltip.WidenAllEncloses | packages/lector/src/hooks/useAnnotationTooltip.ts:99-114 | the widened bounds enclose every projected highlight |
| AnnotationTooltip.WidenAllGrows | packages/lector/src/hooks/useAnnotationTooltip.ts:83-114 | bounds carried between queries never shrink |
| AnnotationTooltip.WidenAllTight | packages/lector/src/hooks/useAnnotationTooltip.ts:99-114 | each bound is either the earlier bound or an edge of a projected highlight |
| AnnotationTooltip.NonNegativeSize | packages/lector/src/hooks/useAnnotationTooltip.ts:116-130 | for a non-negative scale and highlight sizes, the rectangle of any query, from the initial infinities or from the bounds earlier queries left, has non-negative width and height |
| AnnotationTooltip.ProjectStoredRect | packages/lector/src/hooks/useAnnotationTooltip.ts:99-108 | a rectangle stored by `getDimension`, projected at the same zoom from the same origin, lands on its client rectangle (height capped) |
| Zoom.Clamp | packages/lector/src/internal.ts:119-130 | the clamped zoom lies in [lo, hi] when lo <= hi, and equals the request when that is already in range |
| Zoom.ClampIdempotent | packages/lector/src/internal.ts:119-130 | clamping twice is clamping once |
| Zoom.ClampMonotonic | packages/lector/src/internal.ts:119-130 | a larger request never gives a smaller zoom |
| Zoom.Requested | packages/lector/src/internal.ts:122-128 | the function form is applied to the previous zoom; the value form is taken as is |
| Zoom.NextZoom | packages/lector/src/internal.ts:119-130 | the new zoom lies in [minZoom, maxZoom] when minZoom <= maxZoom, and an in-range request is kept |
| Zoom.NextZoomIdempotent | packages/lector/src/internal.ts:127-128 | re-applying the zoom a value update produced changes nothing |
| Zoom.ByConstantFunction | packages/lector/src/internal.ts:122-128 | a constant function behaves like the value form |
| Zoom.FitWidthFlag | packages/lector/src/internal.ts:119 | the fit-width flag is true only when `true` is passed; it defaults to false |
| LectorStore.MinZoomOf | packages/lector/src/internal.ts:112 | minZoom is the given option, or 0.5 |
| LectorStore.MaxZoomOf | packages/lector/src/internal.ts:113 | maxZoom is the given option, or 10 |
| LectorStore.InitialResolution | packages/lector/src/internal.ts:213 | the initial resolution is at most 4, is 1 when not given, and keeps any given value up to 4, including one below 1 |
| LectorStore.BoundResolution | packages/lector/src/internal.ts:216 | a set resolution lies in [1, 4] and is unchanged when already there |
| LectorStore.WithoutUuidMembers | packages/lector/src/internal.ts:206-211 | exactly the colored highlights with another uuid remain |
| LectorStore.WithoutUuid | packages/lector/src/internal.ts:206-211 | the colored highlights whose uuid differs, in order |
| LectorStore.WithoutUuidAppend | packages/lector/src/internal.ts:206-211 | the filter keeps order: deleting from a concatenation deletes from each part |
| LectorStore.WithoutUuidAbsent | packages/lector/src/internal.ts:206-211 | deleting a uuid no highlight has changes nothing |
| LectorStore.WithoutUuidIdempotent | packages/lector/src/internal.ts:206-211 | deleting twice is deleting once |
| LectorStore.AddThenDelete | packages/lector/src/internal.ts:202-211 | adding a highlight with a new uuid and then deleting that uuid restores the list |
| LectorStore.PdfStore.constructor | packages/lector/src/internal.ts:107-218 | the initial state: the given zoom (not clamped), fit-width defaulting to false, option defaults, current page 1, empty lists, no virtualizer |
| LectorStore.PdfStore.UpdateZoom | packages/lector/src/internal.ts:119-130 | zoom becomes the clamp of the request (the function form applied to the previous zoom) and lies in the bounds when they are ordered; the flag takes its argument, false by default |
| LectorStore.PdfStore.SetCurrentPage | packages/lector/src/internal.ts:151-156 | only `currentPage` changes, to the argument |
| LectorStore.PdfStore.SetIsPinching | packages/lector/src/internal.ts:158-163 | only `isPinching` changes, to the argument |
| LectorStore.PdfStore.SetVirtualizer | packages/lector/src/internal.ts:165-170 | only `virtualizer` changes, to the argument |
| LectorStore.PdfStore.GetPdfPageProxy | packages/lector/src/internal.ts:172-179 | the proxy at index n-1 when 1 <= n <= page count; otherwise the "page does not exist" error |
| LectorStore.PdfStore.SetTextContent | packages/lector/src/internal.ts:181-186 | only `textContent` changes, to the argument |
| LectorStore.PdfStore.SetHighlight | packages/lector/src/internal.ts:187-192 | only `highlights` changes, to the argument |
| LectorStore.PdfStore.SetCustomSelectionRects | packages/lector/src/internal.ts:194-199 | only `customSelectionRects` changes, to the argument |
| LectorStore.PdfStore.AddColoredHighlight | packages/lector/src/internal.ts:202-205 | the highlight is appended |
| LectorStore.PdfStore.DeleteColoredHighlight | packages/lector/src/internal.ts:206-211 | every highlight with the uuid is removed |
| LectorStore.PdfStore.SetResolution | packages/lector/src/internal.ts:214-218 | the resolution becomes the argument bounded to [1, 4] |
| ViewerStore.PdfStore.constructor | packages/pdf-viewer/src/lib/internal.ts:75-165 | zoom 1 within the fixed bounds [0.5, 10], fit-width defaulting to false, current page 1, empty lists |
| ViewerStore.PdfStore.UpdateZoom | packages/pdf-viewer/src/lib/internal.ts:88-99 | zoom becomes the clamp of the request into [0.5, 10], so it stays in range; the flag takes its argument, false by default |
| ViewerStore.PdfStore.SetCurrentPage | packages/pdf-viewer/src/lib/internal.ts:120-125 | only `currentPage` changes, to the argument |
| ViewerStore.PdfStore.SetIsPinching | packages/pdf-viewer/src/lib/internal.ts:127-132 | only `isPinching` changes, to the argument |
| ViewerStore.PdfStore.SetVirtualizer | packages/pdf-viewer/src/lib/internal.ts:134-139 | only `virtualizer` changes, to the argument |
| ViewerStore.PdfStore.GetPdfPageProxy | packages/pdf-viewer/src/lib/internal.ts:141-145 | the proxy at index n-1 when 1 <= n <= page count, otherwise nothing (no error) |
| ViewerStore.PdfStore.SetTextContent | packages/pdf-viewer/src/lib/internal.ts:147-152 | only `textContent` changes, to the argument |
| ViewerStore.PdfStore.SetHighlight | packages/pdf-viewer/src/lib/internal.ts:153-158 | only `highlights` changes, to the argument |
| ViewerStore.PdfStore.SetCustomSelectionRects | packages/pdf-viewer/src/lib/internal.ts:160-165 | only `customSelectionRects` changes, to the argument |
| TextLayer.Active | packages/lector/src/hooks/layers/useTextLayer.tsx:159-168 | a registered layer is active iff some range of the selection intersects it |
| TextLayer.AbortController.Abort | packages/lector/src/hooks/layers/useTextLayer.tsx:110 | the controller is aborted |
| TextLayer.Registry.constructor | packages/lector/src/hooks/layers/useTextLayer.tsx:79-83 | no layer registered, no controller, pointer up |
| TextLayer.Registry.EnableGlobalSelectionListener | packages/lector/src/hooks/layers/useTextLayer.tsx:115-121 | afterwards a live controller exists; an existing one is kept, and only when none existed is a fresh one created |
| TextLayer.Registry.BindMouseEvents | packages/lector/src/hooks/layers/useTextLayer.tsx:85-105 | a bound div changes nothing; otherwise the div maps to its end div, is bound, and a controller exists (the existing one kept); the registry invariant holds |
| TextLayer.Registry.RemoveGlobalSelectionListener | packages/lector/src/hooks/layers/useTextLayer.tsx:107-113 | the div is removed; the controller is aborted and cleared exactly when no layer is left, and kept otherwise |
| TextLayer.Registry.Cleanup | packages/lector/src/hooks/layers/useTextLayer.tsx:100-104 | the div is unregistered and unbound (so a later bind registers it again), and the registry invariant holds |
| TextLayer.Registry.Reset | packages/lector/src/hooks/layers/useTextLayer.tsx:123-130 | the end div is back under its layer with no inline size, and the layer loses `selecting` |
| TextLayer.Registry.ResetAll | packages/lector/src/hooks/layers/useTextLayer.tsx:136-139 | every registered layer loses `selecting`, and every registered end div is re-attached and unsized |
| TextLayer.Registry.OnMouseDown | packages/lector/src/hooks/layers/useTextLayer.tsx:94-98 | a bound div gains `selecting` |
| TextLayer.Registry.OnPointerDown | packages/lector/src/hooks/layers/useTextLayer.tsx:132-134 | while listeners are live, the pointer is down |
| TextLayer.Registry.OnPointerUp | packages/lector/src/hooks/layers/useTextLayer.tsx:136-139 | while listeners are live: pointer up and every layer reset; otherwise nothing |
| TextLayer.Registry.OnBlur | packages/lector/src/hooks/layers/useTextLayer.tsx:141-144 | as pointer-up |
| TextLayer.Registry.OnKeyUp | packages/lector/src/hooks/layers/useTextLayer.tsx:146-150 | every layer is reset unless the pointer is down or the listeners are gone |
| TextLayer.Registry.ActiveTextLayers | packages/lector/src/hooks/layers/useTextLayer.tsx:159-168 | the nested loops compute exactly the intersected registered layers |
| TextLayer.Registry.MarkSelecting | packages/lector/src/hooks/layers/useTextLayer.tsx:170-177 | active layers gain `selecting`, the other registered layers are reset, and unregistered ones are untouched |
| TextLayer.Registry.OnSelectionChange | packages/lector/src/hooks/layers/useTextLayer.tsx:152-177 | no selection or no range: every layer reset; otherwise a registered layer is selecting iff some range intersects it, and every other layer is reset |

## Left out

- DOM queries become inputs: `elementFromPoint`, `closest(".textLayer")`, `getBoundingClientRect`, the `data-page-number` attribute, `querySelector` and `intersectsNode`. A page number is an integer, so `parseInt` of a missing attribute (`"1"`) is part of that input.
- The floating-ui wiring of the tooltip is a foreign library and is not modelled: placement, offset, flip, shift, `useDismiss` and `onOpenChange` forwarding. The scroll and resize listeners with `requestAnimationFrame` are event plumbing and are not modelled either. The reference's `contextElement` is not modelled.
- The render effect of `useTextLayer` (pdf.js `TextLayer`, its promise and cancellation, and appending `endOfContent`) is not modelled. Of its cleanup, only the call to the div's cleanup closure is modelled, as `TextLayer.Registry.Cleanup`.
- The Firefox detection and the `endOfContent` repositioning of the selection-change listener are not modelled, and neither is `prevRange`. They depend on `getComputedStyle` and `Range.compareBoundaryPoints`. The sets of detached and sized end divs are therefore only ever shrunk by the model.
- An end div's position among its layer's children is not modelled, only whether it is a child of its layer.
- `zoomFitWidth` is not modelled: `getFitWidthZoom` is not part of this model, and it reads the viewport's `clientWidth`.
- `useCanvasLayer` (canvas rendering, debounce, floating-point scale limits) is not modelled.
- The UI components are JSX: the annotation highlight layer, the annotation tooltip, the page, the canvas layer and the custom selection overlay.
- `getSelection` in `useSelectionDimensions` is a type cast of `getDimension` and is not modelled.
- Store fields holding pdf.js or React objects are opaque handles or left out: `pdfDocumentProxy`, `viewports`, `viewportRef`, the page proxies and the virtualizer.
- `HighlightRect`'s optional `type` and `style` fields are not modelled; no core operation reads them.
- Numbers are modelled as reals. NaN, infinities (other than the tooltip's starting bounds) and rounding are not modelled.
- Identifiers and clock readings are arguments. All `new Date()` readings of one action are taken to read one instant: the two of `addAnnotation`, and the two per PDF annotation (2·n in all) of `addPDFAnnotations`.
- Zoom.Clamp: the `clamp` helper of both stores is not part of this model. It is taken to be `min(max(x, lo), hi)`.
- SelectionDimensions.ToPageRect: requires zoom > 0. The source divides by the store's zoom. The pdf-viewer store keeps it within [0.5, 10]. lector's store keeps it positive only when the caller's `minZoom` is positive, and its initial zoom is taken unclamped from the caller.
- A zero or negative zoom in lector is not modelled: with `zoomOptions.minZoom <= 0`, `updateZoom` can store zero or a negative zoom (`LectorStore.PdfStore.UpdateZoom` models that), and `getDimension`'s division by such a zoom is outside the model.
- SelectionDimensions.GetDimension: requires zoom > 0, for the same reason. Only the selection's first range is read, as in the source.
- Annotations.AnnotationStore.AddPdfAnnotations: a PDF annotation is given as its four `rect` numbers; other PDF fields are ignored, as in the source.
- AnnotationTooltip.TooltipReference.GetBoundingClientRect: the highlight projection is written through `Project`, which performs the same arithmetic as the source's local variables.
- TextLayer.Registry.BindMouseEvents: the `mousedown` handler is modelled as the `listening` set together with `OnMouseDown`, not as a closure.
