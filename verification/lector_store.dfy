/**
 * The viewer store of packages/lector/src/internal.ts: a zustand store whose
 * actions overwrite its fields through `set`. The store is a class whose
 * fields are those of `PDFState`; pdf.js objects, the virtualizer and the
 * viewport element are opaque handles.
 */
module LectorStore {
  import opened Wrappers
  import opened Geometry
  import opened Zoom

  /** A pdf.js page object. */
  datatype PageProxy = PageProxy(handle: nat)
  /** A `@tanstack/react-virtual` virtualizer. */
  datatype Virtualizer = Virtualizer(handle: nat)

  datatype TextContent = TextContent(pageNumber: int, text: string)

  datatype ColoredHighlight = ColoredHighlight(color: string, rectangles: seq<HighlightRect>, pageNumber: int, text: string, uuid: string)

  /** The optional `zoomOptions` of the initial state. */
  datatype ZoomOptions = ZoomOptions(minZoom: Option<real>, maxZoom: Option<real>)

  /** The error `getPdfPageProxy` throws. */
  datatype PageError = PageDoesNotExist(pageNumber: int)

  const DEFAULT_MIN_ZOOM: real := 0.5
  const DEFAULT_MAX_ZOOM: real := 10.0
  const DEFAULT_RESOLUTION: real := 1.0
  const MIN_RESOLUTION: real := 1.0
  const MAX_RESOLUTION: real := 4.0

  /** `zoomOptions?.minZoom ?? 0.5` */
  function MinZoomOf(options: Option<ZoomOptions>): (r: real)
    ensures options.Some? && options.value.minZoom.Some? ==> r == options.value.minZoom.value
    ensures options.None? || options.value.minZoom.None? ==> r == DEFAULT_MIN_ZOOM
  {
    if options.Some? && options.value.minZoom.Some? then options.value.minZoom.value else DEFAULT_MIN_ZOOM
  }

  /** `zoomOptions?.maxZoom ?? 10` */
  function MaxZoomOf(options: Option<ZoomOptions>): (r: real)
    ensures options.Some? && options.value.maxZoom.Some? ==> r == options.value.maxZoom.value
    ensures options.None? || options.value.maxZoom.None? ==> r == DEFAULT_MAX_ZOOM
  {
    if options.Some? && options.value.maxZoom.Some? then options.value.maxZoom.value else DEFAULT_MAX_ZOOM
  }

  /**
   * The initial resolution, `Math.min(resolution ?? 1, 4)`: capped above
   * only, so a requested value below 1 is kept as it is.
   */
  function InitialResolution(given: Option<real>): (r: real)
    ensures r <= MAX_RESOLUTION
    ensures given.None? ==> r == DEFAULT_RESOLUTION
    ensures given.Some? && given.value <= MAX_RESOLUTION ==> r == given.value
    ensures given.Some? && given.value > MAX_RESOLUTION ==> r == MAX_RESOLUTION
  {
    Min(if given.Some? then given.value else DEFAULT_RESOLUTION, MAX_RESOLUTION)
  }

  /** `setResolution`'s `Math.min(Math.max(val, 1), 4)`. */
  function BoundResolution(v: real): (r: real)
    ensures MIN_RESOLUTION <= r <= MAX_RESOLUTION
    ensures MIN_RESOLUTION <= v <= MAX_RESOLUTION ==> r == v
    ensures v < MIN_RESOLUTION ==> r == MIN_RESOLUTION
    ensures v > MAX_RESOLUTION ==> r == MAX_RESOLUTION
  {
    Min(Max(v, MIN_RESOLUTION), MAX_RESOLUTION)
  }

  /** `coloredHighlights.filter(rect => rect.uuid !== uuid)` */
  function WithoutUuid(list: seq<ColoredHighlight>, uuid: string): (r: seq<ColoredHighlight>)
    ensures |r| <= |list|
  {
    if list == [] then []
    else
      var rest := WithoutUuid(list[..|list| - 1], uuid);
      if list[|list| - 1].uuid != uuid then rest + [list[|list| - 1]] else rest
  }

  /** Deleting keeps exactly the highlights with another uuid. */
  lemma {:induction false} WithoutUuidMembers(list: seq<ColoredHighlight>, uuid: string)
    ensures forall h :: h in WithoutUuid(list, uuid) <==> h in list && h.uuid != uuid
    decreases |list|
  {
    if list != [] {
      WithoutUuidMembers(list[..|list| - 1], uuid);
      assert list == list[..|list| - 1] + [list[|list| - 1]];
    }
  }

  /** The `filter` keeps order: deleting from a concatenation deletes from each part. */
  lemma {:induction false} WithoutUuidAppend(a: seq<ColoredHighlight>, b: seq<ColoredHighlight>, uuid: string)
    ensures WithoutUuid(a + b, uuid) == WithoutUuid(a, uuid) + WithoutUuid(b, uuid)
    decreases |b|
  {
    if b == [] {
      assert a + b == a;
    } else {
      var init, last := b[..|b| - 1], b[|b| - 1];
      assert (a + b)[..|a + b| - 1] == a + init && (a + b)[|a + b| - 1] == last;
      WithoutUuidAppend(a, init, uuid);
      var tail: seq<ColoredHighlight> := if last.uuid != uuid then [last] else [];
      assert WithoutUuid(a + b, uuid) == WithoutUuid(a + init, uuid) + tail;
      assert WithoutUuid(b, uuid) == WithoutUuid(init, uuid) + tail;
      ConcatAssoc(WithoutUuid(a, uuid), WithoutUuid(init, uuid), tail);
    }
  }

  /** Deleting a uuid no highlight carries changes nothing. */
  lemma {:induction false} WithoutUuidAbsent(list: seq<ColoredHighlight>, uuid: string)
    requires forall h :: h in list ==> h.uuid != uuid
    ensures WithoutUuid(list, uuid) == list
    decreases |list|
  {
    if list != [] {
      assert list[|list| - 1] in list;
      forall h | h in list[..|list| - 1] ensures h.uuid != uuid {
        assert h in list;
      }
      WithoutUuidAbsent(list[..|list| - 1], uuid);
      assert list == list[..|list| - 1] + [list[|list| - 1]];
    }
  }

  /** Deleting twice is deleting once. */
  lemma WithoutUuidIdempotent(list: seq<ColoredHighlight>, uuid: string)
    ensures WithoutUuid(WithoutUuid(list, uuid), uuid) == WithoutUuid(list, uuid)
  {
    WithoutUuidMembers(list, uuid);
    WithoutUuidAbsent(WithoutUuid(list, uuid), uuid);
  }

  /** Adding a highlight with a new uuid and then deleting that uuid restores the list. */
  lemma AddThenDelete(list: seq<ColoredHighlight>, h: ColoredHighlight)
    requires forall g :: g in list ==> g.uuid != h.uuid
    ensures WithoutUuid(list + [h], h.uuid) == list
  {
    assert (list + [h])[..|list + [h]| - 1] == list;
    WithoutUuidAbsent(list, h.uuid);
  }

  class PdfStore {
    var zoom: real
    var isZoomFitWidth: bool
    const minZoom: real
    const maxZoom: real
    var isPinching: bool
    var currentPage: int
    var virtualizer: Option<Virtualizer>
    const pageProxies: seq<PageProxy>
    var textContent: seq<TextContent>
    var highlights: seq<HighlightRect>
    var customSelectionRects: seq<HighlightRect>
    var coloredHighlights: seq<ColoredHighlight>
    var resolution: real

    /** The store as `createStore` builds it (lines 107-218). */
    constructor(pageProxies: seq<PageProxy>, zoom: real, isZoomFitWidth: Option<bool>, zoomOptions: Option<ZoomOptions>, resolution: Option<real>)
      ensures this.pageProxies == pageProxies && this.zoom == zoom
      ensures this.isZoomFitWidth == FitWidthFlag(isZoomFitWidth)
      ensures minZoom == MinZoomOf(zoomOptions) && maxZoom == MaxZoomOf(zoomOptions)
      ensures this.resolution == InitialResolution(resolution)
      ensures currentPage == 1 && !isPinching && virtualizer.None?
      ensures textContent == [] && highlights == [] && customSelectionRects == [] && coloredHighlights == []
    {
      this.pageProxies := pageProxies;
      this.zoom := zoom;
      this.isZoomFitWidth := FitWidthFlag(isZoomFitWidth);
      minZoom := MinZoomOf(zoomOptions);
      maxZoom := MaxZoomOf(zoomOptions);
      currentPage := 1;
      isPinching := false;
      virtualizer := None;
      textContent := [];
      highlights := [];
      customSelectionRects := [];
      coloredHighlights := [];
      this.resolution := InitialResolution(resolution);
    }

    /**
     * `updateZoom`: clamps the requested zoom (the function form applied to
     * the previous zoom) and records the fit-width flag, false by default.
     */
    method UpdateZoom(u: ZoomUpdate, fitWidth: Option<bool>)
      modifies this`zoom, this`isZoomFitWidth
      ensures zoom == NextZoom(u, old(zoom), minZoom, maxZoom)
      ensures minZoom <= maxZoom ==> minZoom <= zoom <= maxZoom
      ensures isZoomFitWidth == FitWidthFlag(fitWidth)
    {
      var flag := FitWidthFlag(fitWidth);
      var newZoom := match u
        case ByFunction(f) => Clamp(f(zoom), minZoom, maxZoom)
        case ToValue(z) => Clamp(z, minZoom, maxZoom);
      zoom, isZoomFitWidth := newZoom, flag;
    }

    method SetCurrentPage(pageNumber: int)
      modifies this`currentPage
      ensures currentPage == pageNumber
    {
      currentPage := pageNumber;
    }

    method SetIsPinching(pinching: bool)
      modifies this`isPinching
      ensures isPinching == pinching
    {
      isPinching := pinching;
    }

    method SetVirtualizer(v: Virtualizer)
      modifies this`virtualizer
      ensures virtualizer == Some(v)
    {
      virtualizer := Some(v);
    }

    /** `getPdfPageProxy`: the proxy of a 1-based page number, or the error it throws. */
    function GetPdfPageProxy(pageNumber: int): (r: Result<PageProxy, PageError>)
      ensures r.Ok? <==> 1 <= pageNumber <= |pageProxies|
      ensures r.Ok? ==> r.value == pageProxies[pageNumber - 1]
      ensures r.Err? ==> r.error == PageDoesNotExist(pageNumber)
    {
      if 1 <= pageNumber <= |pageProxies| then Ok(pageProxies[pageNumber - 1])
      else Err(PageDoesNotExist(pageNumber))
    }

    method SetTextContent(contents: seq<TextContent>)
      modifies this`textContent
      ensures textContent == contents
    {
      textContent := contents;
    }

    method SetHighlight(rects: seq<HighlightRect>)
      modifies this`highlights
      ensures highlights == rects
    {
      highlights := rects;
    }

    method SetCustomSelectionRects(rects: seq<HighlightRect>)
      modifies this`customSelectionRects
      ensures customSelectionRects == rects
    {
      customSelectionRects := rects;
    }

    method AddColoredHighlight(value: ColoredHighlight)
      modifies this`coloredHighlights
      ensures coloredHighlights == old(coloredHighlights) + [value]
    {
      coloredHighlights := coloredHighlights + [value];
    }

    method DeleteColoredHighlight(uuid: string)
      modifies this`coloredHighlights
      ensures coloredHighlights == WithoutUuid(old(coloredHighlights), uuid)
    {
      coloredHighlights := WithoutUuid(coloredHighlights, uuid);
    }

    /** `setResolution`: the new resolution always lies in [1, 4]. */
    method SetResolution(v: real)
      modifies this`resolution
      ensures resolution == BoundResolution(v)
      ensures MIN_RESOLUTION <= resolution <= MAX_RESOLUTION
    {
      resolution := Min(Max(v, MIN_RESOLUTION), MAX_RESOLUTION);
    }
  }
}
