/**
 * The older viewer store of packages/pdf-viewer/src/lib/internal.ts. Unlike
 * the store of `LectorStore`, it starts at zoom 1 with fixed zoom bounds
 * [0.5, 10], so the zoom lies within the bounds in every reachable state,
 * and `getPdfPageProxy` returns `undefined` for a missing page instead of
 * throwing.
 */
module ViewerStore {
  import opened Wrappers
  import opened Geometry
  import opened Zoom

  datatype PageProxy = PageProxy(handle: nat)
  datatype Virtualizer = Virtualizer(handle: nat)
  datatype TextContent = TextContent(pageNumber: int, text: string)

  const INITIAL_ZOOM: real := 1.0
  const MIN_ZOOM: real := 0.5
  const MAX_ZOOM: real := 10.0

  class PdfStore {
    var zoom: real
    var isZoomFitWidth: bool
    var isPinching: bool
    var currentPage: int
    var virtualizer: Option<Virtualizer>
    const pageProxies: seq<PageProxy>
    var textContent: seq<TextContent>
    var highlights: seq<HighlightRect>
    var customSelectionRects: seq<HighlightRect>

    constructor(pageProxies: seq<PageProxy>, isZoomFitWidth: Option<bool>)
      ensures this.pageProxies == pageProxies && zoom == INITIAL_ZOOM
      ensures this.isZoomFitWidth == FitWidthFlag(isZoomFitWidth)
      ensures currentPage == 1 && !isPinching && virtualizer.None?
      ensures textContent == [] && highlights == [] && customSelectionRects == []
    {
      this.pageProxies := pageProxies;
      zoom := INITIAL_ZOOM;
      this.isZoomFitWidth := FitWidthFlag(isZoomFitWidth);
      currentPage := 1;
      isPinching := false;
      virtualizer := None;
      textContent := [];
      highlights := [];
      customSelectionRects := [];
    }

    /** `updateZoom`, in either form, lands in [0.5, 10]. */
    method UpdateZoom(u: ZoomUpdate, fitWidth: Option<bool>)
      modifies this`zoom, this`isZoomFitWidth
      ensures MIN_ZOOM <= zoom <= MAX_ZOOM
      ensures zoom == NextZoom(u, old(zoom), MIN_ZOOM, MAX_ZOOM)
      ensures isZoomFitWidth == FitWidthFlag(fitWidth)
    {
      var flag := FitWidthFlag(fitWidth);
      var newZoom := match u
        case ByFunction(f) => Clamp(f(zoom), MIN_ZOOM, MAX_ZOOM)
        case ToValue(z) => Clamp(z, MIN_ZOOM, MAX_ZOOM);
      zoom, isZoomFitWidth := newZoom, flag;
    }

    method SetCurrentPage(pageNumber: int)
      modifies this`currentPage
      ensures currentPage == pageNumber
    {
      currentPage := pageNumber;
    }

    method SetIsPinching(pinching: bool)
      modifies this`isPinching
      ensures isPinching == pinching
    {
      isPinching := pinching;
    }

    method SetVirtualizer(v: Virtualizer)
      modifies this`virtualizer
      ensures virtualizer == Some(v)
    {
      virtualizer := Some(v);
    }

    /** `getPdfPageProxy`: the proxy of a 1-based page number, `undefined` when there is none. */
    function GetPdfPageProxy(pageNumber: int): (r: Option<PageProxy>)
      ensures r.Some? <==> 1 <= pageNumber <= |pageProxies|
      ensures r.Some? ==> r.value == pageProxies[pageNumber - 1]
    {
      if 1 <= pageNumber <= |pageProxies| then Some(pageProxies[pageNumber - 1]) else None
    }

    method SetTextContent(contents: seq<TextContent>)
      modifies this`textContent
      ensures textContent == contents
    {
      textContent := contents;
    }

    method SetHighlight(rects: seq<HighlightRect>)
      modifies this`highlights
      ensures highlights == rects
    {
      highlights := rects;
    }

    method SetCustomSelectionRects(rects: seq<HighlightRect>)
      modifies this`customSelectionRects
      ensures customSelectionRects == rects
    {
      customSelectionRects := rects;
    }
  }
}
