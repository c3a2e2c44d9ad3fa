/**
 * The zoom arithmetic shared by the two viewer stores
 * (packages/lector/src/internal.ts:119-130 and
 * packages/pdf-viewer/src/lib/internal.ts:88-99). Both import a `clamp`
 * helper whose text is not part of this model; it is taken to be
 * `min(max(x, lo), hi)`.
 */
module Zoom {
  import opened Wrappers
  import opened Geometry

  /** `clamp(x, lo, hi)`. */
  function Clamp(x: real, lo: real, hi: real): (r: real)
    ensures lo <= hi ==> lo <= r <= hi
    ensures lo <= x <= hi ==> r == x
    ensures lo <= hi && x < lo ==> r == lo
    ensures lo <= hi && hi < x ==> r == hi
  {
    Min(Max(x, lo), hi)
  }

  /** Clamping twice is clamping once. */
  lemma ClampIdempotent(x: real, lo: real, hi: real)
    requires lo <= hi
    ensures Clamp(Clamp(x, lo, hi), lo, hi) == Clamp(x, lo, hi)
  {
  }

  /** Clamping keeps the order of two zoom requests. */
  lemma ClampMonotonic(x: real, y: real, lo: real, hi: real)
    requires x <= y
    ensures Clamp(x, lo, hi) <= Clamp(y, lo, hi)
  {
  }

  /** The first argument of `updateZoom`: a zoom, or a function of the previous zoom. */
  datatype ZoomUpdate = ToValue(zoom: real) | ByFunction(f: real -> real)

  /** The zoom `updateZoom` asks for before clamping: the function form is applied to the previous zoom. */
  function Requested(u: ZoomUpdate, prevZoom: real): (r: real)
    ensures u.ToValue? ==> r == u.zoom
    ensures u.ByFunction? ==> r == u.f(prevZoom)
  {
    match u
    case ToValue(z) => z
    case ByFunction(f) => f(prevZoom)
  }

  /** The zoom after `updateZoom`. */
  function NextZoom(u: ZoomUpdate, prevZoom: real, minZoom: real, maxZoom: real): (r: real)
    ensures minZoom <= maxZoom ==> minZoom <= r <= maxZoom
    ensures minZoom <= Requested(u, prevZoom) <= maxZoom ==> r == Requested(u, prevZoom)
  {
    Clamp(Requested(u, prevZoom), minZoom, maxZoom)
  }

  /** Setting a zoom that is already in range, twice, is the same as setting it once. */
  lemma NextZoomIdempotent(z: real, prevZoom: real, minZoom: real, maxZoom: real)
    requires minZoom <= maxZoom
    ensures var once := NextZoom(ToValue(z), prevZoom, minZoom, maxZoom);
      NextZoom(ToValue(once), once, minZoom, maxZoom) == once
  {
  }

  /** The function form with a constant function is the value form. */
  lemma ByConstantFunction(z: real, prevZoom: real, minZoom: real, maxZoom: real)
    ensures NextZoom(ByFunction(_ => z), prevZoom, minZoom, maxZoom) == NextZoom(ToValue(z), prevZoom, minZoom, maxZoom)
  {
  }

  /** `isZoomFitWidth = false`: the optional second argument of `updateZoom`. */
  function FitWidthFlag(given: Option<bool>): (r: bool)
    ensures r <==> given == Some(true)
  {
    match given
    case None => false
    case Some(b) => b
  }
}
