/**
 * The anchor of an annotation's tooltip, from
 * packages/lector/src/hooks/useAnnotationTooltip.ts. `updateTooltipPosition`
 * installs a reference object whose `getBoundingClientRect` projects every
 * highlight from page units to viewport pixels and unions them. The four
 * running bounds are declared by `updateTooltipPosition`, not by
 * `getBoundingClientRect`, so they live on the reference object and every
 * later query widens them further.
 *
 * The DOM lookups of a query (the viewport element, the page element with
 * the annotation's page number, that element's bounding rectangle) are an
 * input: `NoViewport`, `NoPageElement` or `PageAt(left, top)`.
 */
module AnnotationTooltip {
  import opened Geometry
  import opened Annotations
  import opened SelectionDimensions

  /** An annotation created less than this many milliseconds ago opens its tooltip. */
  const NEW_ANNOTATION_MS: int := 1000

  /** A number or one of JavaScript's infinities, for the running bounds. */
  datatype Extended = NegInf | Fin(v: real) | PosInf

  /** `Math.min(a, x)` for a bound that is a number or +Infinity. */
  function MinWith(a: Extended, x: real): (r: Extended)
    requires a != NegInf
    ensures r.Fin?
    ensures a.Fin? ==> r.v <= a.v
    ensures r.v <= x && (r.v == x || (a.Fin? && r.v == a.v))
  {
    if a.Fin? && a.v <= x then a else Fin(x)
  }

  /** `Math.max(a, x)` for a bound that is a number or -Infinity. */
  function MaxWith(a: Extended, x: real): (r: Extended)
    requires a != PosInf
    ensures r.Fin?
    ensures a.Fin? ==> a.v <= r.v
    ensures x <= r.v && (r.v == x || (a.Fin? && r.v == a.v))
  {
    if a.Fin? && x <= a.v then a else Fin(x)
  }

  /** A highlight projected to viewport pixels (lines 99-108). */
  datatype Box = Box(left: real, right: real, top: real, bottom: real)

  /** The four running bounds: `minLeft`, `maxRight`, `minTop`, `maxBottom`. */
  datatype Bounds = Bounds(minLeft: Extended, maxRight: Extended, minTop: Extended, maxBottom: Extended)
  {
    predicate Finite() {
      minLeft.Fin? && maxRight.Fin? && minTop.Fin? && maxBottom.Fin?
    }
    /** Each bound is a number or the infinity it starts from: a minimum is never -Infinity, a maximum never +Infinity. */
    predicate Started() {
      minLeft != NegInf && maxRight != PosInf && minTop != NegInf && maxBottom != PosInf
    }
    /** The box `b` lies within these bounds. */
    predicate Encloses(b: Box)
      requires Finite()
    {
      minLeft.v <= b.left && b.right <= maxRight.v && minTop.v <= b.top && b.bottom <= maxBottom.v
    }
  }

  const Unbounded: Bounds := Bounds(PosInf, NegInf, PosInf, NegInf)

  /** The rectangle `getBoundingClientRect` returns. */
  datatype ClientBox = ClientBox(width: real, height: real, x: real, y: real, top: real, right: real, bottom: real, left: real)

  const DefaultRect: ClientBox := ClientBox(0.0, 0.0, 0.0, 0.0, 0.0, 0.0, 0.0, 0.0)

  /** What a query finds in the DOM. */
  datatype PageLookup = NoViewport | NoPageElement | PageAt(left: real, top: real)

  /** The initial `isOpen` of line 48. */
  predicate IsNewAnnotation(now: int, createdAt: int) {
    now - createdAt < NEW_ANNOTATION_MS
  }

  function Project(h: HighlightRect, pageLeft: real, pageTop: real, scale: real): Box {
    var left := pageLeft + h.left * scale;
    var top := pageTop + h.top * scale;
    Box(left, left + h.width * scale, top, top + h.height * scale)
  }

  /** The bounds after one highlight's projected box is taken into them (lines 110-113). */
  function Widen(b: Bounds, box: Box): (r: Bounds)
    requires b.Started()
    ensures r.Finite() && r.Encloses(box)
  {
    Bounds(MinWith(b.minLeft, box.left), MaxWith(b.maxRight, box.right), MinWith(b.minTop, box.top), MaxWith(b.maxBottom, box.bottom))
  }

  /** The bounds after the `forEach` over `hs`. */
  function WidenAll(b: Bounds, hs: seq<HighlightRect>, pageLeft: real, pageTop: real, scale: real): Bounds
    requires b.Started()
    decreases |hs|
  {
    if hs == [] then b
    else WidenAll(Widen(b, Project(hs[0], pageLeft, pageTop, scale)), hs[1..], pageLeft, pageTop, scale)
  }

  /**
   * The rectangle of lines 116-130, computed through the centre as the
   * source does: it starts at the minimum left and top and ends at the
   * maximum right and bottom.
   */
  function RectOf(b: Bounds): (r: ClientBox)
    requires b.Finite()
    ensures r.left == r.x == b.minLeft.v && r.top == r.y == b.minTop.v
    ensures r.right == b.maxRight.v && r.bottom == b.maxBottom.v
    ensures r.width == r.right - r.left && r.height == r.bottom - r.top
  {
    var width := b.maxRight.v - b.minLeft.v;
    var height := b.maxBottom.v - b.minTop.v;
    var centerX := b.minLeft.v + width / 2.0;
    var centerY := b.minTop.v + height / 2.0;
    ClientBox(width, height, centerX - width / 2.0, centerY - height / 2.0,
      centerY - height / 2.0, centerX + width / 2.0, centerY + height / 2.0, centerX - width / 2.0)
  }

  /** The reference object `refs.setReference` receives. */
  class TooltipReference {
    const highlights: seq<HighlightRect>
    const scale: real
    var minLeft: Extended
    var maxRight: Extended
    var minTop: Extended
    var maxBottom: Extended

    function Current(): Bounds
      reads this
    {
      Bounds(minLeft, maxRight, minTop, maxBottom)
    }

    /** Either no query has reached the page yet, or all four bounds are numbers. */
    ghost predicate Valid()
      reads this
    {
      |highlights| > 0 && (Current() == Unbounded || Current().Finite())
    }

    constructor(highlights: seq<HighlightRect>, scale: real)
      requires |highlights| > 0
      ensures Valid() && Current() == Unbounded
      ensures this.highlights == highlights && this.scale == scale
    {
      this.highlights := highlights;
      this.scale := scale;
      minLeft, maxRight, minTop, maxBottom := PosInf, NegInf, PosInf, NegInf;
    }

    method GetBoundingClientRect(page: PageLookup) returns (r: ClientBox)
      requires Valid()
      modifies this
      ensures Valid()
      ensures !page.PageAt? ==> r == DefaultRect && Current() == old(Current())
      ensures page.PageAt? ==> Current() == WidenAll(old(Current()), highlights, page.left, page.top, scale)
      ensures page.PageAt? ==> Current().Finite() && r == RectOf(Current())
      ensures page.PageAt? && scale >= 0.0 && (forall h :: h in highlights ==> h.width >= 0.0 && h.height >= 0.0) ==>
        r.width >= 0.0 && r.height >= 0.0
    {
      if page.NoViewport? || page.NoPageElement? {
        return DefaultRect;
      }
      var pageLeft, pageTop := page.left, page.top;
      var bounds := Current();
      var i := 0;
      while i < |highlights|
        invariant 0 <= i <= |highlights|
        invariant bounds.Started() && (i > 0 ==> bounds.Finite())
        invariant WidenAll(bounds, highlights[i..], pageLeft, pageTop, scale)
          == WidenAll(old(Current()), highlights, pageLeft, pageTop, scale)
      {
        var box := Project(highlights[i], pageLeft, pageTop, scale);
        WidenAllStep(bounds, highlights, i, pageLeft, pageTop, scale);
        bounds := Bounds(MinWith(bounds.minLeft, box.left), MaxWith(bounds.maxRight, box.right),
          MinWith(bounds.minTop, box.top), MaxWith(bounds.maxBottom, box.bottom));
        i := i + 1;
      }
      assert highlights[i..] == [];
      minLeft, maxRight, minTop, maxBottom := bounds.minLeft, bounds.maxRight, bounds.minTop, bounds.maxBottom;
      r := RectOf(Current());
      if scale >= 0.0 && forall h :: h in highlights ==> h.width >= 0.0 && h.height >= 0.0 {
        NonNegativeSize(old(Current()), highlights, pageLeft, pageTop, scale);
      }
    }

    /** `getClientRects`: the one bounding rectangle, computed by a query of its own. */
    method GetClientRects(page: PageLookup) returns (rects: seq<ClientBox>)
      requires Valid()
      modifies this
      ensures Valid()
      ensures !page.PageAt? ==> rects == [DefaultRect] && Current() == old(Current())
      ensures page.PageAt? ==> Current() == WidenAll(old(Current()), highlights, page.left, page.top, scale)
      ensures page.PageAt? ==> Current().Finite() && rects == [RectOf(Current())]
    {
      var r := GetBoundingClientRect(page);
      rects := [r];
    }
  }

  /** One tooltip: its open flag and the reference object installed for it. */
  class Tooltip {
    const annotation: Annotation
    var isOpen: bool
    var reference: TooltipReference?

    constructor(annotation: Annotation, now: int)
      ensures this.annotation == annotation
      ensures isOpen == IsNewAnnotation(now, annotation.createdAt)
      ensures reference == null
    {
      this.annotation := annotation;
      isOpen := now - annotation.createdAt < NEW_ANNOTATION_MS;
      reference := null;
    }

    method SetIsOpen(open: bool)
      modifies this`isOpen
      ensures isOpen == open
    {
      isOpen := open;
    }

    /** Installs a fresh reference with fresh bounds; with no highlights it returns at once. */
    method UpdateTooltipPosition(scale: real)
      modifies this`reference
      ensures |annotation.highlights| == 0 ==> reference == old(reference)
      ensures |annotation.highlights| > 0 ==>
        && reference != null && fresh(reference) && reference.Valid()
        && reference.Current() == Unbounded
        && reference.highlights == annotation.highlights && reference.scale == scale
    {
      if |annotation.highlights| == 0 {
        return;
      }
      reference := new TooltipReference(annotation.highlights, scale);
    }
  }

  lemma WidenAllStep(b: Bounds, hs: seq<HighlightRect>, i: int, pageLeft: real, pageTop: real, scale: real)
    requires 0 <= i < |hs| && b.Started()
    ensures WidenAll(b, hs[i..], pageLeft, pageTop, scale)
      == WidenAll(Widen(b, Project(hs[i], pageLeft, pageTop, scale)), hs[i + 1..], pageLeft, pageTop, scale)
  {
    assert hs[i..][1..] == hs[i + 1..];
  }

  /**
   * The union: the widened bounds enclose every projected highlight and the
   * earlier bounds, and each bound is one of the earlier bounds or an edge
   * of a projected highlight.
   */
  lemma {:induction false} WidenAllEncloses(b: Bounds, hs: seq<HighlightRect>, pageLeft: real, pageTop: real, scale: real)
    requires b.Started() && (|hs| > 0 || b.Finite())
    ensures WidenAll(b, hs, pageLeft, pageTop, scale).Finite()
    ensures forall h :: h in hs ==> WidenAll(b, hs, pageLeft, pageTop, scale).Encloses(Project(h, pageLeft, pageTop, scale))
    decreases |hs|
  {
    if hs != [] {
      var w := Widen(b, Project(hs[0], pageLeft, pageTop, scale));
      WidenAllEncloses(w, hs[1..], pageLeft, pageTop, scale);
      WidenAllGrows(w, hs[1..], pageLeft, pageTop, scale);
      assert hs == [hs[0]] + hs[1..];
    }
  }

  /** Later queries never shrink the box: the widened bounds contain the earlier finite bounds. */
  lemma {:induction false} WidenAllGrows(b: Bounds, hs: seq<HighlightRect>, pageLeft: real, pageTop: real, scale: real)
    requires b.Finite()
    ensures var w := WidenAll(b, hs, pageLeft, pageTop, scale);
      && w.Finite()
      && w.minLeft.v <= b.minLeft.v && b.maxRight.v <= w.maxRight.v
      && w.minTop.v <= b.minTop.v && b.maxBottom.v <= w.maxBottom.v
    decreases |hs|
  {
    if hs != [] {
      WidenAllGrows(Widen(b, Project(hs[0], pageLeft, pageTop, scale)), hs[1..], pageLeft, pageTop, scale);
    }
  }

  /** Each bound of the union from the initial infinities is an edge of some projected highlight. */
  lemma {:induction false} WidenAllTight(b: Bounds, hs: seq<HighlightRect>, pageLeft: real, pageTop: real, scale: real)
    requires b == Unbounded || b.Finite()
    requires |hs| > 0 || b.Finite()
    ensures var w := WidenAll(b, hs, pageLeft, pageTop, scale);
      && w.Finite()
      && (w.minLeft == b.minLeft || exists h :: h in hs && w.minLeft.v == Project(h, pageLeft, pageTop, scale).left)
      && (w.maxRight == b.maxRight || exists h :: h in hs && w.maxRight.v == Project(h, pageLeft, pageTop, scale).right)
      && (w.minTop == b.minTop || exists h :: h in hs && w.minTop.v == Project(h, pageLeft, pageTop, scale).top)
      && (w.maxBottom == b.maxBottom || exists h :: h in hs && w.maxBottom.v == Project(h, pageLeft, pageTop, scale).bottom)
    decreases |hs|
  {
    if hs != [] {
      var w1 := Widen(b, Project(hs[0], pageLeft, pageTop, scale));
      WidenAllTight(w1, hs[1..], pageLeft, pageTop, scale);
      assert hs == [hs[0]] + hs[1..];
    }
  }

  /**
   * With a non-negative scale and highlights of non-negative size, the
   * reported rectangle has non-negative width and height, whatever bounds
   * earlier queries left behind.
   */
  lemma NonNegativeSize(b: Bounds, hs: seq<HighlightRect>, pageLeft: real, pageTop: real, scale: real)
    requires b.Started() && |hs| > 0 && scale >= 0.0
    requires forall h :: h in hs ==> h.width >= 0.0 && h.height >= 0.0
    ensures WidenAll(b, hs, pageLeft, pageTop, scale).Finite()
    ensures RectOf(WidenAll(b, hs, pageLeft, pageTop, scale)).width >= 0.0
    ensures RectOf(WidenAll(b, hs, pageLeft, pageTop, scale)).height >= 0.0
  {
    WidenAllEncloses(b, hs, pageLeft, pageTop, scale);
    var h := hs[0];
    assert h in hs;
    var p := Project(h, pageLeft, pageTop, scale);
    assert h.width * scale >= 0.0 && h.height * scale >= 0.0;
    assert p.left <= p.right && p.top <= p.bottom;
  }

  /**
   * A rectangle the selection code stored, projected at the zoom it was
   * recorded at from the same page origin, lands on the client rectangle
   * it came from (its height capped at 16 page units).
   */
  lemma ProjectStoredRect(c: ClientRect, hit: TextLayerHit, zoom: real)
    requires zoom > 0.0
    ensures var b := Project(ToPageRect(c, hit, zoom), hit.left, hit.top, zoom);
      && b.left == c.left && b.top == c.top && b.right == c.left + c.width
      && b.bottom == c.top + (if c.height <= MAX_LINE_HEIGHT * zoom then c.height else MAX_LINE_HEIGHT * zoom)
  {
    ToPageRectInverse(c, hit, zoom);
  }
}
