/**
 * `getDimension` of packages/lector/src/hooks/useSelectionDimensions.tsx:
 * the client rectangles of the selection's first range are filtered,
 * converted to zoom-1 page units, grouped by page (in order of first
 * appearance, as a JavaScript `Map` iterates), sorted by top then left,
 * folded in one pass, and finally stably sorted by page number.
 *
 * What the browser answers is an input here: for each client rectangle, the
 * text layer found under it by `elementFromPoint(...).closest(".textLayer")`,
 * if any, with that layer's page number and viewport origin.
 */
module SelectionDimensions {
  import opened Wrappers
  import opened Geometry
  import opened RectSort
  import opened RectMerge

  /** Largest height, in page units, of a converted rectangle. */
  const MAX_LINE_HEIGHT: real := 16.0

  /** A `DOMRect` in viewport pixels. */
  datatype ClientRect = ClientRect(left: real, top: real, width: real, height: real)

  /** The text layer under a client rectangle: its page number and viewport origin. */
  datatype TextLayerHit = TextLayerHit(pageNumber: int, left: real, top: real)

  datatype Fragment = Fragment(rect: ClientRect, layer: Option<TextLayerHit>)

  /** The window's selection: whether it is collapsed, the client rectangles of range 0 and its text. */
  datatype Selection = Selection(isCollapsed: bool, fragments: seq<Fragment>, text: string)

  datatype CollapsibleSelection = CollapsibleSelection(highlights: seq<HighlightRect>, text: string, isCollapsed: bool)

  /** The filter of line 112: both sides more than one pixel. */
  predicate Visible(c: ClientRect) {
    c.width > 1.0 && c.height > 1.0
  }

  /** The fragments that pass the size filter, in order. */
  function VisibleOnly(fs: seq<Fragment>): (r: seq<Fragment>)
    ensures forall f :: f in r <==> f in fs && Visible(f.rect)
  {
    if fs == [] then []
    else
      var last := fs[|fs| - 1];
      assert fs == fs[..|fs| - 1] + [last];
      VisibleOnly(fs[..|fs| - 1]) + (if Visible(last.rect) then [last] else [])
  }

  /** The conversion of lines 131-137 from viewport pixels to page units at zoom 1. */
  function ToPageRect(c: ClientRect, hit: TextLayerHit, zoom: real): (r: HighlightRect)
    requires zoom > 0.0
    ensures r.pageNumber == hit.pageNumber
    ensures r.height <= MAX_LINE_HEIGHT
  {
    HighlightRect(
      hit.pageNumber,
      (c.top - hit.top) / zoom,
      (c.left - hit.left) / zoom,
      Min(c.height / zoom, MAX_LINE_HEIGHT),
      c.width / zoom)
  }

  /**
   * Scaling a converted rectangle back by the same zoom from the same layer
   * origin gives the client rectangle again, except that the height is
   * capped at 16 page units.
   */
  lemma ToPageRectInverse(c: ClientRect, hit: TextLayerHit, zoom: real)
    requires zoom > 0.0
    ensures var r := ToPageRect(c, hit, zoom);
      && hit.left + r.left * zoom == c.left
      && hit.top + r.top * zoom == c.top
      && r.width * zoom == c.width
      && r.height == (if c.height <= MAX_LINE_HEIGHT * zoom then c.height / zoom else MAX_LINE_HEIGHT)
  {
  }

  /** The converted rectangles of the fragments that have a text layer, in order. */
  function Attributed(fs: seq<Fragment>, zoom: real): (r: seq<HighlightRect>)
    requires zoom > 0.0
    ensures |r| <= |fs|
  {
    if fs == [] then []
    else
      var last := fs[|fs| - 1];
      Attributed(fs[..|fs| - 1], zoom)
        + (if last.layer.Some? then [ToPageRect(last.rect, last.layer.value, zoom)] else [])
  }

  /** The page rectangles `getDimension` collects from a selection's fragments. */
  function PageRects(fs: seq<Fragment>, zoom: real): seq<HighlightRect>
    requires zoom > 0.0
  {
    Attributed(VisibleOnly(fs), zoom)
  }

  /** The keys of `textLayerMap`: page numbers in order of first appearance. */
  function PageOrder(rs: seq<HighlightRect>): (ps: seq<int>)
    ensures forall p :: p in ps <==> exists r :: r in rs && r.pageNumber == p
  {
    if rs == [] then []
    else
      var init, last := rs[..|rs| - 1], rs[|rs| - 1];
      assert rs == init + [last];
      var ps := PageOrder(init);
      if last.pageNumber in ps then ps else ps + [last.pageNumber]
  }

  predicate Distinct(ps: seq<int>) {
    forall i, j :: 0 <= i < j < |ps| ==> ps[i] != ps[j]
  }

  /** Two rectangles on one line: tops closer than the threshold, and the next one starts before the threshold past the current right edge. */
  predicate Adjacent(cur: HighlightRect, next: HighlightRect) {
    Abs(next.top - cur.top) < MERGE_THRESHOLD && next.left - cur.Right() < MERGE_THRESHOLD
  }

  /** The folded rectangle of lines 166-172: `cur`'s page, top and left, the right edge of `next`, the larger height. */
  function Extend(cur: HighlightRect, next: HighlightRect): HighlightRect {
    HighlightRect(cur.pageNumber, cur.top, cur.left, Max(cur.height, next.height), next.Right() - cur.left)
  }

  /** The single pass of lines 156-178 from the current rectangle `cur`. */
  function FoldLine(cur: HighlightRect, rest: seq<HighlightRect>): seq<HighlightRect>
    decreases |rest|
  {
    if rest == [] then [cur]
    else if Adjacent(cur, rest[0]) then FoldLine(Extend(cur, rest[0]), rest[1..])
    else [cur] + FoldLine(rest[0], rest[1..])
  }

  /** What one page's group becomes: sorted by top then left, then folded. */
  function MergePage(rs: seq<HighlightRect>): seq<HighlightRect> {
    if rs == [] then []
    else
      var sorted := SortBy(ByTopLeft, rs);
      FoldLine(sorted[0], sorted[1..])
  }

  /** The merged groups of pages `ps`, one after the other. */
  function ConcatPages(ps: seq<int>, rs: seq<HighlightRect>): seq<HighlightRect> {
    if ps == [] then []
    else ConcatPages(ps[..|ps| - 1], rs) + MergePage(OnPage(rs, ps[|ps| - 1]))
  }

  /** The `highlights` of a non-collapsed selection. */
  function Highlights(fs: seq<Fragment>, zoom: real): seq<HighlightRect>
    requires zoom > 0.0
  {
    var rs := PageRects(fs, zoom);
    SortBy(ByPage, ConcatPages(PageOrder(rs), rs))
  }

  /** One group of `textLayerMap`: sort it and fold it (lines 146-179). */
  method MergeGroup(rects: seq<HighlightRect>) returns (mergedRects: seq<HighlightRect>)
    ensures mergedRects == MergePage(rects)
  {
    mergedRects := [];
    if |rects| > 0 {
      var sortedRects := SortBy(ByTopLeft, rects);
      var currentRect := sortedRects[0];
      ghost var target := FoldLine(currentRect, sortedRects[1..]);
      assert target == MergePage(rects);
      var i := 1;
      while i < |sortedRects|
        invariant 1 <= i <= |sortedRects|
        invariant mergedRects + FoldLine(currentRect, sortedRects[i..]) == target
      {
        var nextRect := sortedRects[i];
        MergeGroupStep(mergedRects, currentRect, sortedRects, i, target);
        var verticalOverlap := Abs(nextRect.top - currentRect.top) < MERGE_THRESHOLD;
        var horizontalAdjacent := nextRect.left - (currentRect.left + currentRect.width) < MERGE_THRESHOLD;
        assert verticalOverlap && horizontalAdjacent <==> Adjacent(currentRect, nextRect);
        if verticalOverlap && horizontalAdjacent {
          ghost var previous := currentRect;
          currentRect := HighlightRect(
            currentRect.pageNumber,
            currentRect.top,
            currentRect.left,
            Max(currentRect.height, nextRect.height),
            (nextRect.left + nextRect.width) - currentRect.left);
          assert currentRect == Extend(previous, nextRect);
        } else {
          mergedRects := mergedRects + [currentRect];
          currentRect := nextRect;
        }
        i := i + 1;
      }
      assert sortedRects[i..] == [];
      mergedRects := mergedRects + [currentRect];
    }
  }

  /** One turn of the loop of lines 156-178, read off at index `i` of `s`. */
  lemma MergeGroupStep(merged: seq<HighlightRect>, cur: HighlightRect, s: seq<HighlightRect>, i: nat, target: seq<HighlightRect>)
    requires i < |s|
    requires merged + FoldLine(cur, s[i..]) == target
    ensures Adjacent(cur, s[i]) ==> merged + FoldLine(Extend(cur, s[i]), s[i + 1..]) == target
    ensures !Adjacent(cur, s[i]) ==> (merged + [cur]) + FoldLine(s[i], s[i + 1..]) == target
  {
    assert s[i..][0] == s[i] && s[i..][1..] == s[i + 1..];
    if !Adjacent(cur, s[i]) {
      ConcatAssoc(merged, [cur], FoldLine(s[i], s[i + 1..]));
    }
  }

  /** `textLayerMap` with its key order `pages` holds the rectangles `rs`, grouped by page. */
  ghost predicate Grouped(pages: seq<int>, textLayerMap: map<int, seq<HighlightRect>>, rs: seq<HighlightRect>) {
    && pages == PageOrder(rs)
    && (forall p :: p in textLayerMap <==> p in pages)
    && forall p :: p in pages ==> textLayerMap[p] == OnPage(rs, p)
  }

  /** Lines 139-142: create the group of `x`'s page when it is missing, then push `x` into it. */
  function PushRect(pages: seq<int>, textLayerMap: map<int, seq<HighlightRect>>, x: HighlightRect)
    : (seq<int>, map<int, seq<HighlightRect>>)
  {
    var p := x.pageNumber;
    if p in textLayerMap then (pages, textLayerMap[p := textLayerMap[p] + [x]])
    else (pages + [p], textLayerMap[p := [x]])
  }

  lemma PushRectGrouped(pages: seq<int>, textLayerMap: map<int, seq<HighlightRect>>, rs: seq<HighlightRect>, x: HighlightRect)
    requires Grouped(pages, textLayerMap, rs)
    ensures Grouped(PushRect(pages, textLayerMap, x).0, PushRect(pages, textLayerMap, x).1, rs + [x])
  {
    GroupStep(rs, x);
    var p := x.pageNumber;
    var (pages', map') := PushRect(pages, textLayerMap, x);
    if p in textLayerMap {
      assert p in pages;
      assert pages' == PageOrder(rs + [x]);
    } else {
      assert p !in PageOrder(rs);
      assert pages' == PageOrder(rs + [x]);
      OnPageNone(rs, p);
    }
  }

  /** The `forEach` of lines 115-143: fill `textLayerMap`, remembering the order its keys were added in. */
  method GroupByPage(clientRects: seq<Fragment>, zoom: real)
    returns (pages: seq<int>, textLayerMap: map<int, seq<HighlightRect>>)
    requires zoom > 0.0
    ensures Grouped(pages, textLayerMap, Attributed(clientRects, zoom))
  {
    pages, textLayerMap := [], map[];
    var i := 0;
    while i < |clientRects|
      invariant 0 <= i <= |clientRects|
      invariant Grouped(pages, textLayerMap, Attributed(clientRects[..i], zoom))
    {
      var clientRect := clientRects[i];
      GroupByPageStep(pages, textLayerMap, clientRects, i, zoom);
      if clientRect.layer.Some? {
        var textLayer := clientRect.layer.value;
        var rect := ToPageRect(clientRect.rect, textLayer, zoom);
        PushRectInPlace(pages, textLayerMap, rect);
        if rect.pageNumber !in textLayerMap {
          textLayerMap := textLayerMap[rect.pageNumber := []];
          pages := pages + [rect.pageNumber];
        }
        textLayerMap := textLayerMap[rect.pageNumber := textLayerMap[rect.pageNumber] + [rect]];
      }
      i := i + 1;
    }
    assert clientRects[..i] == clientRects;
  }

  /** The two steps of lines 139-142 (create the group if missing, then push) are `PushRect`. */
  lemma PushRectInPlace(pages: seq<int>, textLayerMap: map<int, seq<HighlightRect>>, x: HighlightRect)
    ensures var p := x.pageNumber;
      var created := if p in textLayerMap then textLayerMap else textLayerMap[p := []];
      PushRect(pages, textLayerMap, x) == (if p in textLayerMap then pages else pages + [p], created[p := created[p] + [x]])
  {
    var p := x.pageNumber;
    if p !in textLayerMap {
      assert [] + [x] == [x];
      assert textLayerMap[p := []][p := [x]] == textLayerMap[p := [x]];
    }
  }

  /** One fragment more: `Grouped` holds of the pushed groups, or of the same groups when it has no layer. */
  lemma GroupByPageStep(pages: seq<int>, textLayerMap: map<int, seq<HighlightRect>>, fs: seq<Fragment>, i: nat, zoom: real)
    requires zoom > 0.0 && i < |fs|
    requires Grouped(pages, textLayerMap, Attributed(fs[..i], zoom))
    ensures fs[i].layer.None? ==> Grouped(pages, textLayerMap, Attributed(fs[..i + 1], zoom))
    ensures fs[i].layer.Some? ==>
      var pushed := PushRect(pages, textLayerMap, ToPageRect(fs[i].rect, fs[i].layer.value, zoom));
      Grouped(pushed.0, pushed.1, Attributed(fs[..i + 1], zoom))
  {
    var before := Attributed(fs[..i], zoom);
    assert fs[..i + 1][..i] == fs[..i];
    if fs[i].layer.Some? {
      var rect := ToPageRect(fs[i].rect, fs[i].layer.value, zoom);
      assert Attributed(fs[..i + 1], zoom) == before + [rect];
      PushRectGrouped(pages, textLayerMap, before, rect);
    } else {
      assert Attributed(fs[..i + 1], zoom) == before + [] == before;
    }
  }

  /** The second `forEach` (lines 145-181): merge every group, in key order, into one list. */
  method MergeGroups(pages: seq<int>, textLayerMap: map<int, seq<HighlightRect>>, ghost rs: seq<HighlightRect>)
    returns (highlights: seq<HighlightRect>)
    requires Grouped(pages, textLayerMap, rs)
    ensures highlights == ConcatPages(pages, rs)
  {
    highlights := [];
    var k := 0;
    while k < |pages|
      invariant 0 <= k <= |pages|
      invariant highlights == ConcatPages(pages[..k], rs)
    {
      ConcatPagesStep(pages, k, rs);
      assert pages[k] in pages;
      var mergedRects := MergeGroup(textLayerMap[pages[k]]);
      highlights := highlights + mergedRects;
      k := k + 1;
    }
    assert pages[..k] == pages;
  }

  /** One more key of the map: its merged group is appended. */
  lemma ConcatPagesStep(pages: seq<int>, k: int, rs: seq<HighlightRect>)
    requires 0 <= k < |pages|
    ensures ConcatPages(pages[..k + 1], rs) == ConcatPages(pages[..k], rs) + MergePage(OnPage(rs, pages[k]))
  {
    assert pages[..k + 1][..k] == pages[..k];
  }

  method GetDimension(selection: Option<Selection>, zoom: real) returns (r: Option<CollapsibleSelection>)
    requires zoom > 0.0
    ensures selection.None? || selection.value.isCollapsed ==> r == None
    ensures selection.Some? && !selection.value.isCollapsed ==>
      r == Some(CollapsibleSelection(Highlights(selection.value.fragments, zoom), Trim(selection.value.text), false))
  {
    if selection.None? || selection.value.isCollapsed {
      return None;
    }
    var range := selection.value;
    var clientRects := VisibleOnly(range.fragments);
    var pages, textLayerMap := GroupByPage(clientRects, zoom);
    var highlights := MergeGroups(pages, textLayerMap, PageRects(range.fragments, zoom));
    return Some(CollapsibleSelection(SortBy(ByPage, highlights), Trim(range.text), false));
  }

  /** Appending one rectangle to the collected ones: how the keys and the groups change. */
  lemma GroupStep(rs: seq<HighlightRect>, x: HighlightRect)
    ensures PageOrder(rs + [x]) ==
      if x.pageNumber in PageOrder(rs) then PageOrder(rs) else PageOrder(rs) + [x.pageNumber]
    ensures forall p :: OnPage(rs + [x], p) == OnPage(rs, p) + (if x.pageNumber == p then [x] else [])
  {
    assert (rs + [x])[..|rs|] == rs;
  }

  /** JavaScript's white space and line terminators, which `String.prototype.trim` removes. */
  const WHITE_SPACE: set<char> := {
    '\U{9}', '\U{A}', '\U{B}', '\U{C}', '\U{D}', '\U{20}', '\U{A0}', '\U{1680}',
    '\U{2000}', '\U{2001}', '\U{2002}', '\U{2003}', '\U{2004}', '\U{2005}', '\U{2006}', '\U{2007}',
    '\U{2008}', '\U{2009}', '\U{200A}', '\U{2028}', '\U{2029}', '\U{202F}', '\U{205F}', '\U{3000}',
    '\U{FEFF}'
  }

  /** Index of the first character of `s` not in `ws` (|s| if none). */
  function TrimStart(s: string, ws: set<char>): (i: nat)
    ensures i <= |s|
    ensures forall k :: 0 <= k < i ==> s[k] in ws
    ensures i < |s| ==> s[i] !in ws
  {
    if s == [] || s[0] !in ws then 0 else 1 + TrimStart(s[1..], ws)
  }

  /** One past the last character of `s` not in `ws` (0 if none). */
  function TrimEnd(s: string, ws: set<char>): (j: nat)
    ensures j <= |s|
    ensures forall k :: j <= k < |s| ==> s[k] in ws
    ensures j > 0 ==> s[j - 1] !in ws
  {
    if s == [] || s[|s| - 1] !in ws then |s| else TrimEnd(s[..|s| - 1], ws)
  }

  /** Removes the characters of `ws` from both ends of `s`. */
  function TrimBy(s: string, ws: set<char>): string {
    var i, j := TrimStart(s, ws), TrimEnd(s, ws);
    if i <= j then s[i..j] else []
  }

  /** `String.prototype.trim`. */
  function Trim(s: string): string {
    TrimBy(s, WHITE_SPACE)
  }

  /**
   * Trimming removes white space from both ends and nothing else: the
   * result is a slice of the text preceded and followed only by white
   * space, and, unless empty, it starts and ends with a character that is
   * not white space. It holds for any set of characters, and so for
   * `Trim` with `WHITE_SPACE`.
   */
  lemma TrimMeaning(s: string, ws: set<char>)
    ensures var r, i := TrimBy(s, ws), TrimStart(s, ws);
      && (r != [] ==> r[0] !in ws && r[|r| - 1] !in ws)
      && i + |r| <= |s| && r == s[i..i + |r|]
      && (forall k :: 0 <= k < i ==> s[k] in ws)
      && (forall k :: i + |r| <= k < |s| ==> s[k] in ws)
  {
    TrimSlice(s, ws);
  }

  /** The trimmed text is the slice between the two trim points, with its end characters. */
  lemma TrimSlice(s: string, ws: set<char>)
    ensures var i, j, r := TrimStart(s, ws), TrimEnd(s, ws), TrimBy(s, ws);
      && (i <= j ==> r == s[i..j] && |r| == j - i)
      && (i > j ==> r == [])
      && (r != [] ==> r[0] == s[i] && r[|r| - 1] == s[j - 1])
  {
    var i, j := TrimStart(s, ws), TrimEnd(s, ws);
    if i <= j {
      var r := s[i..j];
      assert TrimBy(s, ws) == r;
      if r != [] {
        assert r[0] == s[i] && r[|r| - 1] == s[j - 1];
      }
    } else {
      assert TrimBy(s, ws) == [];
    }
  }

  /**
   * Where an output rectangle of the pass comes from: its page, top and
   * left are those of one input (the first of its run), its right edge is
   * that of one input (the last of its run) and its height is that of one
   * input.
   */
  ghost predicate DrawnFrom(o: HighlightRect, s: seq<HighlightRect>) {
    && (exists i :: 0 <= i < |s| && s[i].top == o.top && s[i].left == o.left && s[i].pageNumber == o.pageNumber)
    && (exists i :: 0 <= i < |s| && s[i].Right() == o.Right())
    && (exists i :: 0 <= i < |s| && s[i].height == o.height)
  }

  lemma DrawnFromMember(x: HighlightRect, s: seq<HighlightRect>)
    requires x in s
    ensures DrawnFrom(x, s)
  {
    var i :| 0 <= i < |s| && s[i] == x;
    assert s[i].top == x.top;
  }

  /** The pass closes between one and (inputs) rectangles, each drawn from the inputs. */
  lemma {:induction false} FoldLineProperties(cur: HighlightRect, rest: seq<HighlightRect>, s: seq<HighlightRect>)
    requires DrawnFrom(cur, s)
    requires forall x :: x in rest ==> x in s
    ensures 1 <= |FoldLine(cur, rest)| <= |rest| + 1
    ensures forall o :: o in FoldLine(cur, rest) ==> DrawnFrom(o, s)
    decreases |rest|
  {
    if rest != [] {
      assert rest[0] in rest;
      DrawnFromMember(rest[0], s);
      if Adjacent(cur, rest[0]) {
        var e := Extend(cur, rest[0]);
        assert e.Right() == rest[0].Right();
        assert DrawnFrom(e, s);
        FoldLineProperties(e, rest[1..], s);
      } else {
        FoldLineProperties(rest[0], rest[1..], s);
      }
    }
  }

  /** One page's group: between one and (group size) rectangles, each drawn from the group. */
  lemma MergePageProperties(rs: seq<HighlightRect>)
    ensures rs == [] ==> MergePage(rs) == []
    ensures rs != [] ==> 1 <= |MergePage(rs)| <= |rs|
    ensures forall o :: o in MergePage(rs) ==> DrawnFrom(o, rs)
  {
    if rs != [] {
      var sorted := SortBy(ByTopLeft, rs);
      assert sorted[0] in multiset(rs);
      DrawnFromMember(sorted[0], rs);
      forall x | x in sorted[1..] ensures x in rs {
        assert x in multiset(sorted);
      }
      FoldLineProperties(sorted[0], sorted[1..], rs);
    }
  }

  /** Rectangles of different pages are never merged: the merged group of page `q` lies on page `q`. */
  lemma MergePageOnPage(rs: seq<HighlightRect>, q: int, p: int)
    ensures OnPage(MergePage(OnPage(rs, q)), p) == if p == q then MergePage(OnPage(rs, q)) else []
  {
    var g := OnPage(rs, q);
    MergePageProperties(g);
    OnPageMembers(rs, q);
    forall o | o in MergePage(g) ensures o.pageNumber == q {
      var i :| 0 <= i < |g| && g[i].top == o.top && g[i].left == o.left && g[i].pageNumber == o.pageNumber;
      assert g[i] in g;
    }
    if p == q {
      OnPageAll(MergePage(g), p);
    } else {
      OnPageNone(MergePage(g), p);
    }
  }

  lemma {:induction false} PageOrderDistinct(rs: seq<HighlightRect>)
    ensures Distinct(PageOrder(rs))
    decreases |rs|
  {
    if rs != [] {
      PageOrderDistinct(rs[..|rs| - 1]);
    }
  }

  lemma {:induction false} ConcatPagesOnPage(ps: seq<int>, rs: seq<HighlightRect>, p: int)
    requires Distinct(ps)
    ensures OnPage(ConcatPages(ps, rs), p) == if p in ps then MergePage(OnPage(rs, p)) else []
    decreases |ps|
  {
    if ps != [] {
      var init, q := ps[..|ps| - 1], ps[|ps| - 1];
      assert ps == init + [q];
      ConcatPagesOnPage(init, rs, p);
      OnPageAppend(ConcatPages(init, rs), MergePage(OnPage(rs, q)), p);
      MergePageOnPage(rs, q, p);
      assert p == q ==> p !in init;
    }
  }

  /** Every page rectangle comes from a fragment that passed the size filter and has a text layer. */
  lemma {:induction false} AttributedFrom(fs: seq<Fragment>, zoom: real, r: HighlightRect)
    requires zoom > 0.0
    requires r in Attributed(fs, zoom)
    ensures exists f :: f in fs && f.layer.Some? && r == ToPageRect(f.rect, f.layer.value, zoom)
    decreases |fs|
  {
    var init, last := fs[..|fs| - 1], fs[|fs| - 1];
    assert fs == init + [last];
    if r in Attributed(init, zoom) {
      AttributedFrom(init, zoom, r);
      var f :| f in init && f.layer.Some? && r == ToPageRect(f.rect, f.layer.value, zoom);
      assert f in fs;
    }
  }

  /**
   * Client rectangles of width or height at most one pixel, and those with
   * no text layer under them, never contribute: every collected rectangle
   * is the conversion of a fragment that passed both tests.
   */
  lemma PageRectsFrom(fs: seq<Fragment>, zoom: real, r: HighlightRect)
    requires zoom > 0.0
    requires r in PageRects(fs, zoom)
    ensures exists f :: f in fs && Visible(f.rect) && f.layer.Some? && r == ToPageRect(f.rect, f.layer.value, zoom)
  {
    AttributedFrom(VisibleOnly(fs), zoom, r);
  }

  /** The highlights of a selection are sorted by page number. */
  lemma HighlightsSorted(fs: seq<Fragment>, zoom: real)
    requires zoom > 0.0
    ensures Sorted(ByPage, Highlights(fs, zoom))
  {
    var rs := PageRects(fs, zoom);
    SortBySorted(ByPage, ConcatPages(PageOrder(rs), rs));
  }

  /**
   * On every page the highlights are exactly the merge of that page's
   * rectangles, in the order the pass produced them: the sort by page is
   * stable and no merged rectangle crosses pages.
   */
  lemma HighlightsByPage(fs: seq<Fragment>, zoom: real, p: int)
    requires zoom > 0.0
    ensures OnPage(Highlights(fs, zoom), p) == MergePage(OnPage(PageRects(fs, zoom), p))
  {
    var rs := PageRects(fs, zoom);
    var ps := PageOrder(rs);
    PageOrderDistinct(rs);
    SortByPageStable(ConcatPages(ps, rs), p);
    ConcatPagesOnPage(ps, rs, p);
    if p !in ps {
      OnPageNone(rs, p);
    }
  }

  lemma {:induction false} AttributedHeight(fs: seq<Fragment>, zoom: real)
    requires zoom > 0.0
    ensures forall r :: r in Attributed(fs, zoom) ==> r.height <= MAX_LINE_HEIGHT
    decreases |fs|
  {
    if fs != [] {
      AttributedHeight(fs[..|fs| - 1], zoom);
    }
  }

  /** No highlight is taller than 16 page units. */
  lemma HighlightsHeight(fs: seq<Fragment>, zoom: real, o: HighlightRect)
    requires zoom > 0.0
    requires o in Highlights(fs, zoom)
    ensures o.height <= MAX_LINE_HEIGHT
  {
    var rs := PageRects(fs, zoom);
    var out := Highlights(fs, zoom);
    var p := o.pageNumber;
    var g := OnPage(rs, p);
    OnPageMembers(out, p);
    assert o in OnPage(out, p);
    HighlightsByPage(fs, zoom, p);
    assert o in MergePage(g);
    MergePageProperties(g);
    var i :| 0 <= i < |g| && g[i].height == o.height;
    assert g[i] in g;
    OnPageMembers(rs, p);
    AttributedHeight(VisibleOnly(fs), zoom);
  }

  /** Each page that has rectangles keeps between one and (its rectangle count) highlights. */
  lemma HighlightsPerPage(fs: seq<Fragment>, zoom: real, p: int)
    requires zoom > 0.0
    requires OnPage(PageRects(fs, zoom), p) != []
    ensures 1 <= |OnPage(Highlights(fs, zoom), p)| <= |OnPage(PageRects(fs, zoom), p)|
  {
    HighlightsByPage(fs, zoom, p);
    MergePageProperties(OnPage(PageRects(fs, zoom), p));
  }

  /**
   * The pass folds by the current rectangle's left edge and the next one's
   * right edge, so a folded rectangle can lose width, even become negative,
   * when the next rectangle starts left of the current one.
   */
  lemma FoldLineCanShrink()
    ensures var cur := HighlightRect(1, 0.0, 10.0, 10.0, 5.0);
            var next := HighlightRect(1, 1.0, 0.0, 10.0, 3.0);
            && Le(ByTopLeft, cur, next)
            && FoldLine(cur, [next]) == [HighlightRect(1, 0.0, 10.0, 10.0, -7.0)]
  {
  }
}
