/**
 * The rectangle primitives of packages/lector/src/hooks/useSelectionDimensions.tsx:
 * the merge predicate `shouldMergeRectangles`, the bounding-box union
 * `mergeRectangles`, and `consolidateRects`, the top-sorted single pass that
 * grows each merged box by a fixed margin. (`getDimension` does not call
 * `consolidateRects`; it is modelled as the source defines it.)
 */
module RectMerge {
  import opened Geometry
  import opened RectSort

  const MERGE_THRESHOLD: real := 2.0

  function Abs(x: real): real {
    if x < 0.0 then -x else x
  }

  /** The two vertical spans, taken as closed intervals, are not separated. */
  predicate VerticalOverlap(a: HighlightRect, b: HighlightRect) {
    !(a.top > b.Bottom() || b.top > a.Bottom())
  }

  /** An edge of one lies within the threshold of the facing edge of the other, or the horizontal spans overlap. */
  predicate HorizontallyClose(a: HighlightRect, b: HighlightRect) {
    || Abs(a.Right() - b.left) < MERGE_THRESHOLD
    || Abs(b.Right() - a.left) < MERGE_THRESHOLD
    || (a.left < b.Right() && b.left < a.Right())
  }

  predicate ShouldMergeRectangles(a: HighlightRect, b: HighlightRect) {
    VerticalOverlap(a, b) && HorizontallyClose(a, b)
  }

  /** `y` lies in the closed interval [lo, hi]. */
  predicate InClosed(y: real, lo: real, hi: real) {
    lo <= y <= hi
  }

  /** `x` lies in the open interval (lo, hi). */
  predicate InOpen(x: real, lo: real, hi: real) {
    lo < x < hi
  }

  /**
   * For rectangles of non-negative height and positive width, the predicate
   * holds exactly when their closed vertical spans share a point and either
   * a facing edge gap is under the threshold or their open horizontal spans
   * share a point.
   */
  lemma ShouldMergeMeaning(a: HighlightRect, b: HighlightRect)
    requires a.height >= 0.0 && b.height >= 0.0
    requires a.width > 0.0 && b.width > 0.0
    ensures ShouldMergeRectangles(a, b) <==>
      && (exists y :: InClosed(y, a.top, a.Bottom()) && InClosed(y, b.top, b.Bottom()))
      && (|| Abs(a.Right() - b.left) < MERGE_THRESHOLD
          || Abs(b.Right() - a.left) < MERGE_THRESHOLD
          || exists x :: InOpen(x, a.left, a.Right()) && InOpen(x, b.left, b.Right()))
  {
    var y := Max(a.top, b.top);
    if VerticalOverlap(a, b) {
      assert InClosed(y, a.top, a.Bottom()) && InClosed(y, b.top, b.Bottom());
    }
    var x := (Max(a.left, b.left) + Min(a.Right(), b.Right())) / 2.0;
    if a.left < b.Right() && b.left < a.Right() {
      assert InOpen(x, a.left, a.Right()) && InOpen(x, b.left, b.Right());
    }
  }

  lemma ShouldMergeSymmetric(a: HighlightRect, b: HighlightRect)
    ensures ShouldMergeRectangles(a, b) == ShouldMergeRectangles(b, a)
  {
  }

  /** The bounding box of both rectangles, on the page of the first. */
  function MergeRectangles(a: HighlightRect, b: HighlightRect): (r: HighlightRect)
    ensures r.pageNumber == a.pageNumber
    ensures Contains(r, a) && Contains(r, b)
    ensures r.left == a.left || r.left == b.left
    ensures r.top == a.top || r.top == b.top
    ensures r.Right() == a.Right() || r.Right() == b.Right()
    ensures r.Bottom() == a.Bottom() || r.Bottom() == b.Bottom()
  {
    HighlightRect(
      a.pageNumber,
      Min(a.top, b.top),
      Min(a.left, b.left),
      Max(a.Bottom(), b.Bottom()) - Min(a.top, b.top),
      Max(a.Right(), b.Right()) - Min(a.left, b.left))
  }

  /** The merged box is the smallest box covering both inputs. */
  lemma MergeIsLeastCover(a: HighlightRect, b: HighlightRect, c: HighlightRect)
    requires Contains(c, a) && Contains(c, b)
    ensures Contains(c, MergeRectangles(a, b))
  {
  }

  lemma MergeSelf(a: HighlightRect)
    ensures MergeRectangles(a, a) == a
  {
  }

  /** `blowUpMergedRectangles`: 2 more on the left and the top, 4 wider and 2 taller. */
  function BlowUp(r: HighlightRect): HighlightRect {
    r.(left := r.left - 2.0, top := r.top - 2.0, width := r.width + 4.0, height := r.height + 2.0)
  }

  /** The box `BlowUp` was applied to. */
  function Unexpanded(r: HighlightRect): HighlightRect {
    r.(left := r.left + 2.0, top := r.top + 2.0, width := r.width - 4.0, height := r.height - 2.0)
  }

  /**
   * The single pass of `consolidateRects` from the box `acc` being grown:
   * the next rectangle joins it when `ShouldMergeRectangles` holds, and
   * otherwise `acc` is closed (blown up) and the next one starts a new box.
   */
  function ConsolidateRun(acc: HighlightRect, rest: seq<HighlightRect>): seq<HighlightRect>
    decreases |rest|
  {
    if rest == [] then [BlowUp(acc)]
    else if ShouldMergeRectangles(acc, rest[0]) then ConsolidateRun(MergeRectangles(acc, rest[0]), rest[1..])
    else [BlowUp(acc)] + ConsolidateRun(rest[0], rest[1..])
  }

  /** `consolidateRects`: short inputs come back as they are; longer ones are sorted by top and folded. */
  function Consolidate(rects: seq<HighlightRect>): seq<HighlightRect> {
    if |rects| <= 1 then rects
    else
      var sorted := SortBy(ByTop, rects);
      ConsolidateRun(sorted[0], sorted[1..])
  }

  method ConsolidateRects(rects: seq<HighlightRect>) returns (all: seq<HighlightRect>)
    ensures all == Consolidate(rects)
  {
    if |rects| <= 1 {
      return rects;
    }
    var sorted := SortBy(ByTop, rects);
    var acc := sorted[0];
    all := [];
    MergeSelf(acc);
    ghost var target := ConsolidateRun(sorted[0], sorted[1..]);
    assert target == Consolidate(rects);
    var index := 0;
    while index < |sorted|
      invariant 0 <= index <= |sorted|
      invariant index < |sorted| ==> all + ConsolidateRun(MergeRectangles(acc, sorted[index]), sorted[index + 1..]) == target
      invariant index == |sorted| ==> all == target
    {
      if index + 1 < |sorted| {
        ConsolidateStep(all, acc, sorted, index, target);
      } else {
        assert sorted[index + 1..] == [];
      }
      acc := MergeRectangles(acc, sorted[index]);
      if index + 1 == |sorted| {
        all := all + [BlowUp(acc)];
      } else {
        var next := sorted[index + 1];
        if !ShouldMergeRectangles(acc, next) {
          all := all + [BlowUp(acc)];
          acc := next;
        }
      }
      index := index + 1;
    }
  }

  /**
   * One turn of the loop of `consolidateRects`: merge `s[k]` into `acc`,
   * then either keep growing the box with `s[k + 1]` or close it and start
   * again from `s[k + 1]`, which merged with itself is itself.
   */
  lemma ConsolidateStep(all: seq<HighlightRect>, acc: HighlightRect, s: seq<HighlightRect>, k: nat, target: seq<HighlightRect>)
    requires k + 1 < |s|
    requires all + ConsolidateRun(MergeRectangles(acc, s[k]), s[k + 1..]) == target
    ensures var m := MergeRectangles(acc, s[k]);
      if ShouldMergeRectangles(m, s[k + 1]) then all + ConsolidateRun(MergeRectangles(m, s[k + 1]), s[k + 2..]) == target
      else (all + [BlowUp(m)]) + ConsolidateRun(MergeRectangles(s[k + 1], s[k + 1]), s[k + 2..]) == target
  {
    var m := MergeRectangles(acc, s[k]);
    assert s[k + 1..][0] == s[k + 1] && s[k + 1..][1..] == s[k + 2..];
    MergeSelf(s[k + 1]);
    if !ShouldMergeRectangles(m, s[k + 1]) {
      ConcatAssoc(all, [BlowUp(m)], ConsolidateRun(s[k + 1], s[k + 2..]));
    }
  }

  /** The pass closes at least one box and never more boxes than it was given rectangles. */
  lemma {:induction false} ConsolidateRunLength(acc: HighlightRect, rest: seq<HighlightRect>)
    ensures 1 <= |ConsolidateRun(acc, rest)| <= |rest| + 1
    decreases |rest|
  {
    if rest != [] {
      if ShouldMergeRectangles(acc, rest[0]) {
        ConsolidateRunLength(MergeRectangles(acc, rest[0]), rest[1..]);
      } else {
        ConsolidateRunLength(rest[0], rest[1..]);
      }
    }
  }

  /** Every rectangle the pass reads lies inside the unexpanded box of some output. */
  lemma {:induction false} ConsolidateRunCovers(acc: HighlightRect, rest: seq<HighlightRect>, x: HighlightRect)
    requires x == acc || x in rest
    ensures exists o :: o in ConsolidateRun(acc, rest) && Contains(Unexpanded(o), x)
    decreases |rest|
  {
    var out := ConsolidateRun(acc, rest);
    if rest == [] {
      assert Unexpanded(BlowUp(acc)) == acc && out[0] == BlowUp(acc);
    } else if ShouldMergeRectangles(acc, rest[0]) {
      var m := MergeRectangles(acc, rest[0]);
      if x == acc || x == rest[0] {
        ConsolidateRunCovers(m, rest[1..], m);
        var o :| o in ConsolidateRun(m, rest[1..]) && Contains(Unexpanded(o), m);
        ContainsTransitive(Unexpanded(o), m, x);
      } else {
        ConsolidateRunCovers(m, rest[1..], x);
      }
    } else if x == acc {
      assert Unexpanded(BlowUp(acc)) == acc && out[0] == BlowUp(acc);
    } else {
      ConsolidateRunCovers(rest[0], rest[1..], x);
      var o :| o in ConsolidateRun(rest[0], rest[1..]) && Contains(Unexpanded(o), x);
      assert o in out;
    }
  }

  /**
   * The four edges of a box are edges of rectangles of `s` (the box is a
   * bounding box of some of them), and its page is the page of one of them.
   */
  predicate EdgesFrom(b: HighlightRect, s: seq<HighlightRect>) {
    && (exists i :: 0 <= i < |s| && s[i].left == b.left)
    && (exists i :: 0 <= i < |s| && s[i].top == b.top)
    && (exists i :: 0 <= i < |s| && s[i].Right() == b.Right())
    && (exists i :: 0 <= i < |s| && s[i].Bottom() == b.Bottom())
    && (exists i :: 0 <= i < |s| && s[i].pageNumber == b.pageNumber)
  }

  lemma {:induction false} ConsolidateRunTight(acc: HighlightRect, rest: seq<HighlightRect>, s: seq<HighlightRect>)
    requires EdgesFrom(acc, s)
    requires forall x :: x in rest ==> x in s
    ensures forall o :: o in ConsolidateRun(acc, rest) ==> EdgesFrom(Unexpanded(o), s)
    decreases |rest|
  {
    if rest == [] {
      assert Unexpanded(BlowUp(acc)) == acc;
    } else {
      var r0 := rest[0];
      assert r0 in rest;
      var j :| 0 <= j < |s| && s[j] == r0;
      assert EdgesFrom(r0, s) by {
        assert s[j].left == r0.left && s[j].top == r0.top;
      }
      if ShouldMergeRectangles(acc, r0) {
        var m := MergeRectangles(acc, r0);
        assert EdgesFrom(m, s);
        ConsolidateRunTight(m, rest[1..], s);
      } else {
        assert Unexpanded(BlowUp(acc)) == acc;
        ConsolidateRunTight(r0, rest[1..], s);
      }
    }
  }

  lemma BlowUpContains(b: HighlightRect)
    ensures Contains(BlowUp(b), b)
  {
  }

  /**
   * `consolidateRects` on two or more rectangles: between one and as many
   * boxes as inputs; every input lies inside the unexpanded part of some
   * output, hence inside that output; and every output is a box grown by
   * the margin whose edges and page come from the inputs.
   */
  lemma ConsolidateProperties(rects: seq<HighlightRect>)
    requires |rects| >= 2
    ensures 1 <= |Consolidate(rects)| <= |rects|
    ensures forall x :: x in rects ==>
      exists o :: o in Consolidate(rects) && Contains(Unexpanded(o), x) && Contains(o, x)
    ensures forall o :: o in Consolidate(rects) ==> EdgesFrom(Unexpanded(o), rects)
  {
    var sorted := SortBy(ByTop, rects);
    var acc, rest := sorted[0], sorted[1..];
    assert sorted == [acc] + rest;
    ConsolidateRunLength(acc, rest);
    forall x | x in rects
      ensures exists o :: o in Consolidate(rects) && Contains(Unexpanded(o), x) && Contains(o, x)
    {
      assert x in multiset(sorted);
      assert x == acc || x in rest;
      ConsolidateRunCovers(acc, rest, x);
      var o :| o in ConsolidateRun(acc, rest) && Contains(Unexpanded(o), x);
      assert o == BlowUp(Unexpanded(o));
      BlowUpContains(Unexpanded(o));
      ContainsTransitive(o, Unexpanded(o), x);
    }
    assert acc in multiset(rects);
    var j :| 0 <= j < |rects| && rects[j] == acc;
    assert EdgesFrom(acc, rects) by {
      assert rects[j].left == acc.left;
    }
    forall x | x in rest ensures x in rects {
      assert x in multiset(sorted);
    }
    ConsolidateRunTight(acc, rest, rects);
  }

  /** Zero or one rectangle is returned as it is, without the margin. */
  lemma ConsolidateShort(rects: seq<HighlightRect>)
    requires |rects| <= 1
    ensures Consolidate(rects) == rects
  {
  }
}
