/**
 * Rectangles in page units (zoom 1), the `HighlightRect` of lector's store
 * (packages/lector/src/internal.ts), and the few facts about them that the
 * selection, tooltip and annotation modules share.
 */
module Geometry {

  /** A rectangle on page `pageNumber`, relative to the page's top-left corner. */
  datatype HighlightRect = HighlightRect(pageNumber: int, top: real, left: real, height: real, width: real)
  {
    function Right(): real { left + width }
    function Bottom(): real { top + height }
  }

  function Min(a: real, b: real): (m: real)
    ensures m <= a && m <= b
    ensures m == a || m == b
  {
    if a <= b then a else b
  }

  function Max(a: real, b: real): (m: real)
    ensures a <= m && b <= m
    ensures m == a || m == b
  {
    if a <= b then b else a
  }

  /** `outer` covers `inner` edge by edge (pages are not compared). */
  predicate Contains(outer: HighlightRect, inner: HighlightRect) {
    && outer.left <= inner.left
    && inner.Right() <= outer.Right()
    && outer.top <= inner.top
    && inner.Bottom() <= outer.Bottom()
  }

  lemma ContainsTransitive(a: HighlightRect, b: HighlightRect, c: HighlightRect)
    requires Contains(a, b) && Contains(b, c)
    ensures Contains(a, c)
  {
  }

  /** The rectangles of `rs` that lie on page `p`, in their order in `rs`. */
  function OnPage(rs: seq<HighlightRect>, p: int): (r: seq<HighlightRect>)
    ensures |r| <= |rs|
  {
    if rs == [] then []
    else
      var last := rs[|rs| - 1];
      assert rs == rs[..|rs| - 1] + [last];
      OnPage(rs[..|rs| - 1], p) + (if last.pageNumber == p then [last] else [])
  }

  lemma {:induction false} OnPageMembers(rs: seq<HighlightRect>, p: int)
    ensures forall x :: x in OnPage(rs, p) <==> x in rs && x.pageNumber == p
    decreases |rs|
  {
    if rs != [] {
      var init := rs[..|rs| - 1];
      OnPageMembers(init, p);
      assert rs == init + [rs[|rs| - 1]];
    }
  }

  lemma {:induction false} OnPageNone(rs: seq<HighlightRect>, p: int)
    requires forall x :: x in rs ==> x.pageNumber != p
    ensures OnPage(rs, p) == []
    decreases |rs|
  {
    if rs != [] {
      OnPageNone(rs[..|rs| - 1], p);
    }
  }

  lemma {:induction false} OnPageAll(rs: seq<HighlightRect>, p: int)
    requires forall x :: x in rs ==> x.pageNumber == p
    ensures OnPage(rs, p) == rs
    decreases |rs|
  {
    if rs != [] {
      OnPageAll(rs[..|rs| - 1], p);
      assert rs == rs[..|rs| - 1] + [rs[|rs| - 1]];
    }
  }

  lemma {:induction false} OnPageAppend(a: seq<HighlightRect>, b: seq<HighlightRect>, p: int)
    ensures OnPage(a + b, p) == OnPage(a, p) + OnPage(b, p)
    decreases |b|
  {
    if b == [] {
      assert a + b == a;
    } else {
      var b' := b[..|b| - 1];
      assert (a + b)[..|a + b| - 1] == a + b';
      OnPageAppend(a, b', p);
    }
  }

  lemma OnPageCons(x: HighlightRect, s: seq<HighlightRect>, p: int)
    ensures OnPage([x] + s, p) == (if x.pageNumber == p then [x] else []) + OnPage(s, p)
  {
    OnPageAppend([x], s, p);
    assert [x] == [] + [x];
  }

  // Sequence facts the proofs of the other modules cite by name.

  lemma ConcatAssoc<T>(a: seq<T>, b: seq<T>, c: seq<T>)
    ensures a + (b + c) == (a + b) + c
  {
  }

  lemma ConcatParts<T>(a: seq<T>, b: seq<T>)
    ensures (a + b)[..|a|] == a
    ensures forall i :: 0 <= i < |b| ==> (a + b)[|a| + i] == b[i]
  {
  }

  lemma SwapDisjoint<T>(a: seq<T>, b: seq<T>, c: seq<T>)
    requires a == [] || b == []
    ensures a + (b + c) == b + (a + c)
  {
    if a == [] {
      assert a + (b + c) == b + c;
    } else {
      assert b + (a + c) == a + c;
    }
  }
}
