/**
 * The stable sort that JavaScript's `Array.prototype.sort` and `toSorted`
 * perform, for the three comparators the selection code passes to it:
 * by top (packages/lector/src/hooks/useSelectionDimensions.tsx:52),
 * by top then left (:147-150) and by page number (:184).
 * A comparator `(a, b) => key(a) - key(b)` keeps `a` before `b` unless it is
 * positive, and equal keys keep their input order.
 */
module RectSort {
  import opened Geometry

  datatype RectOrder = ByTop | ByTopLeft | ByPage

  /** `a` may stand before `b`: the comparator does not return a positive number. */
  predicate Le(o: RectOrder, a: HighlightRect, b: HighlightRect) {
    match o
    case ByTop => a.top <= b.top
    case ByTopLeft => a.top < b.top || (a.top == b.top && a.left <= b.left)
    case ByPage => a.pageNumber <= b.pageNumber
  }

  lemma LeTotal(o: RectOrder, a: HighlightRect, b: HighlightRect)
    ensures Le(o, a, b) || Le(o, b, a)
  {
  }

  predicate Sorted(o: RectOrder, s: seq<HighlightRect>) {
    forall i, j :: 0 <= i < j < |s| ==> Le(o, s[i], s[j])
  }

  /** Puts `x` before the first element it may stand before. */
  function Insert(o: RectOrder, x: HighlightRect, s: seq<HighlightRect>): (r: seq<HighlightRect>)
    ensures multiset(r) == multiset(s) + multiset{x}
    ensures |r| == |s| + 1
  {
    if s == [] then [x]
    else if Le(o, x, s[0]) then [x] + s
    else
      assert s == [s[0]] + s[1..];
      [s[0]] + Insert(o, x, s[1..])
  }

  /** Insertion sort: `s[0]` goes in front of every later element with the same key. */
  function SortBy(o: RectOrder, s: seq<HighlightRect>): (r: seq<HighlightRect>)
    ensures multiset(r) == multiset(s)
    ensures |r| == |s|
  {
    if s == [] then []
    else
      assert s == [s[0]] + s[1..];
      Insert(o, s[0], SortBy(o, s[1..]))
  }

  lemma {:induction false} InsertSorted(o: RectOrder, x: HighlightRect, s: seq<HighlightRect>)
    requires Sorted(o, s)
    ensures Sorted(o, Insert(o, x, s))
    decreases |s|
  {
    if s != [] && !Le(o, x, s[0]) {
      InsertSorted(o, x, s[1..]);
      var r := Insert(o, x, s);
      var t := Insert(o, x, s[1..]);
      assert r == [s[0]] + t;
      forall k | 0 <= k < |t| ensures Le(o, s[0], t[k]) {
        assert t[k] in multiset(s[1..]) + multiset{x};
        if t[k] == x {
          LeTotal(o, x, s[0]);
        } else {
          assert t[k] in s[1..];
        }
      }
    }
  }

  lemma {:induction false} SortBySorted(o: RectOrder, s: seq<HighlightRect>)
    ensures Sorted(o, SortBy(o, s))
    decreases |s|
  {
    if s != [] {
      SortBySorted(o, s[1..]);
      InsertSorted(o, s[0], SortBy(o, s[1..]));
    }
  }

  /** Sorting by page number keeps, on every page, the input order of that page's rectangles. */
  lemma {:induction false} SortByPageStable(s: seq<HighlightRect>, p: int)
    ensures OnPage(SortBy(ByPage, s), p) == OnPage(s, p)
    decreases |s|
  {
    if s != [] {
      SortByPageStable(s[1..], p);
      InsertByPageStable(s[0], SortBy(ByPage, s[1..]), p);
      OnPageCons(s[0], s[1..], p);
      assert s == [s[0]] + s[1..];
    }
  }

  lemma {:induction false} InsertByPageStable(x: HighlightRect, s: seq<HighlightRect>, p: int)
    ensures OnPage(Insert(ByPage, x, s), p) == (if x.pageNumber == p then [x] else []) + OnPage(s, p)
    decreases |s|
  {
    if s == [] {
      OnPageCons(x, [], p);
      assert [x] + [] == [x];
    } else if Le(ByPage, x, s[0]) {
      OnPageCons(x, s, p);
    } else {
      InsertByPageStable(x, s[1..], p);
      InsertAfterHead(x, s, p);
    }
  }

  /** The step of `InsertByPageStable` where `x` goes after `s[0]`, given the result for `s[1..]`. */
  lemma InsertAfterHead(x: HighlightRect, s: seq<HighlightRect>, p: int)
    requires s != [] && !Le(ByPage, x, s[0])
    requires OnPage(Insert(ByPage, x, s[1..]), p) == (if x.pageNumber == p then [x] else []) + OnPage(s[1..], p)
    ensures OnPage(Insert(ByPage, x, s), p) == (if x.pageNumber == p then [x] else []) + OnPage(s, p)
  {
    var t := Insert(ByPage, x, s[1..]);
    var head := [s[0]];
    assert s == head + s[1..];
    assert Insert(ByPage, x, s) == head + t;
    OnPageAppend(head, t, p);
    OnPageAppend(head, s[1..], p);
    var hx: seq<HighlightRect> := if x.pageNumber == p then [x] else [];
    // `x` belongs after `s[0]`, so they are not on the same page
    if x.pageNumber == p {
      OnPageNone(head, p);
    }
    SwapDisjoint(OnPage(head, p), hx, OnPage(s[1..], p));
  }

  /** `a` and `b` have equal keys under `o`: the comparator returns zero. */
  predicate Tied(o: RectOrder, a: HighlightRect, b: HighlightRect) {
    Le(o, a, b) && Le(o, b, a)
  }

  /** The elements of `s` whose key equals that of `k`, in their order in `s`. */
  function Ties(o: RectOrder, s: seq<HighlightRect>, k: HighlightRect): (r: seq<HighlightRect>)
    ensures |r| <= |s|
  {
    if s == [] then []
    else (if Tied(o, s[0], k) then [s[0]] else []) + Ties(o, s[1..], k)
  }

  /** Inserting `x` puts it in front of every element with its key and keeps their order. */
  lemma {:induction false} InsertStable(o: RectOrder, x: HighlightRect, s: seq<HighlightRect>, k: HighlightRect)
    ensures Ties(o, Insert(o, x, s), k) == (if Tied(o, x, k) then [x] else []) + Ties(o, s, k)
    decreases |s|
  {
    var hx: seq<HighlightRect> := if Tied(o, x, k) then [x] else [];
    if s == [] {
      assert Ties(o, [x], k) == hx + Ties(o, [], k);
    } else if Le(o, x, s[0]) {
      assert ([x] + s)[0] == x && ([x] + s)[1..] == s;
    } else {
      InsertStable(o, x, s[1..], k);
      var t := Insert(o, x, s[1..]);
      assert ([s[0]] + t)[0] == s[0] && ([s[0]] + t)[1..] == t;
      var h0: seq<HighlightRect> := if Tied(o, s[0], k) then [s[0]] else [];
      // `x` went past `s[0]`, so they do not share `k`'s key
      assert Ties(o, Insert(o, x, s), k) == h0 + (hx + Ties(o, s[1..], k));
      SwapDisjoint(h0, hx, Ties(o, s[1..], k));
    }
  }

  /**
   * The sort is stable under each of the three comparators: the elements
   * with any one key come out in their input order.
   */
  lemma {:induction false} SortByStable(o: RectOrder, s: seq<HighlightRect>, k: HighlightRect)
    ensures Ties(o, SortBy(o, s), k) == Ties(o, s, k)
    decreases |s|
  {
    if s != [] {
      SortByStable(o, s[1..], k);
      InsertStable(o, s[0], SortBy(o, s[1..]), k);
    }
  }
}
