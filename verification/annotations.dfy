/**
 * The annotation store of packages/lector/src/hooks/useAnnotations.ts: a
 * list of annotations that every action replaces with a new list computed
 * from the old one. Identifiers (`uuidv4()`) and the clock (`new Date()`)
 * are passed in; a date is its time in milliseconds.
 */
module Annotations {
  import opened Wrappers
  import opened Geometry

  datatype Annotation = Annotation(
    id: string,
    pageNumber: int,
    highlights: seq<HighlightRect>,
    comment: Option<string>,
    color: Option<string>,
    createdAt: int,
    updatedAt: int)

  /** What `addAnnotation` receives: an annotation without id and dates. */
  datatype AnnotationDraft = AnnotationDraft(
    pageNumber: int,
    highlights: seq<HighlightRect>,
    comment: Option<string>,
    color: Option<string>)

  /**
   * A `Partial<Annotation>`: `None` for a key the object does not have;
   * for the optional fields, `Some(None)` for a key present with `undefined`.
   */
  datatype AnnotationPatch = AnnotationPatch(
    id: Option<string>,
    pageNumber: Option<int>,
    highlights: Option<seq<HighlightRect>>,
    comment: Option<Option<string>>,
    color: Option<Option<string>>,
    createdAt: Option<int>,
    updatedAt: Option<int>)

  /** An annotation read from the PDF: its `rect` is `[x1, y1, x2, y2]`. */
  datatype PdfAnnotation = PdfAnnotation(x1: real, y1: real, x2: real, y2: real)

  function Override<T>(current: T, patch: Option<T>): T {
    if patch.Some? then patch.value else current
  }

  /** `{ ...annotation, ...updates, updatedAt: now }`. */
  function ApplyPatch(a: Annotation, patch: AnnotationPatch, now: int): (r: Annotation)
    ensures r.updatedAt == now
    ensures patch.id.None? ==> r.id == a.id
    ensures patch.pageNumber.None? ==> r.pageNumber == a.pageNumber
    ensures patch.highlights.None? ==> r.highlights == a.highlights
    ensures patch.comment.None? ==> r.comment == a.comment
    ensures patch.color.None? ==> r.color == a.color
    ensures patch.createdAt.None? ==> r.createdAt == a.createdAt
    ensures patch.id.Some? ==> r.id == patch.id.value
    ensures patch.pageNumber.Some? ==> r.pageNumber == patch.pageNumber.value
    ensures patch.highlights.Some? ==> r.highlights == patch.highlights.value
    ensures patch.comment.Some? ==> r.comment == patch.comment.value
    ensures patch.color.Some? ==> r.color == patch.color.value
    ensures patch.createdAt.Some? ==> r.createdAt == patch.createdAt.value
  {
    Annotation(
      Override(a.id, patch.id),
      Override(a.pageNumber, patch.pageNumber),
      Override(a.highlights, patch.highlights),
      Override(a.comment, patch.comment),
      Override(a.color, patch.color),
      Override(a.createdAt, patch.createdAt),
      now)
  }

  /** The record `addAnnotation` appends. */
  function NewAnnotation(draft: AnnotationDraft, id: string, now: int): Annotation {
    Annotation(id, draft.pageNumber, draft.highlights, draft.comment, draft.color, now, now)
  }

  /** The `map` of `updateAnnotation`. */
  function Updated(list: seq<Annotation>, id: string, patch: AnnotationPatch, now: int): seq<Annotation> {
    if list == [] then []
    else [if list[0].id == id then ApplyPatch(list[0], patch, now) else list[0]] + Updated(list[1..], id, patch, now)
  }

  /** The `filter` of `deleteAnnotation`. */
  function WithoutId(list: seq<Annotation>, id: string): seq<Annotation> {
    if list == [] then []
    else (if list[0].id != id then [list[0]] else []) + WithoutId(list[1..], id)
  }

  /** The `filter` of `addPDFAnnotations`: every annotation not on `page`. */
  function OffPage(list: seq<Annotation>, page: int): seq<Annotation> {
    if list == [] then []
    else (if list[0].pageNumber != page then [list[0]] else []) + OffPage(list[1..], page)
  }

  /** One PDF annotation as a stored annotation with a single highlight. */
  function FromPdf(pdf: PdfAnnotation, page: int, id: string, now: int): (a: Annotation)
    ensures |a.highlights| == 1
    ensures a.pageNumber == page && a.highlights[0].pageNumber == page
    ensures a.highlights[0].left == pdf.x1 && a.highlights[0].top == pdf.y1
    ensures a.highlights[0].Right() == pdf.x2 && a.highlights[0].Bottom() == pdf.y2
  {
    Annotation(id, page, [HighlightRect(page, pdf.y1, pdf.x1, pdf.y2 - pdf.y1, pdf.x2 - pdf.x1)], None, None, now, now)
  }

  /** The `map` of `addPDFAnnotations`, the i-th annotation taking the i-th identifier. */
  function FromPdfAll(pdfs: seq<PdfAnnotation>, page: int, ids: seq<string>, now: int): (r: seq<Annotation>)
    requires |ids| == |pdfs|
    ensures |r| == |pdfs|
    ensures forall i :: 0 <= i < |r| ==> r[i] == FromPdf(pdfs[i], page, ids[i], now)
  {
    if pdfs == [] then []
    else [FromPdf(pdfs[0], page, ids[0], now)] + FromPdfAll(pdfs[1..], page, ids[1..], now)
  }

  predicate UniqueIds(list: seq<Annotation>) {
    forall i, j :: 0 <= i < j < |list| ==> list[i].id != list[j].id
  }

  predicate HasId(list: seq<Annotation>, id: string) {
    exists i :: 0 <= i < |list| && list[i].id == id
  }

  class AnnotationStore {
    var annotations: seq<Annotation>

    constructor()
      ensures annotations == []
    {
      annotations := [];
    }

    method AddAnnotation(draft: AnnotationDraft, id: string, now: int)
      modifies this
      ensures annotations == old(annotations) + [NewAnnotation(draft, id, now)]
    {
      annotations := annotations + [NewAnnotation(draft, id, now)];
    }

    method UpdateAnnotation(id: string, updates: AnnotationPatch, now: int)
      modifies this
      ensures annotations == Updated(old(annotations), id, updates, now)
    {
      annotations := Updated(annotations, id, updates, now);
    }

    method DeleteAnnotation(id: string)
      modifies this
      ensures annotations == WithoutId(old(annotations), id)
    {
      annotations := WithoutId(annotations, id);
    }

    method SetAnnotations(list: seq<Annotation>)
      modifies this
      ensures annotations == list
    {
      annotations := list;
    }

    method AddPdfAnnotations(pageNumber: int, pdfAnnotations: seq<PdfAnnotation>, ids: seq<string>, now: int)
      requires |ids| == |pdfAnnotations|
      modifies this
      ensures annotations == OffPage(old(annotations), pageNumber) + FromPdfAll(pdfAnnotations, pageNumber, ids, now)
    {
      var newAnnotations := FromPdfAll(pdfAnnotations, pageNumber, ids, now);
      var filteredAnnotations := OffPage(annotations, pageNumber);
      annotations := filteredAnnotations + newAnnotations;
    }
  }

  /** `addAnnotation` keeps every earlier record and puts one record, with the draft's fields, the new id and both dates `now`, last. */
  lemma AddedRecord(list: seq<Annotation>, draft: AnnotationDraft, id: string, now: int)
    ensures var r := list + [NewAnnotation(draft, id, now)];
      && |r| == |list| + 1 && r[..|list|] == list
      && r[|list|].id == id && r[|list|].createdAt == now && r[|list|].updatedAt == now
      && r[|list|].pageNumber == draft.pageNumber && r[|list|].highlights == draft.highlights
      && r[|list|].comment == draft.comment && r[|list|].color == draft.color
  {
  }

  /**
   * `updateAnnotation` keeps the length and the order; records with another
   * id are untouched, and each record with the id gets the patch and the new
   * `updatedAt`.
   */
  lemma {:induction false} UpdatedProperties(list: seq<Annotation>, id: string, patch: AnnotationPatch, now: int)
    ensures |Updated(list, id, patch, now)| == |list|
    ensures forall i :: 0 <= i < |list| ==>
      Updated(list, id, patch, now)[i] == if list[i].id == id then ApplyPatch(list[i], patch, now) else list[i]
  {
    if list != [] {
      UpdatedProperties(list[1..], id, patch, now);
      var r := Updated(list, id, patch, now);
      forall i | 0 <= i < |list|
        ensures r[i] == if list[i].id == id then ApplyPatch(list[i], patch, now) else list[i]
      {
        if i > 0 {
          assert r[i] == Updated(list[1..], id, patch, now)[i - 1];
        }
      }
    }
  }

  /** An id no record has: `updateAnnotation` changes nothing. */
  lemma UpdatedAbsent(list: seq<Annotation>, id: string, patch: AnnotationPatch, now: int)
    requires !HasId(list, id)
    ensures Updated(list, id, patch, now) == list
  {
    UpdatedProperties(list, id, patch, now);
  }

  /** After `deleteAnnotation` no record has the id, and exactly the records with another id remain. */
  lemma {:induction false} WithoutIdMembers(list: seq<Annotation>, id: string)
    ensures forall a :: a in WithoutId(list, id) <==> a in list && a.id != id
    ensures |WithoutId(list, id)| <= |list|
  {
    if list != [] {
      WithoutIdMembers(list[1..], id);
      assert list == [list[0]] + list[1..];
    }
  }

  /** `deleteAnnotation` keeps the order: deleting from a concatenation deletes from each part. */
  lemma {:induction false} WithoutIdAppend(a: seq<Annotation>, b: seq<Annotation>, id: string)
    ensures WithoutId(a + b, id) == WithoutId(a, id) + WithoutId(b, id)
  {
    if a != [] {
      WithoutIdAppend(a[1..], b, id);
      var head: seq<Annotation> := if a[0].id != id then [a[0]] else [];
      assert (a + b)[0] == a[0] && (a + b)[1..] == a[1..] + b;
      assert WithoutId(a + b, id) == head + WithoutId(a[1..] + b, id);
      ConcatAssoc(head, WithoutId(a[1..], id), WithoutId(b, id));
    } else {
      assert a + b == b;
    }
  }

  /** The `filter` of `addPDFAnnotations` keeps order: it distributes over concatenation. */
  lemma {:induction false} OffPageAppend(a: seq<Annotation>, b: seq<Annotation>, page: int)
    ensures OffPage(a + b, page) == OffPage(a, page) + OffPage(b, page)
  {
    if a != [] {
      OffPageAppend(a[1..], b, page);
      var head: seq<Annotation> := if a[0].pageNumber != page then [a[0]] else [];
      assert (a + b)[0] == a[0] && (a + b)[1..] == a[1..] + b;
      assert OffPage(a + b, page) == head + OffPage(a[1..] + b, page);
      ConcatAssoc(head, OffPage(a[1..], page), OffPage(b, page));
    } else {
      assert a + b == b;
    }
  }

  /** `deleteAnnotation` of an id no record has is a no-op. */
  lemma {:induction false} WithoutIdAbsent(list: seq<Annotation>, id: string)
    requires !HasId(list, id)
    ensures WithoutId(list, id) == list
  {
    if list != [] {
      forall i | 0 <= i < |list[1..]| ensures list[1..][i].id != id {
        assert list[1..][i] == list[i + 1];
      }
      WithoutIdAbsent(list[1..], id);
      assert list[0].id != id;
    }
  }

  lemma {:induction false} OffPageMembers(list: seq<Annotation>, page: int)
    ensures forall a :: a in OffPage(list, page) <==> a in list && a.pageNumber != page
  {
    if list != [] {
      OffPageMembers(list[1..], page);
      assert list == [list[0]] + list[1..];
    }
  }

  /** The number of records not on `page`. */
  function CountOffPage(list: seq<Annotation>, page: int): nat {
    if list == [] then 0 else (if list[0].pageNumber != page then 1 else 0) + CountOffPage(list[1..], page)
  }

  /**
   * `addPDFAnnotations` drops every record on the page, user-made ones
   * included, keeps the others in order, and appends one record per PDF
   * annotation: (records on other pages) + (PDF annotations) in all.
   */
  lemma AddPdfProperties(list: seq<Annotation>, page: int, pdfs: seq<PdfAnnotation>, ids: seq<string>, now: int)
    requires |ids| == |pdfs|
    ensures var r := OffPage(list, page) + FromPdfAll(pdfs, page, ids, now);
      && |r| == CountOffPage(list, page) + |pdfs|
      && (forall a :: a in list && a.pageNumber == page ==> a !in r[..CountOffPage(list, page)])
      && r[..CountOffPage(list, page)] == OffPage(list, page)
      && (forall i :: 0 <= i < |pdfs| ==> r[CountOffPage(list, page) + i] == FromPdf(pdfs[i], page, ids[i], now))
  {
    OffPageLength(list, page);
    OffPageMembers(list, page);
    ConcatParts(OffPage(list, page), FromPdfAll(pdfs, page, ids, now));
  }

  lemma {:induction false} OffPageLength(list: seq<Annotation>, page: int)
    ensures |OffPage(list, page)| == CountOffPage(list, page)
  {
    if list != [] {
      OffPageLength(list[1..], page);
    }
  }

  /** Adding a record whose id no record has keeps ids unique. */
  lemma AddKeepsUnique(list: seq<Annotation>, draft: AnnotationDraft, id: string, now: int)
    requires UniqueIds(list) && !HasId(list, id)
    ensures UniqueIds(list + [NewAnnotation(draft, id, now)])
  {
    var r := list + [NewAnnotation(draft, id, now)];
    forall i, j | 0 <= i < j < |r| ensures r[i].id != r[j].id {
      if j == |list| {
        assert list[i].id != id;
      }
    }
  }

  /** Deleting keeps ids unique. */
  lemma {:induction false} DeleteKeepsUnique(list: seq<Annotation>, id: string)
    requires UniqueIds(list)
    ensures UniqueIds(WithoutId(list, id))
  {
    if list != [] {
      DeleteKeepsUnique(list[1..], id);
      WithoutIdMembers(list[1..], id);
      var rest := WithoutId(list[1..], id);
      if list[0].id != id {
        forall k | 0 <= k < |rest| ensures rest[k].id != list[0].id {
          assert rest[k] in list[1..];
          var m :| 0 <= m < |list[1..]| && list[1..][m] == rest[k];
          assert list[m + 1] == rest[k];
        }
      }
    }
  }
}
