/**
 * `AnnotationManager`: notes pinned on charts, kept by id in the order they
 * were first added; an annotation can be edited, hidden and shown again.
 */
module Annotations {
  import opened Base
  import Seqs
  import Sorting
  import Dict

  /** `Annotation`; `createdAt` is the clock reading at creation. */
  datatype Annotation = Annotation(
    author: string,
    text: string,
    chartId: string,
    xValue: Option<string>,
    yValue: Option<real>,
    annotationType: string,
    color: string,
    visible: bool,
    createdAt: int,
    annotationId: string)

  function AnnotationId(a: Annotation): string { a.annotationId }

  /**
   * `__post_init__`: an annotation created without an id gets `ann_`
   * followed by its creation timestamp, which the caller formats as `stamp`.
   */
  function WithDefaultId(a: Annotation, stamp: string): (r: Annotation)
    ensures r.annotationId != ""
    ensures r == a.(annotationId := r.annotationId)
    ensures a.annotationId != "" ==> r == a
    ensures a.annotationId == "" ==> r.annotationId == "ann_" + stamp
  {
    if a.annotationId == "" then a.(annotationId := "ann_" + stamp) else a
  }

  /** The `_annotations` dict: id to annotation. */
  type Store = seq<(string, Annotation)>

  /** What every operation keeps: ids unique, each annotation stored under its own id. */
  ghost predicate WellFormed(d: Store) {
    Dict.UniqueKeys(d) && Dict.KeyedBy(d, AnnotationId)
  }

  /** `add_annotation`: stored under its id, replacing one with the same id in place. */
  function Added(d: Store, a: Annotation): Store {
    Dict.Put(d, a.annotationId, a)
  }

  /** After adding, the id finds the annotation, other ids are untouched, and the count grows only for a new id. */
  lemma AddThenGet(d: Store, a: Annotation)
    requires WellFormed(d)
    ensures WellFormed(Added(d, a))
    ensures Dict.Get(Added(d, a), a.annotationId) == Some(a)
    ensures forall id | id != a.annotationId :: Dict.Get(Added(d, a), id) == Dict.Get(d, id)
    ensures |Added(d, a)| == if a.annotationId in Dict.Keys(d) then |d| else |d| + 1
  {
    var r := Dict.Put(d, a.annotationId, a);
    assert Added(d, a) == r;
    Dict.PutSpec(d, a.annotationId, a);
    Dict.PutKeyed(d, a.annotationId, a, AnnotationId);
  }

  function ShownOn(chartId: string): Annotation -> bool {
    (a: Annotation) => a.chartId == chartId && a.visible
  }

  /** Oldest first: `sorted(key=created_at)`, which keeps ties in dict order. */
  function OlderFirst(a: Annotation, b: Annotation): bool {
    a.createdAt <= b.createdAt
  }

  lemma OlderFirstTotalPreorder(s: seq<Annotation>)
    ensures Sorting.TotalPreorderOn(s, OlderFirst)
  {
  }

  /** `get_annotations`: the visible annotations of the chart, oldest first. */
  function GetAnnotations(d: Store, chartId: string): (r: seq<Annotation>)
    ensures multiset(r) == multiset(Seqs.Filter(Dict.Values(d), ShownOn(chartId)))
    ensures Sorting.Sorted(r, OlderFirst)
    ensures forall a :: a in r <==> a in Dict.Values(d) && a.chartId == chartId && a.visible
  {
    var s := Seqs.Filter(Dict.Values(d), ShownOn(chartId));
    assert forall a :: ShownOn(chartId)(a) <==> a.chartId == chartId && a.visible;
    OlderFirstTotalPreorder(s);
    Sorting.SortSorted(s, OlderFirst);
    var r := Sorting.Sort(s, OlderFirst);
    assert forall a :: a in r <==> a in multiset(s);
    r
  }

  /** The store after the annotation under `id`, if any, is replaced by `f` of itself. */
  function Changed(d: Store, id: string, f: Annotation -> Annotation): Store {
    match Dict.Get(d, id)
    case None => d
    case Some(a) => Dict.Put(d, id, f(a))
  }

  /**
   * A change that keeps the id touches only that annotation and keeps the
   * store's shape; an unknown id leaves the store as it was.
   */
  lemma ChangedSpec(d: Store, id: string, f: Annotation -> Annotation)
    requires WellFormed(d)
    requires forall a :: f(a).annotationId == a.annotationId
    ensures WellFormed(Changed(d, id, f))
    ensures Dict.Keys(Changed(d, id, f)) == Dict.Keys(d)
    ensures id !in Dict.Keys(d) ==> Changed(d, id, f) == d
    ensures id in Dict.Keys(d) ==> Dict.Get(Changed(d, id, f), id) == Some(f(Dict.Get(d, id).value))
    ensures forall other | other != id :: Dict.Get(Changed(d, id, f), other) == Dict.Get(d, other)
  {
    if id in Dict.Keys(d) {
      var a := Dict.Get(d, id).value;
      Dict.GetKeyed(d, id, AnnotationId);
      var b := f(a);
      assert AnnotationId(b) == id;
      assert Changed(d, id, f) == Dict.Put(d, id, b);
      Dict.PutSpec(d, id, b);
      Dict.PutKeyed(d, id, b, AnnotationId);
    } else {
      assert Dict.Get(d, id) == None;
    }
  }

  function WithText(text: string): Annotation -> Annotation {
    (a: Annotation) => a.(text := text)
  }

  /** `update_annotation`: only the text of that annotation changes. */
  function Updated(d: Store, id: string, text: string): Store {
    Changed(d, id, WithText(text))
  }

  /** Updating changes the annotation's text and nothing else; other annotations are untouched. */
  lemma UpdateChangesOnlyText(d: Store, id: string, text: string)
    requires WellFormed(d)
    ensures WellFormed(Updated(d, id, text))
    ensures id !in Dict.Keys(d) ==> Updated(d, id, text) == d
    ensures id in Dict.Keys(d) ==>
      Dict.Get(Updated(d, id, text), id) == Some(Dict.Get(d, id).value.(text := text))
    ensures forall other | other != id :: Dict.Get(Updated(d, id, text), other) == Dict.Get(d, other)
  {
    ChangedSpec(d, id, WithText(text));
  }

  function Flipped(a: Annotation): Annotation {
    a.(visible := !a.visible)
  }

  /** `toggle_visibility`: that annotation's visibility is inverted. */
  function Toggled(d: Store, id: string): Store {
    Changed(d, id, Flipped)
  }

  /** Toggling twice restores the store. */
  lemma ToggleTwice(d: Store, id: string)
    requires WellFormed(d)
    ensures Toggled(Toggled(d, id), id) == d
  {
    ChangedSpec(d, id, Flipped);
    if id in Dict.Keys(d) {
      var a := Dict.Get(d, id).value;
      Dict.PutPut(d, id, Flipped(a), Flipped(Flipped(a)));
      assert Flipped(Flipped(a)) == a;
      Dict.PutSame(d, id);
    }
  }

  function ByAuthorFilter(author: string): Annotation -> bool {
    (a: Annotation) => a.author == author
  }

  /** `get_by_author`: exactly that author's annotations, in dict order. */
  function ByAuthor(d: Store, author: string): (r: seq<Annotation>)
    ensures Seqs.IsSubsequence(r, Dict.Values(d))
    ensures forall a :: a in r <==> a in Dict.Values(d) && a.author == author
  {
    Seqs.FilterIsSubsequence(Dict.Values(d), ByAuthorFilter(author));
    Seqs.Filter(Dict.Values(d), ByAuthorFilter(author))
  }

  /** `AnnotationManager` */
  class AnnotationManager {
    var annotations: Store

    ghost predicate Valid()
      reads this
    {
      WellFormed(annotations)
    }

    constructor()
      ensures Valid() && annotations == []
    {
      annotations := [];
    }

    /** `add_annotation`: returns the id the annotation is stored under. */
    method AddAnnotation(a: Annotation) returns (id: string)
      requires Valid()
      modifies this
      ensures Valid()
      ensures id == a.annotationId
      ensures annotations == Added(old(annotations), a)
    {
      AddThenGet(annotations, a);
      annotations := Dict.Put(annotations, a.annotationId, a);
      id := a.annotationId;
    }

    function GetAnnotationsFor(chartId: string): seq<Annotation>
      reads this
    {
      GetAnnotations(annotations, chartId)
    }

    /** `update_annotation`: succeeds exactly for a stored id. */
    method UpdateAnnotation(id: string, text: string) returns (ok: bool)
      requires Valid()
      modifies this
      ensures Valid()
      ensures ok <==> id in Dict.Keys(old(annotations))
      ensures annotations == Updated(old(annotations), id, text)
    {
      UpdateChangesOnlyText(annotations, id, text);
      var found := Dict.Get(annotations, id);
      if found.Some? {
        annotations := Dict.Put(annotations, id, found.value.(text := text));
        return true;
      }
      return false;
    }

    /** `delete_annotation`: succeeds and removes the annotation exactly for a stored id. */
    method DeleteAnnotation(id: string) returns (ok: bool)
      requires Valid()
      modifies this
      ensures Valid()
      ensures ok <==> id in Dict.Keys(old(annotations))
      ensures annotations == Dict.Delete(old(annotations), id)
      ensures ok ==> |annotations| == |old(annotations)| - 1 && Dict.Get(annotations, id) == None
    {
      Dict.DeleteKeyed(annotations, id, AnnotationId);
      if id in Dict.Keys(annotations) {
        annotations := Dict.Delete(annotations, id);
        return true;
      }
      return false;
    }

    /** `toggle_visibility`: succeeds exactly for a stored id. */
    method ToggleVisibility(id: string) returns (ok: bool)
      requires Valid()
      modifies this
      ensures Valid()
      ensures ok <==> id in Dict.Keys(old(annotations))
      ensures annotations == Toggled(old(annotations), id)
    {
      ChangedSpec(annotations, id, Flipped);
      var found := Dict.Get(annotations, id);
      if found.Some? {
        annotations := Dict.Put(annotations, id, found.value.(visible := !found.value.visible));
        return true;
      }
      return false;
    }

    function GetByAuthor(author: string): seq<Annotation>
      reads this
    {
      ByAuthor(annotations, author)
    }

    function TotalAnnotations(): nat
      reads this
    {
      |annotations|
    }
  }
}
