/**
 * `CommentManager`: comments on dashboard elements, kept by id in the order
 * they were first added; a comment may answer another one (`parentId`) and
 * may be marked resolved. Times are clock readings passed in as integers.
 */
module Comments {
  import opened Base
  import Seqs
  import Sorting
  import Dict

  /** `Comment` */
  datatype Comment = Comment(
    author: string,
    content: string,
    targetType: string,
    targetId: string,
    createdAt: int,
    updatedAt: Option<int>,
    resolved: bool,
    parentId: Option<string>,
    commentId: string)

  function CommentId(c: Comment): string { c.commentId }

  /**
   * `__post_init__`: a comment created without an id gets `cmt_` followed by
   * its creation timestamp, which the caller formats and passes as `stamp`.
   */
  function WithDefaultId(c: Comment, stamp: string): (r: Comment)
    ensures r.commentId != ""
    ensures r == c.(commentId := r.commentId)
    ensures c.commentId != "" ==> r == c
    ensures c.commentId == "" ==> r.commentId == "cmt_" + stamp
  {
    if c.commentId == "" then c.(commentId := "cmt_" + stamp) else c
  }

  /** The `_comments` dict: id to comment. */
  type Store = seq<(string, Comment)>

  /** What every operation keeps: ids unique, each comment stored under its own id. */
  ghost predicate WellFormed(d: Store) {
    Dict.UniqueKeys(d) && Dict.KeyedBy(d, CommentId)
  }

  /** `add_comment`: stored under its id, replacing a comment with the same id in place. */
  function Added(d: Store, c: Comment): Store {
    Dict.Put(d, c.commentId, c)
  }

  /** After adding, the id finds the comment, other ids are untouched, and the count grows only for a new id. */
  lemma AddThenGet(d: Store, c: Comment)
    requires WellFormed(d)
    ensures WellFormed(Added(d, c))
    ensures Dict.Get(Added(d, c), c.commentId) == Some(c)
    ensures forall id | id != c.commentId :: Dict.Get(Added(d, c), id) == Dict.Get(d, id)
    ensures |Added(d, c)| == if c.commentId in Dict.Keys(d) then |d| else |d| + 1
  {
    var r := Dict.Put(d, c.commentId, c);
    assert Added(d, c) == r;
    Dict.PutSpec(d, c.commentId, c);
    Dict.PutKeyed(d, c.commentId, c, CommentId);
  }

  function OnTarget(targetType: string, targetId: string): Comment -> bool {
    (c: Comment) => c.targetType == targetType && c.targetId == targetId
  }

  predicate Unresolved(c: Comment) { !c.resolved }

  predicate IsResolved(c: Comment) { c.resolved }

  /** The comments `get_comments` returns before sorting, in dict order. */
  function OnTargetList(d: Store, targetType: string, targetId: string, includeResolved: bool): (r: seq<Comment>)
    ensures forall c :: c in r <==>
      c in Dict.Values(d) && c.targetType == targetType && c.targetId == targetId && (includeResolved || !c.resolved)
  {
    var p := OnTarget(targetType, targetId);
    var on := Seqs.Filter(Dict.Values(d), p);
    assert forall c :: p(c) <==> c.targetType == targetType && c.targetId == targetId;
    if includeResolved then on else Seqs.Filter(on, Unresolved)
  }

  /** Oldest first: `sorted(key=created_at)`, which keeps ties in dict order. */
  function OlderFirst(a: Comment, b: Comment): bool {
    a.createdAt <= b.createdAt
  }

  lemma OlderFirstTotalPreorder(s: seq<Comment>)
    ensures Sorting.TotalPreorderOn(s, OlderFirst)
  {
  }

  /** `get_comments`: the comments on the target, resolved ones only on request, oldest first. */
  function GetComments(d: Store, targetType: string, targetId: string, includeResolved: bool): (r: seq<Comment>)
    ensures multiset(r) == multiset(OnTargetList(d, targetType, targetId, includeResolved))
    ensures Sorting.Sorted(r, OlderFirst)
    ensures forall c :: c in r <==>
      c in Dict.Values(d) && c.targetType == targetType && c.targetId == targetId && (includeResolved || !c.resolved)
  {
    var s := OnTargetList(d, targetType, targetId, includeResolved);
    OlderFirstTotalPreorder(s);
    Sorting.SortSorted(s, OlderFirst);
    var r := Sorting.Sort(s, OlderFirst);
    assert forall c :: c in r <==> c in multiset(s);
    r
  }

  /** `resolve_comment` at time `now`: the comment, if present, is marked resolved and stamped. */
  function Resolved(d: Store, id: string, now: int): Store {
    match Dict.Get(d, id)
    case None => d
    case Some(c) => Dict.Put(d, id, c.(resolved := true, updatedAt := Some(now)))
  }

  /**
   * Resolving marks exactly that comment, changes nothing else and keeps the
   * store's shape; an unknown id leaves the store as it was.
   */
  lemma ResolveSpec(d: Store, id: string, now: int)
    requires WellFormed(d)
    ensures WellFormed(Resolved(d, id, now))
    ensures Dict.Keys(Resolved(d, id, now)) == Dict.Keys(d)
    ensures id !in Dict.Keys(d) ==> Resolved(d, id, now) == d
    ensures id in Dict.Keys(d) ==>
      Dict.Get(Resolved(d, id, now), id) == Some(Dict.Get(d, id).value.(resolved := true, updatedAt := Some(now)))
    ensures forall other | other != id :: Dict.Get(Resolved(d, id, now), other) == Dict.Get(d, other)
  {
    if id in Dict.Keys(d) {
      var c := Dict.Get(d, id).value;
      Dict.GetKeyed(d, id, CommentId);
      var c' := c.(resolved := true, updatedAt := Some(now));
      assert Resolved(d, id, now) == Dict.Put(d, id, c');
      Dict.PutSpec(d, id, c');
      Dict.PutKeyed(d, id, c', CommentId);
    } else {
      assert Dict.Get(d, id) == None;
    }
  }

  /** Resolving twice is resolving once, at the later time: the comment stays resolved. */
  lemma ResolveTwice(d: Store, id: string, t1: int, t2: int)
    requires WellFormed(d)
    ensures Resolved(Resolved(d, id, t1), id, t2) == Resolved(d, id, t2)
  {
    ResolveSpec(d, id, t1);
    if id in Dict.Keys(d) {
      var c := Dict.Get(d, id).value;
      Dict.PutPut(d, id, c.(resolved := true, updatedAt := Some(t1)), c.(resolved := true, updatedAt := Some(t2)));
    }
  }

  function ReplyTo(parentId: string): Comment -> bool {
    (c: Comment) => c.parentId == Some(parentId)
  }

  /** `get_thread`: nothing for an unknown parent, else the parent and then its direct replies, oldest first. */
  function Thread(d: Store, parentId: string): (r: seq<Comment>)
    ensures Dict.Get(d, parentId).None? ==> r == []
    ensures Dict.Get(d, parentId).Some? ==> |r| >= 1 && r[0] == Dict.Get(d, parentId).value
    ensures Dict.Get(d, parentId).Some? ==>
      && multiset(r[1..]) == multiset(Seqs.Filter(Dict.Values(d), ReplyTo(parentId)))
      && Sorting.Sorted(r[1..], OlderFirst)
  {
    match Dict.Get(d, parentId)
    case None => []
    case Some(parent) =>
      var replies := Seqs.Filter(Dict.Values(d), ReplyTo(parentId));
      OlderFirstTotalPreorder(replies);
      Sorting.SortSorted(replies, OlderFirst);
      var r := [parent] + Sorting.Sort(replies, OlderFirst);
      assert r[1..] == Sorting.Sort(replies, OlderFirst);
      r
  }

  /** `get_unresolved_count` */
  function UnresolvedCount(d: Store): (n: nat)
    ensures n <= |d|
  {
    Seqs.Count(Dict.Values(d), Unresolved)
  }

  /** Unresolved and resolved comments together are all the comments. */
  lemma UnresolvedPlusResolved(d: Store)
    ensures UnresolvedCount(d) + Seqs.Count(Dict.Values(d), IsResolved) == |d|
  {
    Seqs.CountSplit(Dict.Values(d), Unresolved, IsResolved);
  }

  /** `CommentManager` */
  class CommentManager {
    var comments: Store

    ghost predicate Valid()
      reads this
    {
      WellFormed(comments)
    }

    constructor()
      ensures Valid() && comments == []
    {
      comments := [];
    }

    /** `add_comment`: returns the id the comment is stored under. */
    method AddComment(c: Comment) returns (id: string)
      requires Valid()
      modifies this
      ensures Valid()
      ensures id == c.commentId
      ensures comments == Added(old(comments), c)
    {
      AddThenGet(comments, c);
      comments := Dict.Put(comments, c.commentId, c);
      id := c.commentId;
    }

    function GetCommentsFor(targetType: string, targetId: string, includeResolved: bool): seq<Comment>
      reads this
    {
      GetComments(comments, targetType, targetId, includeResolved)
    }

    /** `resolve_comment`: succeeds exactly for a stored id. */
    method ResolveComment(id: string, now: int) returns (ok: bool)
      requires Valid()
      modifies this
      ensures Valid()
      ensures ok <==> id in Dict.Keys(old(comments))
      ensures comments == Resolved(old(comments), id, now)
    {
      ResolveSpec(comments, id, now);
      var found := Dict.Get(comments, id);
      if found.Some? {
        comments := Dict.Put(comments, id, found.value.(resolved := true, updatedAt := Some(now)));
        return true;
      }
      return false;
    }

    /** `delete_comment`: succeeds and removes the comment exactly for a stored id. */
    method DeleteComment(id: string) returns (ok: bool)
      requires Valid()
      modifies this
      ensures Valid()
      ensures ok <==> id in Dict.Keys(old(comments))
      ensures comments == Dict.Delete(old(comments), id)
      ensures ok ==> |comments| == |old(comments)| - 1 && Dict.Get(comments, id) == None
    {
      Dict.DeleteKeyed(comments, id, CommentId);
      if id in Dict.Keys(comments) {
        comments := Dict.Delete(comments, id);
        return true;
      }
      return false;
    }

    function GetThread(parentId: string): seq<Comment>
      reads this
    {
      Thread(comments, parentId)
    }

    function GetUnresolvedCount(): nat
      reads this
    {
      UnresolvedCount(comments)
    }

    function TotalComments(): nat
      reads this
    {
      |comments|
    }
  }
}
