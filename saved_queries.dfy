/** `SavedQueryManager`: queries saved by name, in the order they were first saved. */
module SavedQueries {
  import opened Base
  import Text
  import Seqs
  import Sorting
  import Dict

  /** `created_at` and `updated_at` are ISO-8601 texts; they are compared as strings. */
  datatype SavedQuery = SavedQuery(
    name: string,
    query: string,
    description: string,
    category: string,
    createdAt: string,
    updatedAt: string,
    author: Option<string>,
    tags: seq<string>,
    isPublic: bool)

  /** The `_queries` dict: name to query. */
  type Store = seq<(string, SavedQuery)>

  /** What every operation keeps: names unique, each query stored under its own name. */
  ghost predicate WellFormed(d: Store) {
    Dict.UniqueKeys(d) && forall i | 0 <= i < |d| :: d[i].0 == d[i].1.name
  }

  /** `save_query`: an existing name gets its `updated_at` refreshed to `now`, then the query is stored under its name. */
  function Saved(d: Store, q: SavedQuery, now: string): Store {
    Dict.Put(d, q.name, if q.name in Dict.Keys(d) then q.(updatedAt := now) else q)
  }

  /**
   * After saving, looking the name up gives the saved query (refreshed when it
   * overwrote one); other names are untouched; the count grows only for a new name.
   */
  lemma SaveThenGet(d: Store, q: SavedQuery, now: string)
    requires WellFormed(d)
    ensures WellFormed(Saved(d, q, now))
    ensures Dict.Get(Saved(d, q, now), q.name) == Some(if q.name in Dict.Keys(d) then q.(updatedAt := now) else q)
    ensures forall n | n != q.name :: Dict.Get(Saved(d, q, now), n) == Dict.Get(d, n)
    ensures |Saved(d, q, now)| == if q.name in Dict.Keys(d) then |d| else |d| + 1
  {
    var v := if q.name in Dict.Keys(d) then q.(updatedAt := now) else q;
    var r := Saved(d, q, now);
    Dict.PutSpec(d, q.name, v);
    Dict.PutUnique(d, q.name, v);
    forall i | 0 <= i < |r| ensures r[i].0 == r[i].1.name {
      Dict.GetAt(r, i);
      if r[i].0 != q.name {
        var j :| 0 <= j < |d| && d[j] == (r[i].0, r[i].1) by {
          assert (r[i].0, r[i].1) in d;
        }
      }
    }
  }

  /** `delete_query` keeps the store well formed. */
  lemma DeleteKeepsWellFormed(d: Store, name: string)
    requires WellFormed(d)
    ensures WellFormed(Dict.Delete(d, name))
  {
    Dict.DeleteUnique(d, name);
    var r := Dict.Delete(d, name);
    forall i | 0 <= i < |r| ensures r[i].0 == r[i].1.name {
      assert r[i] in d;
    }
  }

  predicate InCategory(category: string, q: SavedQuery) {
    q.category == category
  }

  /** The queries `list_queries` returns before sorting: all, or one category when it is non-empty. */
  function Listed(d: Store, category: Option<string>): seq<SavedQuery> {
    var all := Dict.Values(d);
    if category.Some? && category.value != "" then Seqs.Filter(all, q => InCategory(category.value, q)) else all
  }

  /** The queries before sorting are the stored ones, of the category when one is asked for. */
  lemma ListedMembers(d: Store, category: Option<string>)
    ensures forall q :: q in Listed(d, category) <==>
      q in Dict.Values(d) && (category == None || category == Some("") || q.category == category.value)
  {
    if category.Some? && category.value != "" {
      var p := (q: SavedQuery) => InCategory(category.value, q);
      assert Listed(d, category) == Seqs.Filter(Dict.Values(d), p);
      forall q ensures q in Listed(d, category) <==> q in Dict.Values(d) && q.category == category.value {
        assert p(q) == (q.category == category.value);
      }
    }
  }

  /** Newer first: `sorted(key=updated_at, reverse=True)`, which keeps ties in dict order. */
  function NewerFirst(a: SavedQuery, b: SavedQuery): bool {
    !Text.StrLt(a.updatedAt, b.updatedAt)
  }

  lemma NewerFirstTotalPreorder(s: seq<SavedQuery>)
    ensures Sorting.TotalPreorderOn(s, NewerFirst)
  {
    forall a, b | a in s && b in s ensures NewerFirst(a, b) || NewerFirst(b, a) {
      Text.StrLeTotal(a.updatedAt, b.updatedAt);
    }
    forall a, b, c | a in s && b in s && c in s && NewerFirst(a, b) && NewerFirst(b, c)
      ensures NewerFirst(a, c)
    {
      Text.StrLeTransitive(c.updatedAt, b.updatedAt, a.updatedAt);
    }
  }

  /** `list_queries`: the listed queries, each once, most recently updated first. */
  function ListQueries(d: Store, category: Option<string>): (r: seq<SavedQuery>)
    ensures multiset(r) == multiset(Listed(d, category))
    ensures Sorting.Sorted(r, NewerFirst)
    ensures forall q :: q in r <==>
      q in Dict.Values(d) && (category == None || category == Some("") || q.category == category.value)
  {
    var s := Listed(d, category);
    ListedMembers(d, category);
    NewerFirstTotalPreorder(s);
    Sorting.SortSorted(s, NewerFirst);
    var r := Sorting.Sort(s, NewerFirst);
    assert forall q :: q in r <==> q in multiset(s);
    r
  }

  predicate Mentions(q: SavedQuery, term: string) {
    var t := Text.Lower(term);
    Text.Contains(Text.Lower(q.name), t) || Text.Contains(Text.Lower(q.description), t)
    || Text.Contains(Text.Lower(q.query), t)
  }

  /** `search`: the queries whose name, description or text contains the term, ignoring case, in dict order. */
  function Search(d: Store, term: string): (r: seq<SavedQuery>)
    ensures Seqs.IsSubsequence(r, Dict.Values(d))
    ensures forall q :: q in r <==> q in Dict.Values(d) && Mentions(q, term)
  {
    Seqs.FilterIsSubsequence(Dict.Values(d), q => Mentions(q, term));
    Seqs.Filter(Dict.Values(d), q => Mentions(q, term))
  }

  predicate NoDuplicates<T(==)>(s: seq<T>) {
    forall i, j | 0 <= i < j < |s| :: s[i] != s[j]
  }

  /** `set(s)`, kept in first-seen order. */
  function Distinct<T(==,!new)>(s: seq<T>): (r: seq<T>)
    ensures NoDuplicates(r)
    ensures forall x :: x in r <==> x in s
  {
    if s == [] then []
    else
      var t := Distinct(s[..|s| - 1]);
      var x := s[|s| - 1];
      assert forall y :: y in s <==> y in s[..|s| - 1] || y == x;
      if x in t then t else t + [x]
  }

  /** A sequence that holds some value twice counts it twice. */
  lemma DuplicateCount<T>(s: seq<T>, i: nat, j: nat)
    requires i < j < |s| && s[i] == s[j]
    ensures multiset(s)[s[i]] >= 2
  {
    assert s == s[..j] + s[j..];
    assert s[i] in s[..j];
    assert s[j] in s[j..];
  }

  /** Python's `<=` on strings as a "may come before" relation. */
  function StrLe(a: string, b: string): bool {
    !Text.StrLt(b, a)
  }

  /** The category of every stored query, in dict order. */
  function CategoryList(d: Store): (r: seq<string>)
    ensures forall c :: c in r <==> exists q | q in Dict.Values(d) :: q.category == c
  {
    var values := Dict.Values(d);
    var cats := seq(|values|, i requires 0 <= i < |values| => values[i].category);
    forall c | c in cats ensures exists q | q in values :: q.category == c {
      var k :| 0 <= k < |cats| && cats[k] == c;
      assert values[k] in values;
    }
    forall c | (exists q | q in values :: q.category == c) ensures c in cats {
      var q :| q in values && q.category == c;
      var k :| 0 <= k < |values| && values[k] == q;
      assert cats[k] == c;
    }
    cats
  }

  /** Sorting distinct strings gives a strictly increasing sequence of the same strings. */
  lemma SortDistinctStrings(u: seq<string>)
    requires NoDuplicates(u)
    ensures forall i, j | 0 <= i < j < |Sorting.Sort(u, StrLe)| ::
      Text.StrLt(Sorting.Sort(u, StrLe)[i], Sorting.Sort(u, StrLe)[j])
    ensures forall c :: c in Sorting.Sort(u, StrLe) <==> c in u
  {
    forall a, b | a in u && b in u ensures StrLe(a, b) || StrLe(b, a) {
      Text.StrLeTotal(a, b);
    }
    forall a, b, c | a in u && b in u && c in u && StrLe(a, b) && StrLe(b, c) ensures StrLe(a, c) {
      Text.StrLeTransitive(a, b, c);
    }
    Sorting.SortSorted(u, StrLe);
    var r := Sorting.Sort(u, StrLe);
    forall i, j | 0 <= i < j < |r| ensures Text.StrLt(r[i], r[j]) {
      if r[i] == r[j] {
        DuplicateCount(r, i, j);
        UniqueCount(u, r[i]);
      }
      Text.StrLtTotal(r[i], r[j]);
    }
    assert forall c :: c in r <==> c in multiset(u);
  }

  /** `get_categories`: `sorted(set(...))`. */
  function Categories(d: Store): (r: seq<string>)
    ensures forall i, j | 0 <= i < j < |r| :: Text.StrLt(r[i], r[j])
    ensures forall c :: c in r <==> exists q | q in Dict.Values(d) :: q.category == c
  {
    var u := Distinct(CategoryList(d));
    SortDistinctStrings(u);
    Sorting.Sort(u, StrLe)
  }

  /** A sequence without duplicates counts each value at most once. */
  lemma {:induction false} UniqueCount<T>(s: seq<T>, x: T)
    requires NoDuplicates(s)
    ensures multiset(s)[x] <= 1
  {
    if s != [] {
      assert s == [s[0]] + s[1..];
      UniqueCount(s[1..], x);
      if x == s[0] {
        assert x !in s[1..];
      }
    }
  }

  class SavedQueryManager {
    var queries: Store

    ghost predicate Valid()
      reads this
    {
      WellFormed(queries)
    }

    /** A manager with nothing loaded from storage. */
    constructor()
      ensures Valid() && queries == []
    {
      queries := [];
    }

    /** `save_query`, with `now` the clock reading in ISO-8601; it always reports success. */
    method SaveQuery(q: SavedQuery, now: string) returns (ok: bool)
      requires Valid()
      modifies this
      ensures Valid()
      ensures ok
      ensures queries == Saved(old(queries), q, now)
    {
      var stored := q;
      if q.name in Dict.Keys(queries) {
        stored := q.(updatedAt := now);
      }
      SaveThenGet(queries, q, now);
      queries := Dict.Put(queries, q.name, stored);
      ok := true;
    }

    function GetQuery(name: string): Option<SavedQuery>
      reads this
    {
      Dict.Get(queries, name)
    }

    method DeleteQuery(name: string) returns (ok: bool)
      requires Valid()
      modifies this
      ensures Valid()
      ensures ok <==> name in Dict.Keys(old(queries))
      ensures queries == Dict.Delete(old(queries), name)
      ensures ok ==> |queries| == |old(queries)| - 1 && Dict.Get(queries, name) == None
    {
      DeleteKeepsWellFormed(queries, name);
      if name in Dict.Keys(queries) {
        queries := Dict.Delete(queries, name);
        return true;
      }
      return false;
    }

    function Count(): nat
      reads this
    {
      |queries|
    }
  }
}
