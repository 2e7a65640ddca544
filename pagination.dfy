/**
 * The page arithmetic shared by the paginated loader and the data table:
 * `total_pages = max(1, (n - 1) // page_size + 1)` and page `p` holding rows
 * `[(p - 1) * page_size, p * page_size)` of the list. For a positive page
 * size Python's floor division and Dafny's `/` agree, also on `-1`.
 */
module Pagination {
  import Seqs

  /** The number of pages: ceil(n / pageSize), and one page for no rows. */
  function TotalPages(n: nat, pageSize: int): (t: int)
    requires pageSize >= 1
    ensures t >= 1
    ensures n == 0 ==> t == 1
    ensures n >= 1 ==> (t - 1) * pageSize < n <= t * pageSize
  {
    var q := (n - 1) / pageSize;
    assert n - 1 == q * pageSize + (n - 1) % pageSize;
    if q + 1 > 1 then q + 1 else 1
  }

  /** `rows[start:start + page_size]` with `start = (page - 1) * page_size`. */
  function PageRows<T>(rows: seq<T>, pageSize: int, page: int): seq<T> {
    var start := (page - 1) * pageSize;
    Seqs.PySlice(rows, start, start + pageSize)
  }

  function Min(a: int, b: int): int { if a <= b then a else b }

  /**
   * Page `page >= 1` is the stretch of rows from `(page - 1) * pageSize` to
   * `page * pageSize`, clipped to the list; so it holds at most `pageSize` rows.
   */
  lemma PageRowsSpec<T>(rows: seq<T>, pageSize: int, page: int)
    requires pageSize >= 1 && page >= 1
    ensures 0 <= (page - 1) * pageSize <= page * pageSize
    ensures PageRows(rows, pageSize, page)
         == rows[Min((page - 1) * pageSize, |rows|)..Min(page * pageSize, |rows|)]
    ensures |PageRows(rows, pageSize, page)| <= pageSize
  {
    var start := (page - 1) * pageSize;
    assert start + pageSize == page * pageSize;
    assert 0 <= start by {
      assert page - 1 >= 0;
    }
  }

  /** Every page from 1 to the last one holds at least one row when there are rows. */
  lemma PagesNonEmpty<T>(rows: seq<T>, pageSize: int, page: int)
    requires pageSize >= 1 && 1 <= page <= TotalPages(|rows|, pageSize) && |rows| >= 1
    ensures |PageRows(rows, pageSize, page)| >= 1
  {
    PageRowsSpec(rows, pageSize, page);
    var t := TotalPages(|rows|, pageSize);
    MulMonotone(page - 1, t - 1, pageSize);
  }

  /** Multiplying by a non-negative factor keeps the order. */
  lemma MulMonotone(a: int, b: int, c: int)
    requires a <= b && c >= 0
    ensures a * c <= b * c
  {
    assert b * c - a * c == (b - a) * c;
  }

  /** Pages 1 to `k`, one after the other. */
  function PagesUpTo<T>(rows: seq<T>, pageSize: int, k: nat): seq<T> {
    if k == 0 then [] else PagesUpTo(rows, pageSize, k - 1) + PageRows(rows, pageSize, k)
  }

  lemma {:induction false} PagesUpToPrefix<T>(rows: seq<T>, pageSize: int, k: nat)
    requires pageSize >= 1
    ensures 0 <= k * pageSize
    ensures PagesUpTo(rows, pageSize, k) == rows[..Min(k * pageSize, |rows|)]
  {
    if k > 0 {
      PagesUpToPrefix(rows, pageSize, k - 1);
      PageRowsSpec(rows, pageSize, k);
      assert (k - 1) * pageSize + pageSize == k * pageSize;
      var a, b := Min((k - 1) * pageSize, |rows|), Min(k * pageSize, |rows|);
      assert rows[..a] + rows[a..b] == rows[..b];
    }
  }

  /**
   * Laid end to end, pages 1 to `total_pages` give back every row once and in
   * order: the pages are disjoint and cover the list.
   */
  lemma PagesCover<T>(rows: seq<T>, pageSize: int)
    requires pageSize >= 1
    ensures PagesUpTo(rows, pageSize, TotalPages(|rows|, pageSize)) == rows
  {
    var t := TotalPages(|rows|, pageSize);
    PagesUpToPrefix(rows, pageSize, t);
    assert |rows| <= t * pageSize;
  }
}
