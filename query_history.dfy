/** `QueryHistory`: a bounded log of executed queries, oldest first. */
module History {
  import opened Base
  import Text
  import Seqs

  /** `executed_at` is a clock reading, given by the caller. */
  datatype QueryRecord = QueryRecord(
    query: string,
    executedAt: int,
    executionTimeMs: real,
    rowsReturned: int,
    status: string,
    errorMessage: Option<string>,
    user: Option<string>)
  {
    predicate IsSuccess() {
      status == "success"
    }
  }

  /**
   * The history after `add`: the record goes last, then, past `max_entries`,
   * only the last `max_entries` records are kept (`[-0:]` keeps all of them).
   */
  function Added(h: seq<QueryRecord>, record: QueryRecord, maxEntries: int): (r: seq<QueryRecord>)
    ensures |r| <= |h| + 1 && r == (h + [record])[|h| + 1 - |r|..]
    ensures maxEntries >= 1 ==> |r| == if |h| + 1 <= maxEntries then |h| + 1 else maxEntries
    ensures maxEntries >= 1 || maxEntries == 0 ==> r != [] && r[|r| - 1] == record
    ensures maxEntries == 0 ==> r == h + [record]
  {
    var all := h + [record];
    if |all| > maxEntries then Seqs.PySlice(all, -maxEntries, |all|) else all
  }

  /** `get_recent(count)`: the last `count` records, newest first; `count == 0` gives all of them. */
  function Recent(h: seq<QueryRecord>, count: int): (r: seq<QueryRecord>)
    ensures |r| <= |h|
    ensures count >= 1 ==> |r| == if count <= |h| then count else |h|
    ensures count >= 1 || count == 0 ==> forall i | 0 <= i < |r| :: r[i] == h[|h| - 1 - i]
    ensures count == 0 ==> |r| == |h|
  {
    Seqs.Reverse(Seqs.PySlice(h, -count, |h|))
  }

  /** `get_by_user` */
  function ByUser(h: seq<QueryRecord>, user: string): (r: seq<QueryRecord>)
    ensures Seqs.IsSubsequence(r, h)
    ensures forall x :: x in r <==> x in h && x.user == Some(user)
  {
    Seqs.FilterIsSubsequence(h, (x: QueryRecord) => x.user == Some(user));
    Seqs.Filter(h, (x: QueryRecord) => x.user == Some(user))
  }

  predicate Unsuccessful(x: QueryRecord) {
    !x.IsSuccess()
  }

  predicate Successful(x: QueryRecord) {
    x.IsSuccess()
  }

  /** `get_failed` */
  function Failed(h: seq<QueryRecord>): (r: seq<QueryRecord>)
    ensures Seqs.IsSubsequence(r, h)
    ensures forall x :: x in r <==> x in h && !x.IsSuccess()
  {
    Seqs.FilterIsSubsequence(h, Unsuccessful);
    Seqs.Filter(h, Unsuccessful)
  }

  predicate Matches(x: QueryRecord, term: string) {
    Text.Contains(Text.Lower(x.query), Text.Lower(term))
  }

  /** `search`: a case-insensitive substring test on the query text. */
  function Search(h: seq<QueryRecord>, term: string): (r: seq<QueryRecord>)
    ensures Seqs.IsSubsequence(r, h)
    ensures forall x :: x in r <==> x in h && Matches(x, term)
  {
    Seqs.FilterIsSubsequence(h, (x: QueryRecord) => Matches(x, term));
    Seqs.Filter(h, (x: QueryRecord) => Matches(x, term))
  }

  /** Upper-casing the search term finds the same records. */
  lemma SearchIgnoresCase(h: seq<QueryRecord>, term: string)
    ensures Search(h, Text.Upper(term)) == Search(h, term)
  {
    assert Text.Lower(Text.Upper(term)) == Text.Lower(term);
    Seqs.FilterSame(h, (x: QueryRecord) => Matches(x, Text.Upper(term)), (x: QueryRecord) => Matches(x, term));
  }

  /** An empty term matches every record. */
  lemma SearchEmptyTerm(h: seq<QueryRecord>)
    ensures Search(h, "") == h
  {
    forall x | x in h ensures Matches(x, "") {
      assert Text.OccursAt(Text.Lower(x.query), "", 0);
    }
    Seqs.FilterAll(h, (x: QueryRecord) => Matches(x, ""));
  }

  /** The `get_stats` dict, before rounding. */
  datatype HistoryStats = HistoryStats(
    totalQueries: nat, successRate: real, avgExecutionTimeMs: real, totalRowsReturned: int)

  function Times(h: seq<QueryRecord>): seq<real> {
    seq(|h|, i requires 0 <= i < |h| => h[i].executionTimeMs)
  }

  function Rows(h: seq<QueryRecord>): seq<int> {
    seq(|h|, i requires 0 <= i < |h| => h[i].rowsReturned)
  }

  /**
   * `get_stats`: all zeros for an empty history; otherwise the size, the row
   * total, the average time and the share of records that did not fail, as a
   * percentage.
   */
  function Stats(h: seq<QueryRecord>): (s: HistoryStats)
    ensures h == [] ==> s == HistoryStats(0, 0.0, 0.0, 0)
    ensures s.totalQueries == |h|
    ensures s.totalRowsReturned == Seqs.SumInt(Rows(h))
    ensures 0.0 <= s.successRate <= 100.0
    ensures h != [] ==> (s.successRate == 100.0 <==> Failed(h) == [])
    ensures h != [] ==> (s.successRate == 0.0 <==> |Failed(h)| == |h|)
    ensures h != [] ==> s.successRate == Percentage(|h| - |Failed(h)|, |h|)
    ensures h != [] ==> s.avgExecutionTimeMs == Mean(Seqs.SumReal(Times(h)), |h|)
  {
    if h == [] then HistoryStats(0, 0.0, 0.0, 0)
    else
      Seqs.CountSplit(h, Successful, Unsuccessful);
      var k := Seqs.Count(h, Successful);
      assert k == |h| - |Failed(h)|;
      HistoryStats(|h|, Percentage(k, |h|), Mean(Seqs.SumReal(Times(h)), |h|), Seqs.SumInt(Rows(h)))
  }

  /** `k / n * 100`: the share of `k` in `n` as a percentage. */
  function Percentage(k: nat, n: nat): (p: real)
    requires 0 < n && k <= n
    ensures 0.0 <= p <= 100.0
    ensures p == 100.0 <==> k == n
    ensures p == 0.0 <==> k == 0
    ensures p * (n as real) == (k as real) * 100.0
  {
    RateBounds(k, n);
    RateScales(k, n);
    (k as real) / (n as real) * 100.0
  }

  /** `total / n`: the average of `n` values whose sum is `total`. */
  function Mean(total: real, n: nat): (m: real)
    requires 0 < n
    ensures m * (n as real) == total
  {
    MeanScales(total, n);
    total / (n as real)
  }

  /** `k / n * 100` is a percentage, 100 exactly when `k == n` and 0 exactly when `k == 0`. */
  lemma RateBounds(k: nat, n: nat)
    requires 0 < n && k <= n
    ensures 0.0 <= (k as real) / (n as real) * 100.0 <= 100.0
    ensures (k as real) / (n as real) * 100.0 == 100.0 <==> k == n
    ensures (k as real) / (n as real) * 100.0 == 0.0 <==> k == 0
  {
    var q := (k as real) / (n as real);
    assert q * (n as real) == k as real;
    assert q <= 1.0;
    if q * 100.0 == 100.0 {
      assert q == 1.0;
    }
  }

  /** The percentage times the number of records is a hundred times the successes. */
  lemma RateScales(k: nat, n: nat)
    requires 0 < n
    ensures (k as real) / (n as real) * 100.0 * (n as real) == (k as real) * 100.0
  {
  }

  /** An average times the number of values is their total. */
  lemma MeanScales(total: real, n: nat)
    requires 0 < n
    ensures total / (n as real) * (n as real) == total
  {
  }

  class QueryHistory {
    const maxEntries: int
    /** `_history`, oldest first. */
    var history: seq<QueryRecord>

    ghost predicate Valid()
      reads this
    {
      maxEntries >= 1 ==> |history| <= maxEntries
    }

    constructor(maxEntries: int)
      ensures Valid() && this.maxEntries == maxEntries && history == []
    {
      this.maxEntries := maxEntries;
      history := [];
    }

    method Add(record: QueryRecord)
      requires Valid()
      modifies this
      ensures Valid()
      ensures history == Added(old(history), record, maxEntries)
    {
      history := history + [record];
      if |history| > maxEntries {
        history := Seqs.PySlice(history, -maxEntries, |history|);
      }
    }

    method Clear()
      modifies this
      ensures Valid() && history == []
    {
      history := [];
    }

    function Size(): nat
      reads this
    {
      |history|
    }

    function GetRecent(count: int): seq<QueryRecord>
      reads this
    {
      Recent(history, count)
    }

    function GetByUser(user: string): seq<QueryRecord>
      reads this
    {
      ByUser(history, user)
    }

    function GetFailed(): seq<QueryRecord>
      reads this
    {
      Failed(history)
    }

    function SearchQueries(term: string): seq<QueryRecord>
      reads this
    {
      Search(history, term)
    }

    function GetStats(): HistoryStats
      reads this
    {
      Stats(history)
    }
  }
}
