/**
 * Performance helpers: the integer-width choice `optimize_dataframe` makes
 * for each int64 column, and `PerformanceMonitor`, which keeps every timing
 * recorded per operation and summarises them. Timings are real numbers of
 * milliseconds; the rounding to one decimal place is not modelled.
 */
module Performance {
  import Seqs

  /** The integer dtypes an int64 column can end up with. */
  datatype IntType = Int64 | UInt8 | UInt16 | UInt32 | Int8 | Int16 | Int32
  {
    /** The smallest value of the dtype. */
    function Lo(): int {
      match this
      case Int64 => -0x8000_0000_0000_0000
      case UInt8 => 0
      case UInt16 => 0
      case UInt32 => 0
      case Int8 => -0x80
      case Int16 => -0x8000
      case Int32 => -0x8000_0000
    }

    /** The largest value of the dtype. */
    function Hi(): int {
      match this
      case Int64 => 0x7FFF_FFFF_FFFF_FFFF
      case UInt8 => 0xFF
      case UInt16 => 0xFFFF
      case UInt32 => 0xFFFF_FFFF
      case Int8 => 0x7F
      case Int16 => 0x7FFF
      case Int32 => 0x7FFF_FFFF
    }
  }

  /** Every value fits an int64, as it does in an int64 column. */
  predicate IsInt64Column(col: seq<int>) {
    forall i | 0 <= i < |col| :: Int64.Lo() <= col[i] <= Int64.Hi()
  }

  function MinInt(col: seq<int>): (m: int)
    requires |col| >= 1
    ensures m in col
    ensures forall i | 0 <= i < |col| :: m <= col[i]
  {
    if |col| == 1 then col[0]
    else
      var rest := MinInt(col[..|col| - 1]);
      if col[|col| - 1] < rest then col[|col| - 1] else rest
  }

  function MaxInt(col: seq<int>): (m: int)
    requires |col| >= 1
    ensures m in col
    ensures forall i | 0 <= i < |col| :: col[i] <= m
  {
    if |col| == 1 then col[0]
    else
      var rest := MaxInt(col[..|col| - 1]);
      if col[|col| - 1] > rest then col[|col| - 1] else rest
  }

  /**
   * The dtype `optimize_dataframe` gives an int64 column. A column with no
   * values has no minimum or maximum (pandas gives NaN, and every comparison
   * with NaN is false), so it stays int64.
   */
  function ChooseIntType(col: seq<int>): (t: IntType)
    ensures |col| == 0 ==> t == Int64
    ensures t != Int64 ==> forall i | 0 <= i < |col| :: t.Lo() <= col[i] <= t.Hi()
  {
    if |col| == 0 then Int64
    else
      var lo, hi := MinInt(col), MaxInt(col);
      if lo >= 0 then
        if hi <= 255 then UInt8
        else if hi <= 65535 then UInt16
        else if hi <= 4294967295 then UInt32
        else Int64
      else
        if lo >= -128 && hi <= 127 then Int8
        else if lo >= -32768 && hi <= 32767 then Int16
        else if lo >= -2147483648 && hi <= 2147483647 then Int32
        else Int64
  }

  /** The downcast is lossless: every value of the column fits the chosen dtype. */
  lemma ChosenTypeHoldsColumn(col: seq<int>)
    requires IsInt64Column(col)
    ensures forall i | 0 <= i < |col| :: ChooseIntType(col).Lo() <= col[i] <= ChooseIntType(col).Hi()
  {
    if |col| > 0 {
      var lo, hi := MinInt(col), MaxInt(col);
      var t := ChooseIntType(col);
      assert t.Lo() <= lo && hi <= t.Hi() by {
        assert Int64.Lo() <= lo && hi <= Int64.Hi();
      }
    }
  }

  /**
   * A column without negative values becomes unsigned exactly when its
   * maximum fits 32 bits, and then takes the narrowest unsigned dtype that
   * holds it; a column with a negative value never becomes unsigned.
   */
  lemma UnsignedChoice(col: seq<int>)
    requires |col| >= 1
    ensures MinInt(col) >= 0 ==>
      (ChooseIntType(col) == Int64 <==> MaxInt(col) > UInt32.Hi())
    ensures MinInt(col) >= 0 && ChooseIntType(col) != Int64 ==>
      && MaxInt(col) <= ChooseIntType(col).Hi()
      && forall t: IntType | t in {UInt8, UInt16, UInt32} && t.Hi() < ChooseIntType(col).Hi() :: MaxInt(col) > t.Hi()
    ensures MinInt(col) < 0 ==> ChooseIntType(col) in {Int8, Int16, Int32, Int64}
  {
  }

  /**
   * A column with a negative value becomes signed-narrow exactly when both
   * bounds fit 32 bits, and then takes the narrowest such dtype.
   */
  lemma SignedChoice(col: seq<int>)
    requires |col| >= 1 && MinInt(col) < 0
    ensures ChooseIntType(col) == Int64 <==> MinInt(col) < Int32.Lo() || MaxInt(col) > Int32.Hi()
    ensures ChooseIntType(col) != Int64 ==>
      forall t: IntType | t in {Int8, Int16, Int32} && t.Hi() < ChooseIntType(col).Hi() ::
        MinInt(col) < t.Lo() || MaxInt(col) > t.Hi()
  {
  }

  /** Minimum of a non-empty list of timings. */
  function MinReal(s: seq<real>): (m: real)
    requires |s| >= 1
    ensures m in s
    ensures forall i | 0 <= i < |s| :: m <= s[i]
  {
    if |s| == 1 then s[0]
    else
      var rest := MinReal(s[..|s| - 1]);
      if s[|s| - 1] < rest then s[|s| - 1] else rest
  }

  /** Maximum of a non-empty list of timings. */
  function MaxReal(s: seq<real>): (m: real)
    requires |s| >= 1
    ensures m in s
    ensures forall i | 0 <= i < |s| :: s[i] <= m
  {
    if |s| == 1 then s[0]
    else
      var rest := MaxReal(s[..|s| - 1]);
      if s[|s| - 1] > rest then s[|s| - 1] else rest
  }

  /** The sum lies between `n` times the smallest and `n` times the largest timing. */
  lemma {:induction false} SumBetween(s: seq<real>, lo: real, hi: real)
    requires forall i | 0 <= i < |s| :: lo <= s[i] <= hi
    ensures lo * |s| as real <= Seqs.SumReal(s) <= hi * |s| as real
  {
    if s != [] {
      var front := s[..|s| - 1];
      SumBetween(front, lo, hi);
      assert lo * |s| as real == lo * |front| as real + lo;
      assert hi * |s| as real == hi * |front| as real + hi;
    }
  }

  /** The summary `get_stats` gives of one operation's timings. */
  datatype Stats = Stats(count: nat, avgMs: real, minMs: real, maxMs: real)

  /** One entry of `get_stats`, before rounding. */
  function StatsOf(s: seq<real>): (st: Stats)
    requires |s| >= 1
    ensures st.count == |s|
    ensures st.minMs in s && st.maxMs in s
    ensures forall i | 0 <= i < |s| :: st.minMs <= s[i] <= st.maxMs
    ensures st.avgMs * |s| as real == Seqs.SumReal(s)
  {
    Stats(|s|, Seqs.SumReal(s) / |s| as real, MinReal(s), MaxReal(s))
  }

  /** Dividing both sides of `lo * n <= sum <= hi * n` by a positive `n`. */
  lemma DivideBounds(lo: real, sum: real, hi: real, n: real)
    requires n > 0.0 && lo * n <= sum <= hi * n
    ensures lo <= sum / n <= hi
  {
    assert (sum / n) * n == sum;
  }

  /** The average lies between the minimum and the maximum. */
  lemma MinAvgMax(s: seq<real>)
    requires |s| >= 1
    ensures StatsOf(s).minMs <= StatsOf(s).avgMs <= StatsOf(s).maxMs
  {
    var lo, hi := MinReal(s), MaxReal(s);
    SumBetween(s, lo, hi);
    DivideBounds(lo, Seqs.SumReal(s), hi, |s| as real);
  }

  /** The timings after `record(op, ms)`: `ms` joins the end of `op`'s list, which starts empty. */
  function Recorded(t: map<string, seq<real>>, op: string, ms: real): (r: map<string, seq<real>>)
    ensures r.Keys == t.Keys + {op}
    ensures r[op] == (if op in t then t[op] else []) + [ms]
    ensures forall other | other in t && other != op :: r[other] == t[other]
  {
    t[op := (if op in t then t[op] else []) + [ms]]
  }

  /** No operation has an empty list of timings. */
  ghost predicate NoEmptyTimings(t: map<string, seq<real>>) {
    forall op | op in t :: |t[op]| >= 1
  }

  /** The timings after a series of `record` calls on an empty monitor. */
  function Replay(log: seq<(string, real)>): (t: map<string, seq<real>>)
    ensures NoEmptyTimings(t)
  {
    if log == [] then map[]
    else Recorded(Replay(log[..|log| - 1]), log[|log| - 1].0, log[|log| - 1].1)
  }

  /** The timings recorded for `op` in a series of calls, in call order. */
  function TimesOf(log: seq<(string, real)>, op: string): (r: seq<real>)
    ensures |r| <= |log|
  {
    if log == [] then []
    else
      var last := log[|log| - 1];
      TimesOf(log[..|log| - 1], op) + (if last.0 == op then [last.1] else [])
  }

  /**
   * After a series of `record` calls, exactly the recorded operations have
   * timings, and each one's list is its timings in call order; so its
   * `count` is the number of calls for it.
   */
  lemma {:induction false} ReplayKeepsEveryTiming(log: seq<(string, real)>, op: string)
    ensures op in Replay(log) <==> exists i | 0 <= i < |log| :: log[i].0 == op
    ensures op in Replay(log) ==> Replay(log)[op] == TimesOf(log, op) && |TimesOf(log, op)| >= 1
    ensures op !in Replay(log) ==> TimesOf(log, op) == []
  {
    if log != [] {
      var front := log[..|log| - 1];
      ReplayKeepsEveryTiming(front, op);
      assert forall i | 0 <= i < |front| :: front[i] == log[i];
      if log[|log| - 1].0 != op && op in Replay(log) {
        var i :| 0 <= i < |log| && log[i].0 == op;
        assert i < |front|;
      }
    }
  }

  function ForOp(op: string): ((string, real)) -> bool {
    (call: (string, real)) => call.0 == op
  }

  /** `get_stats` after a series of calls: an operation's `count` is the number of `record` calls for it. */
  lemma {:induction false} CountIsCalls(log: seq<(string, real)>, op: string)
    ensures |TimesOf(log, op)| == Seqs.Count(log, ForOp(op))
    ensures op in Replay(log) ==> StatsOf(Replay(log)[op]).count == Seqs.Count(log, ForOp(op))
  {
    if log != [] {
      var front := log[..|log| - 1];
      CountIsCalls(front, op);
      assert log == front + [log[|log| - 1]];
      Seqs.CountAppend(front, log[|log| - 1], ForOp(op));
    }
    ReplayKeepsEveryTiming(log, op);
  }

  /** `PerformanceMonitor` */
  class PerformanceMonitor {
    var timings: map<string, seq<real>>

    ghost predicate Valid()
      reads this
    {
      NoEmptyTimings(timings)
    }

    constructor()
      ensures Valid() && timings == map[]
    {
      timings := map[];
    }

    /** `record` */
    method Record(op: string, ms: real)
      requires Valid()
      modifies this
      ensures Valid()
      ensures timings == Recorded(old(timings), op, ms)
    {
      if op !in timings {
        timings := timings[op := []];
      }
      timings := timings[op := timings[op] + [ms]];
    }

    /** `get_stats`: one summary per recorded operation. */
    method GetStats() returns (stats: map<string, Stats>)
      requires Valid()
      ensures stats.Keys == timings.Keys
      ensures forall op | op in stats :: |timings[op]| >= 1 && stats[op] == StatsOf(timings[op])
    {
      stats := map[];
      var left := timings.Keys;
      while left != {}
        invariant left <= timings.Keys
        invariant stats.Keys == timings.Keys - left
        invariant forall op | op in stats :: |timings[op]| >= 1 && stats[op] == StatsOf(timings[op])
        decreases left
      {
        var op :| op in left;
        stats := stats[op := StatsOf(timings[op])];
        left := left - {op};
      }
    }
  }
}
