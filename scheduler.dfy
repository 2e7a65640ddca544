/**
 * The report scheduler: reports run daily, weekly, monthly or quarterly; a
 * report is due once the clock reaches its next run, and running the due
 * reports moves each successful one a full interval ahead. Times are seconds
 * on one clock, and `now` is its reading.
 */
module Scheduler {
  import opened Base
  import Seqs

  const DAY: int := 86400

  /** `Frequency` */
  datatype Frequency = Diario | Semanal | Mensal | Trimestral
  {
    /** The interval the frequency adds to the base time: 1, 7, 30 or 90 days. */
    function Interval(): (d: int)
      ensures d >= DAY && d % DAY == 0
    {
      match this
      case Diario => DAY
      case Semanal => 7 * DAY
      case Mensal => 30 * DAY
      case Trimestral => 90 * DAY
    }

    /** The enum member's value, as `get_status` reports it; it reads back to the member. */
    function Value(): (s: string)
      ensures FromValue(s) == Some(this)
    {
      match this
      case Diario => "diario"
      case Semanal => "semanal"
      case Mensal => "mensal"
      case Trimestral => "trimestral"
    }
  }

  /** `Frequency(s)`: the member whose value is `s`, if there is one. */
  function FromValue(s: string): Option<Frequency> {
    if s == "diario" then Some(Diario)
    else if s == "semanal" then Some(Semanal)
    else if s == "mensal" then Some(Mensal)
    else if s == "trimestral" then Some(Trimestral)
    else None
  }

  /** `ScheduledReport` */
  datatype ScheduledReport = ScheduledReport(
    name: string,
    description: string,
    frequency: Frequency,
    recipients: seq<string>,
    queryName: string,
    exportFormat: string,
    lastRun: Option<int>,
    nextRun: Option<int>,
    enabled: bool,
    createdAt: int)

  /** The time the next run counts from: the last run, or the clock when the report never ran. */
  function StartOf(r: ScheduledReport, now: int): int {
    if r.lastRun.Some? then r.lastRun.value else now
  }

  /** `calculate_next_run`: the report with its next run one interval after the base time. */
  function CalculateNextRun(r: ScheduledReport, now: int): (r': ScheduledReport)
    ensures r'.nextRun.Some? && r'.nextRun.value > StartOf(r, now)
    ensures r'.nextRun.value - StartOf(r, now) == r.frequency.Interval()
    ensures r' == r.(nextRun := r'.nextRun)
  {
    r.(nextRun := Some(StartOf(r, now) + r.frequency.Interval()))
  }

  /** `should_run` at time `now`. */
  predicate ShouldRun(r: ScheduledReport, now: int): (due: bool)
    ensures due ==> r.enabled
    ensures r.enabled && r.nextRun.None? ==> due
  {
    r.enabled && (r.nextRun.None? || now >= r.nextRun.value)
  }

  /** After `calculate_next_run` a report is due exactly when it is enabled and a full interval has passed since its base. */
  lemma DueAfterCalculation(r: ScheduledReport, now: int)
    ensures ShouldRun(CalculateNextRun(r, now), now) <==> r.enabled && now - StartOf(r, now) >= r.frequency.Interval()
  {
  }

  /** A report that never ran is not due at the moment it is scheduled. */
  lemma FreshReportNotDue(r: ScheduledReport, now: int)
    requires r.lastRun.None?
    ensures !ShouldRun(CalculateNextRun(r, now), now)
  {
    DueAfterCalculation(r, now);
  }

  /** `should_run` as a condition on the list, for the comprehension in `get_pending_reports`. */
  function ShouldRunAt(now: int): ScheduledReport -> bool {
    (r: ScheduledReport) => ShouldRun(r, now)
  }

  /** `get_pending_reports` */
  function Pending(reports: seq<ScheduledReport>, now: int): (r: seq<ScheduledReport>)
    ensures Seqs.IsSubsequence(r, reports)
    ensures forall x | x in r :: ShouldRun(x, now)
    ensures forall x | x in reports && ShouldRun(x, now) :: x in r
  {
    Seqs.FilterIsSubsequence(reports, ShouldRunAt(now));
    Seqs.Filter(reports, ShouldRunAt(now))
  }

  /**
   * `execute_report` with an executor that raises on the reports for which
   * `raises` holds: on success the run is stamped and the next run moved one
   * interval past it; on failure the report is left as it was.
   */
  function Execute(r: ScheduledReport, now: int, raises: ScheduledReport -> bool): (res: (bool, ScheduledReport))
    ensures res.0 <==> !raises(r)
    ensures !res.0 ==> res.1 == r
    ensures res.0 ==> res.1 == r.(lastRun := Some(now), nextRun := Some(now + r.frequency.Interval()))
  {
    if raises(r) then (false, r)
    else (true, CalculateNextRun(r.(lastRun := Some(now)), now))
  }

  /** A report that just ran successfully is not due again at the same instant. */
  lemma ExecutedNotDue(r: ScheduledReport, now: int, raises: ScheduledReport -> bool)
    requires Execute(r, now, raises).0
    ensures !ShouldRun(Execute(r, now, raises).1, now)
  {
  }

  /** The position of the first report with the given name. */
  function FirstNamed(reports: seq<ScheduledReport>, name: string): (r: Option<nat>)
    ensures r.Some? ==> r.value < |reports| && reports[r.value].name == name
    ensures r.Some? ==> forall j | 0 <= j < r.value :: reports[j].name != name
    ensures r.None? <==> forall j | 0 <= j < |reports| :: reports[j].name != name
  {
    if reports == [] then None
    else if reports[0].name == name then Some(0)
    else match FirstNamed(reports[1..], name)
      case None => None
      case Some(j) => Some(j + 1)
  }

  /**
   * `run_pending` on a list of reports: every due report is executed in
   * list order; the result is the new list and the number of successes.
   */
  function RunAll(reports: seq<ScheduledReport>, now: int, raises: ScheduledReport -> bool): (res: (seq<ScheduledReport>, nat))
    ensures |res.0| == |reports|
  {
    if reports == [] then ([], 0)
    else
      var front := reports[..|reports| - 1];
      var last := reports[|reports| - 1];
      var (done, n) := RunAll(front, now, raises);
      if ShouldRun(last, now) then
        var (ok, last') := Execute(last, now, raises);
        (done + [last'], n + (if ok then 1 else 0))
      else (done + [last], n)
  }

  /**
   * After `run_pending` a report is still due exactly when it was due and its
   * executor raised; reports that were not due are untouched.
   */
  lemma {:induction false} RunAllClearsPending(reports: seq<ScheduledReport>, now: int, raises: ScheduledReport -> bool, i: int)
    requires 0 <= i < |reports|
    ensures !ShouldRun(reports[i], now) ==> RunAll(reports, now, raises).0[i] == reports[i]
    ensures ShouldRun(RunAll(reports, now, raises).0[i], now) <==> ShouldRun(reports[i], now) && raises(reports[i])
  {
    var front := reports[..|reports| - 1];
    if i < |reports| - 1 {
      assert front[i] == reports[i];
      RunAllClearsPending(front, now, raises, i);
    } else if ShouldRun(reports[i], now) && !raises(reports[i]) {
      ExecutedNotDue(reports[i], now, raises);
    }
  }

  /** One more report at the end of the list: it alone is executed, if due. */
  lemma RunAllAppend(front: seq<ScheduledReport>, last: ScheduledReport, now: int, raises: ScheduledReport -> bool)
    ensures var (done, n) := RunAll(front, now, raises);
      RunAll(front + [last], now, raises) ==
        if ShouldRun(last, now) then (done + [Execute(last, now, raises).1], n + (if Execute(last, now, raises).0 then 1 else 0))
        else (done + [last], n)
  {
    var reports := front + [last];
    assert reports[..|reports| - 1] == front;
  }

  /** `run_pending` over the first `i + 1` reports extends the run over the first `i`. */
  lemma RunAllPrefixStep(start: seq<ScheduledReport>, i: nat, now: int, raises: ScheduledReport -> bool)
    requires i < |start|
    ensures RunAll(start[..i + 1], now, raises).0 ==
      RunAll(start[..i], now, raises).0 + [if ShouldRun(start[i], now) then Execute(start[i], now, raises).1 else start[i]]
    ensures RunAll(start[..i + 1], now, raises).1 ==
      RunAll(start[..i], now, raises).1 + (if ShouldRun(start[i], now) && Execute(start[i], now, raises).0 then 1 else 0)
  {
    assert start[..i + 1] == start[..i] + [start[i]];
    RunAllAppend(start[..i], start[i], now, raises);
  }

  /** The executor does not raise on a report, as a condition on the list. */
  function Succeeds(raises: ScheduledReport -> bool): ScheduledReport -> bool {
    (r: ScheduledReport) => !raises(r)
  }

  /** The number `run_pending` returns counts exactly the due reports whose executor did not raise. */
  lemma {:induction false} RunAllCountsSuccesses(reports: seq<ScheduledReport>, now: int, raises: ScheduledReport -> bool)
    ensures RunAll(reports, now, raises).1 == Seqs.Count(Pending(reports, now), Succeeds(raises))
  {
    if reports != [] {
      var front := reports[..|reports| - 1];
      var last := reports[|reports| - 1];
      RunAllCountsSuccesses(front, now, raises);
      assert reports == front + [last];
      RunAllAppend(front, last, now, raises);
      Seqs.FilterAppend(front, last, ShouldRunAt(now));
      var p := Pending(front, now);
      if ShouldRun(last, now) {
        assert Pending(reports, now) == p + [last];
        Seqs.CountAppend(p, last, Succeeds(raises));
        assert Succeeds(raises)(last) == Execute(last, now, raises).0;
      } else {
        assert Pending(reports, now) == p;
      }
    }
  }

  /** One entry of `get_status`; the times are written by `iso`, the program's `isoformat`. */
  datatype StatusRow = StatusRow(
    nome: string,
    frequencia: string,
    ultimaExecucao: string,
    proximaExecucao: string,
    habilitado: bool)

  function StatusRowOf(r: ScheduledReport, iso: int -> string): StatusRow {
    StatusRow(
      r.name,
      r.frequency.Value(),
      if r.lastRun.Some? then iso(r.lastRun.value) else "Nunca",
      if r.nextRun.Some? then iso(r.nextRun.value) else "Pendente",
      r.enabled)
  }

  /**
   * `get_status`: one row per report, in list order, with the report's name,
   * its enabled flag, a frequency that reads back to the report's, and the
   * placeholders for the times that are missing.
   */
  function Status(reports: seq<ScheduledReport>, iso: int -> string): (rows: seq<StatusRow>)
    ensures |rows| == |reports|
    ensures forall i | 0 <= i < |reports| ::
      rows[i].nome == reports[i].name && rows[i].habilitado == reports[i].enabled
      && FromValue(rows[i].frequencia) == Some(reports[i].frequency)
    ensures forall i | 0 <= i < |reports| ::
      (reports[i].lastRun.None? ==> rows[i].ultimaExecucao == "Nunca")
      && (reports[i].nextRun.None? ==> rows[i].proximaExecucao == "Pendente")
  {
    seq(|reports|, i requires 0 <= i < |reports| => StatusRowOf(reports[i], iso))
  }

  /** When no written time is a placeholder, the placeholders say exactly that a time is missing. */
  lemma StatusPlaceholders(reports: seq<ScheduledReport>, iso: int -> string)
    requires forall t :: iso(t) != "Nunca"
    requires forall t :: iso(t) != "Pendente"
    ensures forall i | 0 <= i < |reports| ::
      (Status(reports, iso)[i].ultimaExecucao == "Nunca" <==> reports[i].lastRun.None?)
      && (Status(reports, iso)[i].proximaExecucao == "Pendente" <==> reports[i].nextRun.None?)
  {
    forall i | 0 <= i < |reports|
      ensures Status(reports, iso)[i].ultimaExecucao == "Nunca" <==> reports[i].lastRun.None?
      ensures Status(reports, iso)[i].proximaExecucao == "Pendente" <==> reports[i].nextRun.None?
    {
      var r := reports[i];
      assert Status(reports, iso)[i] == StatusRowOf(r, iso);
      if r.lastRun.Some? {
        var v := r.lastRun.value;
        assert iso(v) != "Nunca";
      }
      if r.nextRun.Some? {
        var v := r.nextRun.value;
        assert iso(v) != "Pendente";
      }
    }
  }

  /** After a successful run, the report's row shows the run time and the time one interval later. */
  lemma StatusAfterExecute(r: ScheduledReport, now: int, raises: ScheduledReport -> bool, iso: int -> string)
    requires !raises(r)
    ensures var row := Status([Execute(r, now, raises).1], iso)[0];
      row.ultimaExecucao == iso(now) && row.proximaExecucao == iso(now + r.frequency.Interval())
  {
  }

  /** `ReportScheduler` */
  class ReportScheduler {
    var reports: seq<ScheduledReport>

    constructor()
      ensures reports == []
    {
      reports := [];
    }

    /** `add_report`: the next run is computed before the report joins the list. */
    method AddReport(report: ScheduledReport, now: int)
      modifies this
      ensures reports == old(reports) + [CalculateNextRun(report, now)]
    {
      var scheduled := CalculateNextRun(report, now);
      reports := reports + [scheduled];
    }

    /** `remove_report`: only the first report with that name goes. */
    method RemoveReport(name: string) returns (found: bool)
      modifies this
      ensures found <==> FirstNamed(old(reports), name).Some?
      ensures found ==> reports == old(reports)[..FirstNamed(old(reports), name).value] + old(reports)[FirstNamed(old(reports), name).value + 1..]
      ensures !found ==> reports == old(reports)
    {
      var i := 0;
      while i < |reports|
        invariant 0 <= i <= |reports|
        invariant reports == old(reports)
        invariant forall j | 0 <= j < i :: reports[j].name != name
      {
        if reports[i].name == name {
          assert FirstNamed(reports, name) == Some(i) by {
            var k := FirstNamed(reports, name);
            assert k.Some?;
            assert !(k.value < i) && !(i < k.value);
          }
          reports := reports[..i] + reports[i + 1..];
          return true;
        }
        i := i + 1;
      }
      return false;
    }

    function GetStatus(iso: int -> string): seq<StatusRow>
      reads this
    {
      Status(reports, iso)
    }

    function GetPendingReports(now: int): seq<ScheduledReport>
      reads this
    {
      Pending(reports, now)
    }

    /** `execute_report` on the report at position `i` of the list. */
    method ExecuteReport(i: nat, now: int, raises: ScheduledReport -> bool) returns (ok: bool)
      requires i < |reports|
      modifies this
      ensures |reports| == |old(reports)|
      ensures (ok, reports[i]) == Execute(old(reports)[i], now, raises)
      ensures reports == old(reports)[i := reports[i]]
    {
      var res := Execute(reports[i], now, raises);
      ok := res.0;
      reports := reports[i := res.1];
    }

    /** `run_pending`: the due reports are picked before any runs, then run in order. */
    method RunPending(now: int, raises: ScheduledReport -> bool) returns (executed: nat)
      modifies this
      ensures (reports, executed) == RunAll(old(reports), now, raises)
      ensures executed == Seqs.Count(Pending(old(reports), now), Succeeds(raises))
      ensures executed <= |Pending(old(reports), now)|
    {
      ghost var start := reports;
      executed := 0;
      var i := 0;
      while i < |reports|
        invariant 0 <= i <= |reports| == |start|
        invariant forall j | i <= j < |start| :: reports[j] == start[j]
        invariant reports[..i] == RunAll(start[..i], now, raises).0
        invariant executed == RunAll(start[..i], now, raises).1
      {
        ghost var done := reports[..i];
        RunAllPrefixStep(start, i, now, raises);
        if ShouldRun(reports[i], now) {
          var ok := ExecuteReport(i, now, raises);
          if ok {
            executed := executed + 1;
          }
        }
        assert reports[..i + 1] == done + [reports[i]];
        i := i + 1;
      }
      assert reports[..i] == reports;
      RunAllCountsSuccesses(start, now, raises);
      assert start[..i] == start;
    }
  }
}
