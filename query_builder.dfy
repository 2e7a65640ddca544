/**
 * `QueryBuilder`: BigQuery SQL text assembled from a table name and optional
 * clauses. An optional argument contributes its clause only when it is truthy:
 * a non-empty string, a non-zero number, a non-empty list.
 */
module QueryBuilder {
  import opened Base
  import Text

  predicate GivenText(o: Option<string>) { o.Some? && o.value != "" }

  predicate GivenNumber(o: Option<int>) { o.Some? && o.value != 0 }

  /** `cols`: `*` for no columns, otherwise the columns separated by commas. */
  function SelectList(columns: seq<string>): string {
    if columns == [] then "*" else Text.Join(", ", columns)
  }

  /** `lead + arg` (such as `" WHERE " + where`) when the argument is given, nothing otherwise. */
  function Clause(lead: string, arg: Option<string>): string {
    if GivenText(arg) then lead + arg.value else ""
  }

  datatype Builder = Builder(dataset: string, projectId: string)
  {
    /** `_full_table`: the project, dataset and table joined by dots, in backquotes. */
    function FullTable(table: string): (r: string)
      ensures |r| == |projectId| + |dataset| + |table| + 4
      ensures r[0] == '`' && r[|r| - 1] == '`'
      ensures r[1..|r| - 1] == projectId + "." + dataset + "." + table
    {
      "`" + projectId + "." + dataset + "." + table + "`"
    }

    /** The part every SELECT starts with. */
    function SelectHead(columns: seq<string>, table: string): string {
      "SELECT " + SelectList(columns) + " FROM " + FullTable(table)
    }

    /** `build_select`: the head, then the clauses that are given. */
    function BuildSelect(table: string, columns: seq<string>, where: Option<string>,
                         orderBy: Option<string>, limit: Option<int>): (r: string)
      ensures SelectHead(columns, table) <= r
      ensures !GivenText(where) && !GivenText(orderBy) && !GivenNumber(limit) ==> r == SelectHead(columns, table)
    {
      ConcatPrefix(SelectHead(columns, table), SelectTail(where, orderBy, limit));
      SelectHead(columns, table) + SelectTail(where, orderBy, limit)
    }

    /**
     * `build_aggregation`: the select list is the grouping columns then the
     * metrics; GROUP BY is always there, after WHERE, and HAVING follows it.
     */
    function BuildAggregation(table: string, metrics: seq<string>, groupBy: seq<string>,
                              where: Option<string>, having: Option<string>): (r: string)
      ensures "SELECT " + Text.Join(", ", groupBy + metrics) + " FROM " + FullTable(table) <= r
      ensures GivenText(having) ==> Text.EndsWith(r, " GROUP BY " + Text.Join(", ", groupBy) + " HAVING " + having.value)
      ensures !GivenText(having) ==> Text.EndsWith(r, " GROUP BY " + Text.Join(", ", groupBy))
      ensures GivenText(where) ==> "SELECT " + Text.Join(", ", groupBy + metrics) + " FROM " + FullTable(table) + " WHERE " + where.value <= r
    {
      var head := "SELECT " + Text.Join(", ", groupBy + metrics) + " FROM " + FullTable(table);
      AggregationShape(head, Text.Join(", ", groupBy), where, having);
      head + Clause(" WHERE ", where) + (" GROUP BY " + Text.Join(", ", groupBy) + Clause(" HAVING ", having))
    }

    /** `build_date_range_filter` */
    function BuildDateRangeFilter(dateColumn: string, startDate: string, endDate: string): (r: string)
      ensures dateColumn + " BETWEEN '" <= r
      ensures Text.EndsWith(r, "' AND '" + endDate + "'")
      ensures |r| == |dateColumn| + |startDate| + |endDate| + 18
      ensures r[|dateColumn| + 10..|dateColumn| + 10 + |startDate|] == startDate
    {
      ConcatPrefix(dateColumn + " BETWEEN '", startDate + "' AND '" + endDate + "'");
      assert dateColumn + " BETWEEN '" + startDate + "' AND '" + endDate + "'"
          == (dateColumn + " BETWEEN '") + (startDate + "' AND '" + endDate + "'");
      assert dateColumn + " BETWEEN '" + startDate + "' AND '" + endDate + "'"
          == (dateColumn + " BETWEEN '" + startDate) + ("' AND '" + endDate + "'");
      ConcatSuffix(dateColumn + " BETWEEN '" + startDate, "' AND '" + endDate + "'");
      dateColumn + " BETWEEN '" + startDate + "' AND '" + endDate + "'"
    }

    /** `build_panorama_query`: every column of the table, newest year first. */
    function BuildPanoramaQuery(table: string, estado: Option<string>, anoInicio: Option<int>,
                                anoFim: Option<int>): (r: string)
      ensures SelectHead([], table) <= r
      ensures Text.EndsWith(r, " ORDER BY ano DESC")
    {
      OrderedByYear(SelectHead([], table), PanoramaWhere(PanoramaConditions(estado, anoInicio, anoFim)));
      BuildSelect(table, [], PanoramaWhere(PanoramaConditions(estado, anoInicio, anoFim)), Some("ano DESC"), None)
    }

    /** `build_kpi_query`: one aggregated value named `valor`, with an optional WHERE. */
    function BuildKpiQuery(table: string, metricColumn: string, aggregation: string,
                           where: Option<string>): (r: string)
      ensures "SELECT " + aggregation + "(" + metricColumn + ") AS valor FROM " + FullTable(table) <= r
      ensures GivenText(where) ==> Text.EndsWith(r, " WHERE " + where.value)
      ensures GivenText(where) ==> |r| == |"SELECT " + aggregation + "(" + metricColumn + ") AS valor FROM " + FullTable(table)| + 7 + |where.value|
      ensures !GivenText(where) ==> r == "SELECT " + aggregation + "(" + metricColumn + ") AS valor FROM " + FullTable(table)
    {
      "SELECT " + aggregation + "(" + metricColumn + ") AS valor FROM " + FullTable(table) + Clause(" WHERE ", where)
    }
  }

  /** `" LIMIT n"` when a limit is given, nothing otherwise. */
  function LimitClause(limit: Option<int>): string {
    if GivenNumber(limit) then " LIMIT " + Text.IntToString(limit.value) else ""
  }

  /** The clauses `build_select` appends to its head. */
  function SelectTail(where: Option<string>, orderBy: Option<string>, limit: Option<int>): string {
    Clause(" WHERE ", where) + Clause(" ORDER BY ", orderBy) + LimitClause(limit)
  }

  lemma ConcatPrefix(a: string, b: string)
    ensures a <= a + b
  {
    assert (a + b)[..|a|] == a;
  }

  /** The shape of an aggregation query: its head, then WHERE, then GROUP BY and HAVING at the end. */
  lemma AggregationShape(head: string, groupCols: string, where: Option<string>, having: Option<string>)
    ensures var r := head + Clause(" WHERE ", where) + (" GROUP BY " + groupCols + Clause(" HAVING ", having));
      && head <= r
      && (GivenText(where) ==> head + " WHERE " + where.value <= r)
      && (GivenText(having) ==> Text.EndsWith(r, " GROUP BY " + groupCols + " HAVING " + having.value))
      && (!GivenText(having) ==> Text.EndsWith(r, " GROUP BY " + groupCols))
  {
    var w := Clause(" WHERE ", where);
    var tail := " GROUP BY " + groupCols + Clause(" HAVING ", having);
    ConcatPrefix(head, w + tail);
    ConcatPrefix(head + w, tail);
    ConcatSuffix(head + w, tail);
    if GivenText(where) {
      assert w == " WHERE " + where.value;
    }
    if GivenText(having) {
      assert tail == " GROUP BY " + groupCols + " HAVING " + having.value;
    } else {
      assert tail == " GROUP BY " + groupCols;
    }
  }

  lemma ConcatSuffix(a: string, b: string)
    ensures Text.EndsWith(a + b, b)
  {
    assert (a + b)[|a|..] == b;
  }

  /** The head and the first part of the tail lead the query. */
  lemma FirstPartLeads(head: string, w: string, o: string, l: string)
    ensures head + w <= head + (w + o + l)
  {
    assert head + (w + o + l) == (head + w) + (o + l);
    ConcatPrefix(head + w, o + l);
  }

  /** The last part of the tail ends the query. */
  lemma LastPartEnds(head: string, w: string, o: string, l: string)
    ensures Text.EndsWith(head + (w + o + l), l)
  {
    assert head + (w + o + l) == (head + w + o) + l;
    ConcatSuffix(head + w + o, l);
  }

  /** A given clause is its lead followed by its argument. */
  lemma GivenClause(lead: string, arg: Option<string>)
    requires GivenText(arg)
    ensures Clause(lead, arg) == lead + arg.value
  {
  }

  /** Right after the head comes WHERE, when it is given. */
  lemma SelectWhereFirst(head: string, where: Option<string>, orderBy: Option<string>, limit: Option<int>)
    requires GivenText(where)
    ensures head + " WHERE " + where.value <= head + SelectTail(where, orderBy, limit)
  {
    FirstPartLeads(head, Clause(" WHERE ", where), Clause(" ORDER BY ", orderBy), LimitClause(limit));
    GivenClause(" WHERE ", where);
    assert head + " WHERE " + where.value == head + Clause(" WHERE ", where);
  }

  /** Without WHERE, ORDER BY comes right after the head, when it is given. */
  lemma SelectOrderFirst(head: string, where: Option<string>, orderBy: Option<string>, limit: Option<int>)
    requires !GivenText(where) && GivenText(orderBy)
    ensures head + " ORDER BY " + orderBy.value <= head + SelectTail(where, orderBy, limit)
  {
    FirstPartLeads(head, Clause(" ORDER BY ", orderBy), LimitClause(limit), []);
    assert SelectTail(where, orderBy, limit) == Clause(" ORDER BY ", orderBy) + LimitClause(limit) + [];
    GivenClause(" ORDER BY ", orderBy);
    assert head + " ORDER BY " + orderBy.value == head + Clause(" ORDER BY ", orderBy);
  }

  /** With WHERE and ORDER BY both given, ORDER BY comes right after the WHERE condition. */
  lemma SelectOrderBetween(head: string, where: Option<string>, orderBy: Option<string>, limit: Option<int>)
    requires GivenText(where) && GivenText(orderBy)
    ensures head + " WHERE " + where.value + " ORDER BY " + orderBy.value <= head + SelectTail(where, orderBy, limit)
  {
    var w := Clause(" WHERE ", where);
    var o := Clause(" ORDER BY ", orderBy);
    FirstPartLeads(head, w + o, LimitClause(limit), []);
    assert SelectTail(where, orderBy, limit) == (w + o) + LimitClause(limit) + [];
    GivenClause(" WHERE ", where);
    GivenClause(" ORDER BY ", orderBy);
    assert head + " WHERE " + where.value + " ORDER BY " + orderBy.value == head + (w + o);
  }

  /** With no clause argument given, the head is the whole query. */
  lemma SelectBare(head: string, where: Option<string>, orderBy: Option<string>, limit: Option<int>)
    requires !GivenText(where) && !GivenText(orderBy) && !GivenNumber(limit)
    ensures head + SelectTail(where, orderBy, limit) == head
  {
    assert SelectTail(where, orderBy, limit) == [];
  }

  /** LIMIT, when given, ends the query. */
  lemma SelectLimitLast(head: string, where: Option<string>, orderBy: Option<string>, limit: Option<int>)
    requires GivenNumber(limit)
    ensures Text.EndsWith(head + SelectTail(where, orderBy, limit), " LIMIT " + Text.IntToString(limit.value))
  {
    LastPartEnds(head, Clause(" WHERE ", where), Clause(" ORDER BY ", orderBy), LimitClause(limit));
  }

  /** Without LIMIT, ORDER BY ends the query, when it is given. */
  lemma SelectOrderLast(head: string, where: Option<string>, orderBy: Option<string>, limit: Option<int>)
    requires !GivenNumber(limit) && GivenText(orderBy)
    ensures Text.EndsWith(head + SelectTail(where, orderBy, limit), " ORDER BY " + orderBy.value)
  {
    LastPartEnds(head, [], Clause(" WHERE ", where), Clause(" ORDER BY ", orderBy));
    assert SelectTail(where, orderBy, limit) == [] + Clause(" WHERE ", where) + Clause(" ORDER BY ", orderBy);
    GivenClause(" ORDER BY ", orderBy);
  }

  /** Without LIMIT and ORDER BY, WHERE ends the query, when it is given. */
  lemma SelectWhereLast(head: string, where: Option<string>, orderBy: Option<string>, limit: Option<int>)
    requires !GivenNumber(limit) && !GivenText(orderBy) && GivenText(where)
    ensures Text.EndsWith(head + SelectTail(where, orderBy, limit), " WHERE " + where.value)
  {
    LastPartEnds(head, [], [], Clause(" WHERE ", where));
    assert SelectTail(where, orderBy, limit) == [] + [] + Clause(" WHERE ", where);
    GivenClause(" WHERE ", where);
  }

  /** The panorama conditions, in the order state, first year, last year, each only when given. */
  function PanoramaConditions(estado: Option<string>, anoInicio: Option<int>, anoFim: Option<int>): (c: seq<string>)
    ensures |c| == (if GivenText(estado) then 1 else 0) + (if GivenNumber(anoInicio) then 1 else 0)
                   + (if GivenNumber(anoFim) then 1 else 0)
    ensures GivenText(estado) ==> c[0] == "sigla_uf = '" + estado.value + "'"
    ensures GivenNumber(anoInicio) ==> c[if GivenText(estado) then 1 else 0] == "ano >= " + Text.IntToString(anoInicio.value)
    ensures GivenNumber(anoFim) ==> c[|c| - 1] == "ano <= " + Text.IntToString(anoFim.value)
    ensures forall i | 0 <= i < |c| :: c[i] != ""
  {
    (if GivenText(estado) then ["sigla_uf = '" + estado.value + "'"] else [])
    + (if GivenNumber(anoInicio) then ["ano >= " + Text.IntToString(anoInicio.value)] else [])
    + (if GivenNumber(anoFim) then ["ano <= " + Text.IntToString(anoFim.value)] else [])
  }

  /**
   * The panorama query selects every column, has a WHERE exactly when some
   * condition is given, joining the conditions with AND, and always ends by
   * ordering on the year, newest first.
   */
  lemma PanoramaQueryShape(head: string, conditions: seq<string>)
    requires forall i | 0 <= i < |conditions| :: conditions[i] != ""
    ensures Text.EndsWith(head + SelectTail(PanoramaWhere(conditions), Some("ano DESC"), None), " ORDER BY ano DESC")
    ensures conditions == [] ==>
      head + SelectTail(PanoramaWhere(conditions), Some("ano DESC"), None) == head + " ORDER BY ano DESC"
    ensures conditions != [] ==>
      head + SelectTail(PanoramaWhere(conditions), Some("ano DESC"), None)
      == head + " WHERE " + Text.Join(" AND ", conditions) + " ORDER BY ano DESC"
  {
    JoinNonEmpty(" AND ", conditions);
    OrderedByYear(head, PanoramaWhere(conditions));
  }

  /** The same for the query `build_panorama_query` returns. */
  lemma BuildPanoramaQueryShape(b: Builder, table: string, estado: Option<string>, anoInicio: Option<int>,
                                anoFim: Option<int>)
    ensures Text.EndsWith(b.BuildPanoramaQuery(table, estado, anoInicio, anoFim), " ORDER BY ano DESC")
    ensures PanoramaConditions(estado, anoInicio, anoFim) != [] ==>
      b.BuildPanoramaQuery(table, estado, anoInicio, anoFim)
      == b.SelectHead([], table) + " WHERE " + Text.Join(" AND ", PanoramaConditions(estado, anoInicio, anoFim))
         + " ORDER BY ano DESC"
  {
    PanoramaQueryShape(b.SelectHead([], table), PanoramaConditions(estado, anoInicio, anoFim));
  }

  lemma OrderedByYear(head: string, where: Option<string>)
    ensures Text.EndsWith(head + SelectTail(where, Some("ano DESC"), None), " ORDER BY ano DESC")
    ensures where == None ==> head + SelectTail(where, Some("ano DESC"), None) == head + " ORDER BY ano DESC"
    ensures GivenText(where) ==>
      head + SelectTail(where, Some("ano DESC"), None) == head + " WHERE " + where.value + " ORDER BY ano DESC"
  {
    var order := " ORDER BY ano DESC";
    assert Clause(" ORDER BY ", Some("ano DESC")) == order;
    assert LimitClause(None) == "";
    var w := Clause(" WHERE ", where);
    var t := SelectTail(where, Some("ano DESC"), None);
    assert t == w + order;
    assert head + t == (head + w) + order;
    ConcatSuffix(head + w, order);
  }

  /** No character of `s` is a single quote. */
  predicate NoQuote(s: string) {
    forall i | 0 <= i < |s| :: s[i] != '\''
  }

  /** The position of the last single quote in `s`, or -1 when there is none. */
  function LastQuote(s: string): (i: int)
    ensures -1 <= i < |s|
  {
    if s == [] then -1
    else if s[|s| - 1] == '\'' then |s| - 1
    else LastQuote(s[..|s| - 1])
  }

  /** A quote followed by quote-free text is the last quote. */
  lemma {:induction false} LastQuoteOf(p: string, x: string)
    requires NoQuote(x)
    ensures LastQuote(p + "'" + x) == |p|
  {
    var s := p + "'" + x;
    if x != [] {
      assert s[..|s| - 1] == p + "'" + x[..|x| - 1];
      LastQuoteOf(p, x[..|x| - 1]);
    }
  }

  /** Text split at a single quote after which no quote follows splits in one way only. */
  lemma LastQuoteSplits(p1: string, x1: string, p2: string, x2: string)
    requires p1 + "'" + x1 == p2 + "'" + x2
    requires NoQuote(x1) && NoQuote(x2)
    ensures p1 == p2 && x1 == x2
  {
    var s := p1 + "'" + x1;
    LastQuoteOf(p1, x1);
    LastQuoteOf(p2, x2);
    assert p1 == s[..|p1|];
    assert p2 == s[..|p2|];
    assert x1 == s[|p1| + 1..];
    assert x2 == s[|p2| + 1..];
  }

  /**
   * The date-range filter loses nothing: when the dates hold no single quote,
   * the column and both dates can be read back from it.
   */
  lemma DateRangeFilterInjective(b: Builder, c1: string, s1: string, e1: string, c2: string, s2: string, e2: string)
    requires b.BuildDateRangeFilter(c1, s1, e1) == b.BuildDateRangeFilter(c2, s2, e2)
    requires NoQuote(s1) && NoQuote(e1) && NoQuote(s2) && NoQuote(e2)
    ensures c1 == c2 && s1 == s2 && e1 == e2
  {
    var a1, a2 := c1 + " BETWEEN '" + s1 + "' AND ", c2 + " BETWEEN '" + s2 + "' AND ";
    var r1, r2 := b.BuildDateRangeFilter(c1, s1, e1), b.BuildDateRangeFilter(c2, s2, e2);
    assert r1 == a1 + "'" + e1 + "'";
    assert r2 == a2 + "'" + e2 + "'";
    assert r1[..|r1| - 1] == a1 + "'" + e1;
    assert r2[..|r2| - 1] == a2 + "'" + e2;
    LastQuoteSplits(a1, e1, a2, e2);
    var h1, h2 := c1 + " BETWEEN ", c2 + " BETWEEN ";
    assert a1 == h1 + "'" + s1 + "' AND ";
    assert a2 == h2 + "'" + s2 + "' AND ";
    assert a1[..|a1| - 6] == h1 + "'" + s1;
    assert a2[..|a2| - 6] == h2 + "'" + s2;
    LastQuoteSplits(h1, s1, h2, s2);
    assert c1 == h1[..|c1|];
    assert c2 == h2[..|c2|];
  }

  /** The WHERE argument of the panorama query: the conditions joined by AND, if there are any. */
  function PanoramaWhere(conditions: seq<string>): Option<string> {
    if conditions != [] then Some(Text.Join(" AND ", conditions)) else None
  }

  /** Joining non-empty parts gives a non-empty text. */
  lemma {:induction false} JoinNonEmpty(sep: string, parts: seq<string>)
    requires forall i | 0 <= i < |parts| :: parts[i] != ""
    ensures parts != [] ==> Text.Join(sep, parts) != ""
  {
    if |parts| > 1 {
      JoinNonEmpty(sep, parts[1..]);
    }
  }

  /** The grouping columns lead the aggregation's select list, ahead of the metrics. */
  lemma GroupColumnsFirst(groupBy: seq<string>, metrics: seq<string>)
    requires groupBy != [] && metrics != []
    ensures Text.Join(", ", groupBy) + ", " <= Text.Join(", ", groupBy + metrics)
  {
    Text.JoinConcat(", ", groupBy, metrics);
  }

  /** A falsy argument is the same as leaving it out: `limit=0` adds no LIMIT, `where=""` no WHERE. */
  lemma FalsyArgumentsIgnored(b: Builder, table: string, columns: seq<string>, orderBy: Option<string>)
    ensures b.BuildSelect(table, columns, Some(""), orderBy, Some(0)) == b.BuildSelect(table, columns, None, orderBy, None)
  {
  }
}
