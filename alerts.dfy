/**
 * Threshold alerts: a rule compares one metric against a limit and, when its
 * condition holds, raises an alert; the manager evaluates its rules over a
 * dictionary of metrics and keeps the active alerts and the acknowledged ones.
 */
module Alerts {
  import opened Base
  import Seqs

  /**
   * `Alert`. The formatted message is not modelled; `createdAt` is the
   * clock reading at evaluation.
   */
  datatype Alert = Alert(
    level: string,
    title: string,
    metric: string,
    threshold: real,
    currentValue: real,
    createdAt: int,
    acknowledged: bool)
  {
    /** `is_critical` */
    predicate IsCritical() {
      level == "critico"
    }

    /** `deviation` before rounding: the distance from the threshold in percent of it. */
    function Deviation(): (r: real)
      ensures threshold == 0.0 ==> r == 0.0
      ensures threshold != 0.0 ==> (r == 0.0 <==> currentValue == threshold)
      ensures threshold > 0.0 ==> (r > 0.0 <==> currentValue > threshold)
      ensures threshold < 0.0 ==> (r > 0.0 <==> currentValue < threshold)
    {
      if threshold == 0.0 then 0.0
      else
        var q := (currentValue - threshold) / threshold;
        assert q * threshold == currentValue - threshold;
        q * 100.0
    }
  }

  /** `AlertRule` */
  datatype AlertRule = AlertRule(
    metric: string,
    condition: string,
    threshold: real,
    level: string,
    messageTemplate: string)

  /** The comparison `evaluate` makes; a condition other than the three named ones never holds. */
  predicate Triggers(rule: AlertRule, value: real) {
    || (rule.condition == "abaixo" && value < rule.threshold)
    || (rule.condition == "acima" && value > rule.threshold)
    || (rule.condition == "igual" && value == rule.threshold)
  }

  /** `AlertRule.evaluate` at time `now`. */
  function Evaluate(rule: AlertRule, value: real, now: int): (r: Option<Alert>)
    ensures r.Some? <==> Triggers(rule, value)
    ensures r.Some? ==>
      && r.value.level == rule.level
      && r.value.title == "Alerta: " + rule.metric
      && r.value.metric == rule.metric
      && r.value.threshold == rule.threshold
      && r.value.currentValue == value
      && r.value.createdAt == now
      && !r.value.acknowledged
  {
    if Triggers(rule, value) then
      Some(Alert(rule.level, "Alerta: " + rule.metric, rule.metric, rule.threshold, value, now, false))
    else None
  }

  /** A rule triggers on at most one side of its threshold, and never with an unknown condition. */
  lemma TriggerSides(rule: AlertRule, value: real)
    ensures Triggers(rule, value) ==> rule.condition in ["abaixo", "acima", "igual"]
    ensures Triggers(rule, value) && rule.condition == "abaixo" ==> value < rule.threshold
    ensures Triggers(rule, value) && rule.condition == "acima" ==> value > rule.threshold
    ensures value == rule.threshold ==> (Triggers(rule, value) <==> rule.condition == "igual")
  {
  }

  /** The alerts `evaluate_all` raises, in rule order; rules whose metric is missing are skipped. */
  function Fired(rules: seq<AlertRule>, metrics: map<string, real>, now: int): (r: seq<Alert>)
    ensures |r| <= |rules|
  {
    if rules == [] then []
    else
      var front := Fired(rules[..|rules| - 1], metrics, now);
      var rule := rules[|rules| - 1];
      if rule.metric in metrics then
        match Evaluate(rule, metrics[rule.metric], now)
          case Some(a) => front + [a]
          case None => front
      else front
  }

  /** Every alert raised comes from a rule whose metric is present and whose condition holds. */
  lemma {:induction false} FiredSound(rules: seq<AlertRule>, metrics: map<string, real>, now: int)
    ensures forall a | a in Fired(rules, metrics, now) :: exists i | 0 <= i < |rules| ::
      rules[i].metric in metrics && Evaluate(rules[i], metrics[rules[i].metric], now) == Some(a)
  {
    if rules != [] {
      var front := rules[..|rules| - 1];
      FiredSound(front, metrics, now);
      forall a | a in Fired(rules, metrics, now)
        ensures exists i | 0 <= i < |rules| ::
          rules[i].metric in metrics && Evaluate(rules[i], metrics[rules[i].metric], now) == Some(a)
      {
        if a in Fired(front, metrics, now) {
          var i :| 0 <= i < |front| && front[i].metric in metrics
            && Evaluate(front[i], metrics[front[i].metric], now) == Some(a);
          assert rules[i] == front[i];
        } else {
          assert Evaluate(rules[|rules| - 1], metrics[rules[|rules| - 1].metric], now) == Some(a);
        }
      }
    }
  }

  /** Every rule whose metric is present and whose condition holds contributes its alert. */
  lemma {:induction false} FiredComplete(rules: seq<AlertRule>, metrics: map<string, real>, now: int, i: int)
    requires 0 <= i < |rules|
    requires rules[i].metric in metrics && Triggers(rules[i], metrics[rules[i].metric])
    ensures Evaluate(rules[i], metrics[rules[i].metric], now).value in Fired(rules, metrics, now)
  {
    if i < |rules| - 1 {
      var front := rules[..|rules| - 1];
      assert front[i] == rules[i];
      FiredComplete(front, metrics, now, i);
    }
  }

  /** Adding a rule at the end can only add its own alert at the end. */
  lemma FiredAppend(rules: seq<AlertRule>, rule: AlertRule, metrics: map<string, real>, now: int)
    ensures Fired(rules + [rule], metrics, now) ==
      Fired(rules, metrics, now) +
      (if rule.metric in metrics && Triggers(rule, metrics[rule.metric])
       then [Evaluate(rule, metrics[rule.metric], now).value] else [])
  {
    assert (rules + [rule])[..|rules|] == rules;
  }

  /** One more rule in the loop of `evaluate_all` adds what it raises, if anything. */
  lemma FiredStep(rules: seq<AlertRule>, rule: AlertRule, metrics: map<string, real>, now: int, step: seq<Alert>)
    requires step == if rule.metric in metrics && Evaluate(rule, metrics[rule.metric], now).Some?
      then [Evaluate(rule, metrics[rule.metric], now).value] else []
    ensures Fired(rules + [rule], metrics, now) == Fired(rules, metrics, now) + step
  {
    FiredAppend(rules, rule, metrics, now);
  }

  /** The position of the first element equal to `x`. */
  function IndexOf<T(==)>(s: seq<T>, x: T): (i: nat)
    requires x in s
    ensures i < |s| && s[i] == x && x !in s[..i]
  {
    if s[0] == x then 0
    else
      var j := IndexOf(s[1..], x);
      assert s[..j + 1] == [s[0]] + s[1..][..j];
      j + 1
  }

  /** `list.remove(x)` guarded by `x in list`: drops the first element equal to `x`. */
  function RemoveFirst<T(==)>(s: seq<T>, x: T): (r: seq<T>)
    ensures x !in s ==> r == s
    ensures x in s ==> r == s[..IndexOf(s, x)] + s[IndexOf(s, x) + 1..]
    ensures x in s ==> |r| == |s| - 1 && multiset(r) == multiset(s) - multiset{x}
  {
    if x in s then
      var i := IndexOf(s, x);
      assert s == s[..i] + [x] + s[i + 1..];
      s[..i] + s[i + 1..]
    else s
  }

  predicate IsCritico(a: Alert) { a.level == "critico" }

  predicate IsAviso(a: Alert) { a.level == "aviso" }

  predicate IsInfo(a: Alert) { a.level == "info" }

  /** `get_active_count`: the alerts of each known level. */
  datatype LevelCounts = LevelCounts(critico: nat, aviso: nat, info: nat)

  /** The three levels are distinct, so their counts together never exceed the list. */
  lemma {:induction false} LevelCountsBound(s: seq<Alert>)
    ensures Seqs.Count(s, IsCritico) + Seqs.Count(s, IsAviso) + Seqs.Count(s, IsInfo) <= |s|
  {
    if s != [] {
      LevelCountsBound(s[..|s| - 1]);
      assert s == s[..|s| - 1] + [s[|s| - 1]];
      Seqs.CountAppend(s[..|s| - 1], s[|s| - 1], IsCritico);
      Seqs.CountAppend(s[..|s| - 1], s[|s| - 1], IsAviso);
      Seqs.CountAppend(s[..|s| - 1], s[|s| - 1], IsInfo);
    }
  }

  /** The three rules `setup_default_rules` installs. */
  const DEFAULT_RULES: seq<AlertRule> := [
    AlertRule("taxa_aprovacao", "abaixo", 85.0, "critico",
      "Taxa de aprovacao em {value:.1f}% (limiar: {threshold:.1f}%)"),
    AlertRule("taxa_abandono", "acima", 5.0, "aviso",
      "Taxa de abandono em {value:.1f}% (limiar: {threshold:.1f}%)"),
    AlertRule("ideb", "abaixo", 4.0, "critico",
      "IDEB em {value:.1f} (limiar: {threshold:.1f})")
  ]

  /** The metrics of the end-to-end scenario: every default rule fires on them. */
  const SCENARIO_METRICS: map<string, real> := map["taxa_aprovacao" := 80.0, "taxa_abandono" := 6.0, "ideb" := 3.5]

  /** Each default rule finds its metric in the scenario and triggers. */
  lemma DefaultRulesTrigger(i: int)
    requires 0 <= i < |DEFAULT_RULES|
    ensures DEFAULT_RULES[i].metric in SCENARIO_METRICS
    ensures Triggers(DEFAULT_RULES[i], SCENARIO_METRICS[DEFAULT_RULES[i].metric])
  {
  }

  /** The end-to-end scenario: all three default rules fire, two of them critical. */
  lemma DefaultRulesScenario(now: int)
    ensures |Fired(DEFAULT_RULES, SCENARIO_METRICS, now)| == 3
    ensures Seqs.Count(Fired(DEFAULT_RULES, SCENARIO_METRICS, now), IsCritico) == 2
  {
    var m := SCENARIO_METRICS;
    var r0, r1, r2 := DEFAULT_RULES[0], DEFAULT_RULES[1], DEFAULT_RULES[2];
    DefaultRulesTrigger(0);
    DefaultRulesTrigger(1);
    DefaultRulesTrigger(2);
    var a0 := Evaluate(r0, m[r0.metric], now).value;
    var a1 := Evaluate(r1, m[r1.metric], now).value;
    var a2 := Evaluate(r2, m[r2.metric], now).value;
    FiredAppend([], r0, m, now);
    assert [] + [r0] == [r0];
    assert Fired([r0], m, now) == [a0];
    FiredAppend([r0], r1, m, now);
    assert [r0] + [r1] == [r0, r1];
    assert Fired([r0, r1], m, now) == [a0, a1];
    FiredAppend([r0, r1], r2, m, now);
    assert [r0, r1] + [r2] == DEFAULT_RULES;
    assert Fired(DEFAULT_RULES, m, now) == [a0, a1] + [a2];
    Seqs.CountAppend([a0], a1, IsCritico);
    assert [a0] + [a1] == [a0, a1];
    Seqs.CountAppend([a0, a1], a2, IsCritico);
  }

  /** Acknowledging the one alert an `acima` rule raised leaves no active alert. */
  lemma AcknowledgeScenario(now: int)
    ensures var fired := Fired([AlertRule("test", "acima", 50.0, "aviso", "")], map["test" := 60.0], now);
      |fired| == 1 && RemoveFirst(fired, fired[0]) == []
  {
    var rule := AlertRule("test", "acima", 50.0, "aviso", "");
    FiredAppend([], rule, map["test" := 60.0], now);
    assert [] + [rule] == [rule];
  }

  /** `AlertManager` */
  class AlertManager {
    var rules: seq<AlertRule>
    var activeAlerts: seq<Alert>
    var history: seq<Alert>

    constructor()
      ensures rules == [] && activeAlerts == [] && history == []
    {
      rules := [];
      activeAlerts := [];
      history := [];
    }

    method AddRule(rule: AlertRule)
      modifies this
      ensures rules == old(rules) + [rule]
      ensures activeAlerts == old(activeAlerts) && history == old(history)
    {
      rules := rules + [rule];
    }

    /** `evaluate_all`: the new alerts are returned and appended to the active ones. */
    method EvaluateAll(metrics: map<string, real>, now: int) returns (newAlerts: seq<Alert>)
      modifies this
      ensures newAlerts == Fired(rules, metrics, now)
      ensures activeAlerts == old(activeAlerts) + newAlerts
      ensures rules == old(rules) && history == old(history)
    {
      newAlerts := [];
      var rs := rules;
      var i := 0;
      while i < |rs|
        invariant 0 <= i <= |rs|
        invariant rules == rs && history == old(history)
        invariant newAlerts == Fired(rs[..i], metrics, now)
        invariant activeAlerts == old(activeAlerts) + newAlerts
      {
        var rule := rs[i];
        var step: seq<Alert> := [];
        if rule.metric in metrics {
          var alert := Evaluate(rule, metrics[rule.metric], now);
          if alert.Some? {
            step := [alert.value];
          }
        }
        assert rs[..i + 1] == rs[..i] + [rule];
        FiredStep(rs[..i], rule, metrics, now, step);
        newAlerts := newAlerts + step;
        activeAlerts := activeAlerts + step;
        i := i + 1;
      }
      assert rs[..i] == rs;
    }

    /**
     * `acknowledge`: the alert, marked acknowledged, always goes to the
     * history, and the first equal active alert is withdrawn.
     */
    method Acknowledge(alert: Alert)
      modifies this
      ensures history == old(history) + [alert.(acknowledged := true)]
      ensures activeAlerts == RemoveFirst(old(activeAlerts), alert)
      ensures rules == old(rules)
    {
      history := history + [alert.(acknowledged := true)];
      if alert in activeAlerts {
        activeAlerts := RemoveFirst(activeAlerts, alert);
      }
    }

    /** `get_active_count`: alerts of any other level are not counted. */
    method GetActiveCount() returns (counts: LevelCounts)
      ensures counts.critico == Seqs.Count(activeAlerts, IsCritico)
      ensures counts.aviso == Seqs.Count(activeAlerts, IsAviso)
      ensures counts.info == Seqs.Count(activeAlerts, IsInfo)
      ensures counts.critico + counts.aviso + counts.info <= |activeAlerts|
    {
      counts := LevelCounts(0, 0, 0);
      var i := 0;
      while i < |activeAlerts|
        invariant 0 <= i <= |activeAlerts|
        invariant counts.critico == Seqs.Count(activeAlerts[..i], IsCritico)
        invariant counts.aviso == Seqs.Count(activeAlerts[..i], IsAviso)
        invariant counts.info == Seqs.Count(activeAlerts[..i], IsInfo)
      {
        var a := activeAlerts[i];
        assert activeAlerts[..i + 1] == activeAlerts[..i] + [a];
        Seqs.CountAppend(activeAlerts[..i], a, IsCritico);
        Seqs.CountAppend(activeAlerts[..i], a, IsAviso);
        Seqs.CountAppend(activeAlerts[..i], a, IsInfo);
        if a.level == "critico" {
          counts := counts.(critico := counts.critico + 1);
        } else if a.level == "aviso" {
          counts := counts.(aviso := counts.aviso + 1);
        } else if a.level == "info" {
          counts := counts.(info := counts.info + 1);
        }
        i := i + 1;
      }
      assert activeAlerts[..i] == activeAlerts;
      LevelCountsBound(activeAlerts);
    }

    method SetupDefaultRules()
      modifies this
      ensures rules == old(rules) + DEFAULT_RULES
      ensures activeAlerts == old(activeAlerts) && history == old(history)
    {
      var i := 0;
      while i < |DEFAULT_RULES|
        invariant 0 <= i <= |DEFAULT_RULES|
        invariant rules == old(rules) + DEFAULT_RULES[..i]
        invariant activeAlerts == old(activeAlerts) && history == old(history)
      {
        assert DEFAULT_RULES[..i + 1] == DEFAULT_RULES[..i] + [DEFAULT_RULES[i]];
        AddRule(DEFAULT_RULES[i]);
        i := i + 1;
      }
    }
  }
}
