/**
 * National benchmarks for the education indicators and the position of a
 * value against them. A benchmark gives the PNE target, the national average
 * and the top-10% mark. The rounding of the two gaps to two decimal places
 * is not modelled.
 */
module Benchmarks {
  datatype Benchmark = Benchmark(metaPne: real, mediaNacional: real, top10: real)

  /** `NATIONAL_BENCHMARKS`, in its dict order. */
  const NATIONAL_BENCHMARKS: seq<(string, Benchmark)> := [
    ("taxa_aprovacao", Benchmark(95.0, 92.3, 97.5)),
    ("taxa_reprovacao", Benchmark(2.0, 4.1, 1.5)),
    ("taxa_abandono", Benchmark(0.5, 1.8, 0.3)),
    ("ideb", Benchmark(6.0, 5.4, 7.2))
  ]

  /** The four positions, from worst to best. */
  datatype Position = Abaixo | AcimaMedia | AcimaMeta | Top10
  {
    function Rank(): (n: nat)
      ensures n <= 3
    {
      match this
      case Abaixo => 0
      case AcimaMedia => 1
      case AcimaMeta => 2
      case Top10 => 3
    }
  }

  /** The dict `calculate_benchmark_position` returns, before rounding. */
  datatype BenchmarkPosition = BenchmarkPosition(posicao: Position, gapMeta: real, distanciaMedia: real)

  /** The marks run upwards: national average, then target, then top 10%. */
  predicate HigherIsBetter(b: Benchmark) {
    b.mediaNacional <= b.metaPne <= b.top10
  }

  /** The marks run downwards: for rates of failure the top 10% have the lowest value. */
  predicate LowerIsBetter(b: Benchmark) {
    b.top10 <= b.metaPne <= b.mediaNacional
  }

  /** The position as the code computes it: every benchmark is read as if higher were better. */
  function Classify(value: real, b: Benchmark): (p: Position)
    ensures p == Top10 <==> value >= b.top10
    ensures p == AcimaMeta <==> value < b.top10 && value >= b.metaPne
    ensures p == AcimaMedia <==> value < b.top10 && value < b.metaPne && value >= b.mediaNacional
    ensures p == Abaixo <==> value < b.top10 && value < b.metaPne && value < b.mediaNacional
  {
    if value >= b.top10 then Top10
    else if value >= b.metaPne then AcimaMeta
    else if value >= b.mediaNacional then AcimaMedia
    else Abaixo
  }

  /** `calculate_benchmark_position` as written. */
  function CalculateBenchmarkPosition(value: real, b: Benchmark): (r: BenchmarkPosition)
    ensures r.posicao == Classify(value, b)
    ensures r.gapMeta + r.distanciaMedia == b.metaPne - b.mediaNacional
    ensures r.gapMeta <= 0.0 <==> value >= b.metaPne
    ensures r.distanciaMedia >= 0.0 <==> value >= b.mediaNacional
  {
    BenchmarkPosition(Classify(value, b), b.metaPne - value, value - b.mediaNacional)
  }

  /** For a higher-is-better benchmark a larger value never gets a worse position. */
  lemma PositionMonotone(b: Benchmark, v1: real, v2: real)
    requires HigherIsBetter(b) && v1 <= v2
    ensures Classify(v1, b).Rank() <= Classify(v2, b).Rank()
  {
  }

  /** For a higher-is-better benchmark each position is exactly a band of values. */
  lemma PositionBands(b: Benchmark, value: real)
    requires HigherIsBetter(b)
    ensures Classify(value, b) == AcimaMeta <==> b.metaPne <= value < b.top10
    ensures Classify(value, b) == AcimaMedia <==> b.mediaNacional <= value < b.metaPne
    ensures Classify(value, b) == Abaixo <==> value < b.mediaNacional
  {
  }

  /** The approval rate and IDEB run upwards; the failure and dropout rates run downwards. */
  lemma BenchmarkDirections()
    ensures |NATIONAL_BENCHMARKS| == 4
    ensures NATIONAL_BENCHMARKS[0].0 == "taxa_aprovacao" && HigherIsBetter(NATIONAL_BENCHMARKS[0].1)
    ensures NATIONAL_BENCHMARKS[1].0 == "taxa_reprovacao" && LowerIsBetter(NATIONAL_BENCHMARKS[1].1)
    ensures NATIONAL_BENCHMARKS[2].0 == "taxa_abandono" && LowerIsBetter(NATIONAL_BENCHMARKS[2].1)
    ensures NATIONAL_BENCHMARKS[3].0 == "ideb" && HigherIsBetter(NATIONAL_BENCHMARKS[3].1)
  {
  }

  /**
   * On a lower-is-better benchmark the code ranks any value at or above the
   * top-10% mark as top 10%: a failure rate of 10%, well above the national
   * average of 4.1%, comes out as top 10%.
   */
  lemma FailureRateMisclassified()
    ensures NATIONAL_BENCHMARKS[1].0 == "taxa_reprovacao"
    ensures 10.0 > NATIONAL_BENCHMARKS[1].1.mediaNacional
    ensures Classify(10.0, NATIONAL_BENCHMARKS[1].1) == Top10
  {
  }

  /** The same on any lower-is-better benchmark: every value worse than the average is top 10%. */
  lemma LowerIsBetterInverted(b: Benchmark, value: real)
    requires LowerIsBetter(b) && value > b.mediaNacional
    ensures Classify(value, b) == Top10
  {
  }

  /** Whether a metric counts failures, so that lower values are better. */
  predicate IsLowerBetterMetric(metric: string) {
    metric == "taxa_reprovacao" || metric == "taxa_abandono"
  }

  /**
   * The position read in the metric's own direction: for a lower-is-better
   * metric a value must be at or below a mark to reach it.
   */
  function DirectedPosition(value: real, b: Benchmark, lowerIsBetter: bool): (p: Position)
    ensures !lowerIsBetter ==> p == Classify(value, b)
    ensures lowerIsBetter ==> (p == Top10 <==> value <= b.top10)
    ensures lowerIsBetter ==> (p == AcimaMeta <==> value > b.top10 && value <= b.metaPne)
    ensures lowerIsBetter ==> (p == AcimaMedia <==> value > b.top10 && value > b.metaPne && value <= b.mediaNacional)
    ensures lowerIsBetter ==> (p == Abaixo <==> value > b.top10 && value > b.metaPne && value > b.mediaNacional)
  {
    if !lowerIsBetter then Classify(value, b)
    else if value <= b.top10 then Top10
    else if value <= b.metaPne then AcimaMeta
    else if value <= b.mediaNacional then AcimaMedia
    else Abaixo
  }

  /**
   * The position of a named metric's value, direction included: an upward
   * metric gets exactly what `calculate_benchmark_position` gives, and for
   * every metric the two gaps keep their meaning.
   */
  function CalculateMetricPosition(metric: string, value: real, b: Benchmark): (r: BenchmarkPosition)
    ensures !IsLowerBetterMetric(metric) ==> r == CalculateBenchmarkPosition(value, b)
    ensures IsLowerBetterMetric(metric) ==> r.posicao == DirectedPosition(value, b, true)
    ensures r.gapMeta + r.distanciaMedia == b.metaPne - b.mediaNacional
    ensures r.gapMeta <= 0.0 <==> value >= b.metaPne
    ensures r.distanciaMedia >= 0.0 <==> value >= b.mediaNacional
  {
    BenchmarkPosition(DirectedPosition(value, b, IsLowerBetterMetric(metric)), b.metaPne - value, value - b.mediaNacional)
  }

  /**
   * Read in its own direction, a lower-is-better benchmark ranks values the
   * right way round: a smaller value never gets a worse position, and a value
   * worse than the national average is below it.
   */
  lemma DirectedPositionMonotone(b: Benchmark, v1: real, v2: real)
    requires LowerIsBetter(b) && v1 <= v2
    ensures DirectedPosition(v2, b, true).Rank() <= DirectedPosition(v1, b, true).Rank()
    ensures v2 > b.mediaNacional ==> DirectedPosition(v2, b, true) == Abaixo
  {
  }

  /** Every national benchmark is read in its own direction: the failure rate of 10% is below the average. */
  lemma NationalBenchmarksDirected(i: nat, v1: real, v2: real)
    requires i < |NATIONAL_BENCHMARKS| && v1 <= v2
    ensures var (metric, b) := NATIONAL_BENCHMARKS[i];
      && (IsLowerBetterMetric(metric) ==>
            CalculateMetricPosition(metric, v2, b).posicao.Rank() <= CalculateMetricPosition(metric, v1, b).posicao.Rank())
      && (!IsLowerBetterMetric(metric) ==>
            CalculateMetricPosition(metric, v1, b).posicao.Rank() <= CalculateMetricPosition(metric, v2, b).posicao.Rank())
    ensures CalculateMetricPosition("taxa_reprovacao", 10.0, NATIONAL_BENCHMARKS[1].1).posicao == Abaixo
  {
    BenchmarkDirections();
    var (metric, b) := NATIONAL_BENCHMARKS[i];
    if IsLowerBetterMetric(metric) {
      DirectedPositionMonotone(b, v1, v2);
    } else {
      PositionMonotone(b, v1, v2);
    }
  }
}
