/**
 * The dashboard's filter panel: the Brazilian states grouped by region, the
 * filter selection, and `apply_filters`, which narrows a frame of rows to the
 * selection. A frame is its set of column names and its rows; a row carries
 * the four columns the filters read.
 */
module Filters {
  import opened Base
  import Seqs
  import Dict

  const ESTADOS_BR: seq<string> := [
    "AC", "AL", "AM", "AP", "BA", "CE", "DF", "ES", "GO", "MA",
    "MG", "MS", "MT", "PA", "PB", "PE", "PI", "PR", "RJ", "RN",
    "RO", "RR", "RS", "SC", "SE", "SP", "TO"
  ]

  const NORTE: seq<string> := ["AC", "AM", "AP", "PA", "RO", "RR", "TO"]
  const NORDESTE: seq<string> := ["AL", "BA", "CE", "MA", "PB", "PE", "PI", "RN", "SE"]
  const CENTRO_OESTE: seq<string> := ["DF", "GO", "MS", "MT"]
  const SUDESTE: seq<string> := ["ES", "MG", "RJ", "SP"]
  const SUL: seq<string> := ["PR", "RS", "SC"]

  /** `REGIOES_BR`, in its dict order. */
  const REGIOES_BR: seq<(string, seq<string>)> := [
    ("Norte", NORTE), ("Nordeste", NORDESTE), ("Centro-Oeste", CENTRO_OESTE),
    ("Sudeste", SUDESTE), ("Sul", SUL)
  ]

  /** No state is listed in both `a` and `b`. */
  predicate Disjoint(a: seq<string>, b: seq<string>) {
    forall i, j | 0 <= i < |a| && 0 <= j < |b| :: a[i] != b[j]
  }

  /** Each region lists only states. */
  lemma RegionsWithinStates()
    ensures forall i, x | 0 <= i < |REGIOES_BR| && x in REGIOES_BR[i].1 :: x in ESTADOS_BR
  {
    assert forall x | x in NORTE :: x in ESTADOS_BR;
    assert forall x | x in NORDESTE :: x in ESTADOS_BR;
    assert forall x | x in CENTRO_OESTE :: x in ESTADOS_BR;
    assert forall x | x in SUDESTE :: x in ESTADOS_BR;
    assert forall x | x in SUL :: x in ESTADOS_BR;
  }

  /** Each of the 27 states is in some region. */
  lemma StatesWithinRegions()
    ensures |ESTADOS_BR| == 27
    ensures forall x | x in ESTADOS_BR :: exists i | 0 <= i < |REGIOES_BR| :: x in REGIOES_BR[i].1
  {
    forall x | x in ESTADOS_BR ensures exists i | 0 <= i < |REGIOES_BR| :: x in REGIOES_BR[i].1 {
      assert x in NORTE || x in NORDESTE || x in CENTRO_OESTE || x in SUDESTE || x in SUL;
      if x in NORTE { assert x in REGIOES_BR[0].1; }
      else if x in NORDESTE { assert x in REGIOES_BR[1].1; }
      else if x in CENTRO_OESTE { assert x in REGIOES_BR[2].1; }
      else if x in SUDESTE { assert x in REGIOES_BR[3].1; }
      else { assert x in REGIOES_BR[4].1; }
    }
  }

  /** No two regions share a state. */
  lemma RegionsDisjoint()
    ensures forall i, j | 0 <= i < j < |REGIOES_BR| :: Disjoint(REGIOES_BR[i].1, REGIOES_BR[j].1)
  {
    assert Disjoint(NORTE, NORDESTE) && Disjoint(NORTE, CENTRO_OESTE) && Disjoint(NORTE, SUDESTE) && Disjoint(NORTE, SUL);
    assert Disjoint(NORDESTE, CENTRO_OESTE) && Disjoint(NORDESTE, SUDESTE) && Disjoint(NORDESTE, SUL);
    assert Disjoint(CENTRO_OESTE, SUDESTE) && Disjoint(CENTRO_OESTE, SUL);
    assert Disjoint(SUDESTE, SUL);
  }

  /** The regions partition the 27 states: a code is a state exactly when some region lists it, and no two regions do. */
  lemma RegionsPartitionStates(x: string)
    ensures |ESTADOS_BR| == 27
    ensures x in ESTADOS_BR <==> exists i | 0 <= i < |REGIOES_BR| :: x in REGIOES_BR[i].1
    ensures forall i, j | 0 <= i < j < |REGIOES_BR| :: !(x in REGIOES_BR[i].1 && x in REGIOES_BR[j].1)
  {
    RegionsWithinStates();
    StatesWithinRegions();
    RegionsDisjoint();
  }

  /** `FilterState` */
  datatype FilterState = FilterState(
    estados: seq<string>,
    regioes: seq<string>,
    dependencias: seq<string>,
    etapas: seq<string>,
    anoInicio: Option<int>,
    anoFim: Option<int>)

  /** A fresh `FilterState()`: nothing selected. */
  const DEFAULT_FILTERS: FilterState := FilterState([], [], [], [], None, None)

  /** A value of the dict `to_dict` returns. */
  datatype FilterValue = Names(names: seq<string>) | Year(year: Option<int>)

  /** `to_dict` */
  function ToDict(f: FilterState): (d: seq<(string, FilterValue)>)
    ensures Dict.Keys(d) == ["estados", "regioes", "dependencias", "etapas", "ano_inicio", "ano_fim"]
  {
    [("estados", Names(f.estados)), ("regioes", Names(f.regioes)),
     ("dependencias", Names(f.dependencias)), ("etapas", Names(f.etapas)),
     ("ano_inicio", Year(f.anoInicio)), ("ano_fim", Year(f.anoFim))]
  }

  /** Reads a filter selection back from its dict form. */
  function FromDict(d: seq<(string, FilterValue)>): Option<FilterState> {
    var e: Option<FilterValue> := Dict.Get(d, "estados");
    var r: Option<FilterValue> := Dict.Get(d, "regioes");
    var dp: Option<FilterValue> := Dict.Get(d, "dependencias");
    var et: Option<FilterValue> := Dict.Get(d, "etapas");
    var a: Option<FilterValue> := Dict.Get(d, "ano_inicio");
    var b: Option<FilterValue> := Dict.Get(d, "ano_fim");
    if e.Some? && e.value.Names? && r.Some? && r.value.Names? && dp.Some? && dp.value.Names?
       && et.Some? && et.value.Names? && a.Some? && a.value.Year? && b.Some? && b.value.Year?
    then Some(FilterState(e.value.names, r.value.names, dp.value.names, et.value.names, a.value.year, b.value.year))
    else None
  }

  /** The six keys of `to_dict` are distinct. */
  lemma ToDictUniqueKeys(f: FilterState)
    ensures Dict.UniqueKeys(ToDict(f))
  {
    var d := ToDict(f);
    forall i, j | 0 <= i < j < |d| ensures d[i].0 != d[j].0 {
      assert d[i].0[0] != d[j].0[0] || |d[i].0| != |d[j].0|;
    }
  }

  /** `to_dict` loses nothing: the six fields can be read back. */
  lemma ToDictRoundTrip(f: FilterState)
    ensures FromDict(ToDict(f)) == Some(f)
  {
    var d := ToDict(f);
    ToDictUniqueKeys(f);
    Dict.GetAt(d, 0);
    Dict.GetAt(d, 1);
    Dict.GetAt(d, 2);
    Dict.GetAt(d, 3);
    Dict.GetAt(d, 4);
    Dict.GetAt(d, 5);
  }

  /** A row of the filtered frame, reduced to the columns the filters read. */
  datatype Row = Row(siglaUf: string, dependenciaAdministrativa: string, etapaEnsino: string, ano: int)

  datatype Frame = Frame(columns: set<string>, rows: seq<Row>)

  /** Python truthiness of an optional year: `None` and `0` are false. */
  predicate Given(y: Option<int>) {
    y.Some? && y.value != 0
  }

  predicate FiltersUf(f: FilterState, columns: set<string>) { f.estados != [] && "sigla_uf" in columns }

  predicate FiltersDependencia(f: FilterState, columns: set<string>) {
    f.dependencias != [] && "dependencia_administrativa" in columns
  }

  predicate FiltersEtapa(f: FilterState, columns: set<string>) { f.etapas != [] && "etapa_ensino" in columns }

  predicate FiltersFrom(f: FilterState, columns: set<string>) { Given(f.anoInicio) && "ano" in columns }

  predicate FiltersTo(f: FilterState, columns: set<string>) { Given(f.anoFim) && "ano" in columns }

  function UfIn(f: FilterState): Row -> bool { (r: Row) => r.siglaUf in f.estados }

  function DependenciaIn(f: FilterState): Row -> bool { (r: Row) => r.dependenciaAdministrativa in f.dependencias }

  function EtapaIn(f: FilterState): Row -> bool { (r: Row) => r.etapaEnsino in f.etapas }

  function FromYear(f: FilterState): Row -> bool {
    (r: Row) => f.anoInicio.Some? && r.ano >= f.anoInicio.value
  }

  function ToYear(f: FilterState): Row -> bool {
    (r: Row) => f.anoFim.Some? && r.ano <= f.anoFim.value
  }

  /** The rows the first `k` steps of `apply_filters` let through: each active step's condition holds. */
  predicate PassesFirst(f: FilterState, columns: set<string>, k: nat, r: Row) {
    && (k >= 1 && FiltersUf(f, columns) ==> r.siglaUf in f.estados)
    && (k >= 2 && FiltersDependencia(f, columns) ==> r.dependenciaAdministrativa in f.dependencias)
    && (k >= 3 && FiltersEtapa(f, columns) ==> r.etapaEnsino in f.etapas)
    && (k >= 4 && FiltersFrom(f, columns) ==> r.ano >= f.anoInicio.value)
    && (k >= 5 && FiltersTo(f, columns) ==> r.ano <= f.anoFim.value)
  }

  function PassesFirstAt(f: FilterState, columns: set<string>, k: nat): Row -> bool {
    (r: Row) => PassesFirst(f, columns, k, r)
  }

  /** A row is kept when every active filter accepts it. */
  predicate Keeps(f: FilterState, columns: set<string>, r: Row) {
    PassesFirst(f, columns, 5, r)
  }

  /** One step of `apply_filters`: narrow by `p` when the step is active. */
  function Step(rows: seq<Row>, active: bool, p: Row -> bool): seq<Row> {
    if active then Seqs.Filter(rows, p) else rows
  }

  /** `apply_filters`: states, then administrative dependency, then stage, then the two year bounds. */
  function ApplyFilters(df: Frame, f: FilterState): (r: Frame)
    ensures r.columns == df.columns
    ensures |r.rows| <= |df.rows|
    ensures forall x | x in r.rows :: x in df.rows
  {
    var c := df.columns;
    var s1 := Step(df.rows, FiltersUf(f, c), UfIn(f));
    var s2 := Step(s1, FiltersDependencia(f, c), DependenciaIn(f));
    var s3 := Step(s2, FiltersEtapa(f, c), EtapaIn(f));
    var s4 := Step(s3, FiltersFrom(f, c), FromYear(f));
    var s5 := Step(s4, FiltersTo(f, c), ToYear(f));
    Frame(c, s5)
  }

  /** Each step keeps exactly the rows that pass one more condition. */
  lemma StepPasses(src: seq<Row>, rows: seq<Row>, f: FilterState, c: set<string>, k: nat, active: bool, p: Row -> bool)
    requires 1 <= k <= 5
    requires rows == Seqs.Filter(src, PassesFirstAt(f, c, k - 1))
    requires forall r :: PassesFirst(f, c, k, r) == (PassesFirst(f, c, k - 1, r) && (active ==> p(r)))
    ensures Step(rows, active, p) == Seqs.Filter(src, PassesFirstAt(f, c, k))
  {
    if active {
      Seqs.FilterThen(src, PassesFirstAt(f, c, k - 1), p, PassesFirstAt(f, c, k));
    } else {
      Seqs.FilterSame(src, PassesFirstAt(f, c, k - 1), PassesFirstAt(f, c, k));
    }
  }

  /** `apply_filters` is a single order-keeping filter by `Keeps`. */
  lemma ApplyFiltersIsFilter(df: Frame, f: FilterState)
    ensures ApplyFilters(df, f).columns == df.columns
    ensures ApplyFilters(df, f).rows == Seqs.Filter(df.rows, PassesFirstAt(f, df.columns, 5))
  {
    var c := df.columns;
    var src := df.rows;
    Seqs.FilterAll(src, PassesFirstAt(f, c, 0));
    StepPasses(src, src, f, c, 1, FiltersUf(f, c), UfIn(f));
    var s1 := Step(src, FiltersUf(f, c), UfIn(f));
    StepPasses(src, s1, f, c, 2, FiltersDependencia(f, c), DependenciaIn(f));
    var s2 := Step(s1, FiltersDependencia(f, c), DependenciaIn(f));
    StepPasses(src, s2, f, c, 3, FiltersEtapa(f, c), EtapaIn(f));
    var s3 := Step(s2, FiltersEtapa(f, c), EtapaIn(f));
    StepPasses(src, s3, f, c, 4, FiltersFrom(f, c), FromYear(f));
    var s4 := Step(s3, FiltersFrom(f, c), FromYear(f));
    StepPasses(src, s4, f, c, 5, FiltersTo(f, c), ToYear(f));
  }

  /**
   * The filtered rows are rows of the input in their order, and a row is kept
   * exactly when every active filter accepts it.
   */
  lemma ApplyFiltersKeeps(df: Frame, f: FilterState)
    ensures Seqs.IsSubsequence(ApplyFilters(df, f).rows, df.rows)
    ensures forall r :: r in ApplyFilters(df, f).rows <==> r in df.rows && Keeps(f, df.columns, r)
  {
    ApplyFiltersIsFilter(df, f);
    Seqs.FilterIsSubsequence(df.rows, PassesFirstAt(f, df.columns, 5));
  }

  /** With nothing selected the frame comes back unchanged. */
  lemma DefaultFiltersKeepAll(df: Frame)
    ensures ApplyFilters(df, DEFAULT_FILTERS) == df
  {
  }

  /** The selected regions play no part in `apply_filters`; only the states do. */
  lemma ApplyFiltersIgnoresRegions(df: Frame, f: FilterState, regioes: seq<string>)
    ensures ApplyFilters(df, f.(regioes := regioes)) == ApplyFilters(df, f)
  {
    var g := f.(regioes := regioes);
    assert UfIn(g) == UfIn(f) && DependenciaIn(g) == DependenciaIn(f) && EtapaIn(g) == EtapaIn(f);
    assert FromYear(g) == FromYear(f) && ToYear(g) == ToYear(f);
  }
}
