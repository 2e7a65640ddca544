/**
 * `LazyDataLoader`: named loaders whose results are memoised on first use,
 * with a load state per key. A loader is an opaque handle `L`; calling it is
 * the parameter `run`, which either returns a value or raises.
 */
module LazyLoader {
  import opened Base
  import Pagination

  datatype LoadState = Pending | Loading | Loaded | Error {
    /** The enum's string value, as `get_all_states` reports it. */
    function Value(): (s: string)
      ensures |s| >= 5
    {
      match this
      case Pending => "pending"
      case Loading => "loading"
      case Loaded => "loaded"
      case Error => "error"
    }
  }

  lemma LoadStateValueInjective(a: LoadState, b: LoadState)
    ensures a.Value() == b.Value() <==> a == b
  {
    if a != b {
      assert a.Value()[0] != b.Value()[0] || a.Value()[4] != b.Value()[4];
    }
  }

  /** What calling a loader does: return a value or raise. */
  datatype Outcome<V> = Returns(value: V) | Raises

  /** The three dicts `_loaders`, `_data` and `_states`. */
  datatype Registry<L, V> = Registry(loaders: map<string, L>, data: map<string, V>, states: map<string, LoadState>)
  {
    /**
     * What every public operation keeps: memoised data only for registered
     * keys, a state for every registered key, LOADED only with data, and no
     * key left LOADING.
     */
    ghost predicate Valid() {
      && data.Keys <= loaders.Keys
      && loaders.Keys <= states.Keys
      && (forall k | k in states && states[k] == Loaded :: k in data)
      && (forall k | k in states :: states[k] != Loading)
    }
  }

  /** `register`: the loader is (re)placed and the key is PENDING; memoised data stays. */
  function AfterRegister<L, V>(r: Registry<L, V>, key: string, loader: L): Registry<L, V> {
    r.(loaders := r.loaders[key := loader], states := r.states[key := Pending])
  }

  /** `_load` once the loader has produced `out`: the state after it and the value returned. */
  function AfterLoad<L, V>(r: Registry<L, V>, key: string, out: Outcome<V>): (Registry<L, V>, Option<V>) {
    match out
    case Returns(v) => (r.(data := r.data[key := v], states := r.states[key := Loaded]), Some(v))
    case Raises => (r.(states := r.states[key := Error]), None)
  }

  /** The result of `get`: the state after it, the value returned, and whether a loader ran. */
  datatype Fetch<L, V> = Fetch(after: Registry<L, V>, value: Option<V>, invoked: bool)

  function Fetched<L, V>(r: Registry<L, V>, key: string, run: L -> Outcome<V>): Fetch<L, V> {
    if key in r.data then Fetch(r, Some(r.data[key]), false)
    else if key !in r.loaders then Fetch(r, None, false)
    else
      var (after, v) := AfterLoad(r, key, run(r.loaders[key]));
      Fetch(after, v, true)
  }

  /** `invalidate`: forget the data and mark the key PENDING, registered or not. */
  function AfterInvalidate<L, V>(r: Registry<L, V>, key: string): Registry<L, V> {
    r.(data := r.data - {key}, states := r.states[key := Pending])
  }

  /** `get_state`: a key without a state is PENDING. */
  function StateOf<L, V>(r: Registry<L, V>, key: string): LoadState {
    if key in r.states then r.states[key] else Pending
  }

  /** The state `preload` reports: a key without a state is ERROR. */
  function ReportedState<L, V>(r: Registry<L, V>, key: string): LoadState {
    if key in r.states then r.states[key] else Error
  }

  /** `preload`: `get` each key in turn, recording the state each one is left in. */
  function Preloaded<L, V>(r: Registry<L, V>, keys: seq<string>, run: L -> Outcome<V>)
    : (Registry<L, V>, map<string, LoadState>)
  {
    if keys == [] then (r, map[])
    else
      var (before, results) := Preloaded(r, keys[..|keys| - 1], run);
      var key := keys[|keys| - 1];
      var after := Fetched(before, key, run).after;
      (after, results[key := ReportedState(after, key)])
  }

  /** `get_all_states` */
  function AllStates<L, V>(r: Registry<L, V>): (m: map<string, string>)
    ensures m.Keys == r.states.Keys
    ensures forall k | k in m :: m[k] == r.states[k].Value()
  {
    map k | k in r.states :: r.states[k].Value()
  }

  /** The keys `loaded_count` counts. */
  function LoadedKeys<L, V>(r: Registry<L, V>): set<string> {
    set k | k in r.states && r.states[k] == Loaded
  }

  // ---- properties of the operations ----

  lemma RegisterKeepsValid<L, V>(r: Registry<L, V>, key: string, loader: L)
    requires r.Valid()
    ensures AfterRegister(r, key, loader).Valid()
    ensures StateOf(AfterRegister(r, key, loader), key) == Pending
  {
  }

  /**
   * Re-registering a loaded key keeps its data: the state reads PENDING, yet
   * the next `get` returns the old value without calling the new loader.
   */
  lemma ReRegisterServesOldData<L, V>(r: Registry<L, V>, key: string, loader: L, run: L -> Outcome<V>)
    requires key in r.data
    ensures StateOf(AfterRegister(r, key, loader), key) == Pending
    ensures Fetched(AfterRegister(r, key, loader), key, run)
         == Fetch(AfterRegister(r, key, loader), Some(r.data[key]), false)
  {
  }

  /** `get` of memoised data returns it, runs no loader and changes nothing. */
  lemma GetMemoised<L, V>(r: Registry<L, V>, key: string, run: L -> Outcome<V>)
    requires key in r.data
    ensures Fetched(r, key, run) == Fetch(r, Some(r.data[key]), false)
  {
  }

  /** `get` of a key with neither data nor loader returns nothing and changes nothing. */
  lemma GetUnknown<L, V>(r: Registry<L, V>, key: string, run: L -> Outcome<V>)
    requires key !in r.data && key !in r.loaders
    ensures Fetched(r, key, run) == Fetch(r, None, false)
  {
  }

  /**
   * A load that returns memoises the value and marks LOADED; one that raises
   * marks ERROR, stores nothing and returns None. Either way the rest of the
   * registry is untouched and validity is kept.
   */
  lemma GetLoads<L, V>(r: Registry<L, V>, key: string, run: L -> Outcome<V>)
    requires r.Valid() && key !in r.data && key in r.loaders
    ensures var f := Fetched(r, key, run);
      && f.invoked
      && f.after.Valid()
      && f.after.loaders == r.loaders
      && (forall k | k != key :: StateOf(f.after, k) == StateOf(r, k))
      && (run(r.loaders[key]).Returns? ==>
            f.value == Some(run(r.loaders[key]).value) && StateOf(f.after, key) == Loaded
            && f.after.data == r.data[key := run(r.loaders[key]).value])
      && (run(r.loaders[key]).Raises? ==>
            f.value == None && StateOf(f.after, key) == Error && f.after.data == r.data)
  {
  }

  /** Every `get` keeps the registry valid. */
  lemma GetKeepsValid<L, V>(r: Registry<L, V>, key: string, run: L -> Outcome<V>)
    requires r.Valid()
    ensures Fetched(r, key, run).after.Valid()
  {
    if key !in r.data && key in r.loaders {
      GetLoads(r, key, run);
    }
  }

  /**
   * `invalidate` leaves the key PENDING without data, even a key never
   * registered; for a registered key the next `get` calls its loader again.
   */
  lemma InvalidateThenGet<L, V>(r: Registry<L, V>, key: string, run: L -> Outcome<V>)
    requires r.Valid()
    ensures AfterInvalidate(r, key).Valid()
    ensures key in AfterInvalidate(r, key).states && StateOf(AfterInvalidate(r, key), key) == Pending
    ensures key !in AfterInvalidate(r, key).data
    ensures Fetched(AfterInvalidate(r, key), key, run).invoked <==> key in r.loaders
  {
  }

  /**
   * `preload` ends with the same registry as `get` on each key in turn, and
   * reports, for each key it was given, the state that key ended in, with ERROR
   * for a key that has none (where `get_state` would say PENDING).
   */
  lemma {:induction false} PreloadReports<L, V>(r: Registry<L, V>, keys: seq<string>, run: L -> Outcome<V>)
    requires r.Valid()
    ensures Preloaded(r, keys, run).0.Valid()
    ensures Preloaded(r, keys, run).1.Keys == set k | k in keys
    ensures forall k | k in keys ::
      Preloaded(r, keys, run).1[k] == ReportedState(Preloaded(r, keys, run).0, k)
  {
    if keys != [] {
      var init := keys[..|keys| - 1];
      var key := keys[|keys| - 1];
      PreloadReports(r, init, run);
      var (before, results) := Preloaded(r, init, run);
      GetKeepsValid(before, key, run);
      var after := Fetched(before, key, run).after;
      assert forall k | k in keys :: k in init || k == key;
      forall k | k in init && k != key
        ensures ReportedState(after, k) == ReportedState(before, k)
      {
        if key !in before.data && key in before.loaders {
          GetLoads(before, key, run);
        }
      }
    }
  }

  /** `preload` of a key that is nowhere in the registry reports ERROR while `get_state` says PENDING. */
  lemma PreloadUnknownKey<L, V>(r: Registry<L, V>, key: string, run: L -> Outcome<V>)
    requires r.Valid() && key !in r.states
    ensures Preloaded(r, [key], run).1[key] == Error
    ensures StateOf(Preloaded(r, [key], run).0, key) == Pending
  {
    assert [key][..0] == [];
  }

  /** Loaded keys are a subset of the memoised ones, which are a subset of the registered ones. */
  lemma LoadedCountBound<L, V>(r: Registry<L, V>)
    requires r.Valid()
    ensures |LoadedKeys(r)| <= |r.data.Keys| <= |r.loaders.Keys|
  {
    assert LoadedKeys(r) <= r.data.Keys;
    SubsetCard(LoadedKeys(r), r.data.Keys);
    SubsetCard(r.data.Keys, r.loaders.Keys);
  }

  lemma {:induction false} SubsetCard<T>(a: set<T>, b: set<T>)
    requires a <= b
    ensures |a| <= |b|
  {
    if a != {} {
      var x :| x in a;
      SubsetCard(a - {x}, b - {x});
    }
  }

  class LazyDataLoader<L, V> {
    var loaders: map<string, L>
    var data: map<string, V>
    var states: map<string, LoadState>

    function Snapshot(): Registry<L, V>
      reads this
    {
      Registry(loaders, data, states)
    }

    ghost predicate Valid()
      reads this
    {
      Snapshot().Valid()
    }

    constructor()
      ensures Valid() && Snapshot() == Registry(map[], map[], map[])
    {
      loaders, data, states := map[], map[], map[];
    }

    method Register(key: string, loader: L)
      requires Valid()
      modifies this
      ensures Valid()
      ensures Snapshot() == AfterRegister(old(Snapshot()), key, loader)
    {
      loaders := loaders[key := loader];
      states := states[key := Pending];
    }

    method Get(key: string, run: L -> Outcome<V>) returns (v: Option<V>)
      requires Valid()
      modifies this
      ensures Valid()
      ensures Snapshot() == Fetched(old(Snapshot()), key, run).after
      ensures v == Fetched(old(Snapshot()), key, run).value
    {
      if key in data {
        return Some(data[key]);
      }
      if key !in loaders {
        return None;
      }
      GetLoads(Snapshot(), key, run);
      v := Load(key, run);
    }

    /** `_load`: LOADING while the loader runs, then LOADED with the data, or ERROR. */
    method Load(key: string, run: L -> Outcome<V>) returns (v: Option<V>)
      requires key in loaders
      modifies this
      ensures (Snapshot(), v) == AfterLoad(old(Snapshot()), key, run(old(loaders)[key]))
    {
      states := states[key := Loading];
      var out := run(loaders[key]);
      match out {
        case Returns(d) =>
          data := data[key := d];
          states := states[key := Loaded];
          v := Some(d);
          assert states == old(states)[key := Loaded];
        case Raises =>
          states := states[key := Error];
          v := None;
          assert states == old(states)[key := Error];
      }
    }

    method Preload(keys: seq<string>, run: L -> Outcome<V>) returns (results: map<string, LoadState>)
      requires Valid()
      modifies this
      ensures Valid()
      ensures (Snapshot(), results) == Preloaded(old(Snapshot()), keys, run)
    {
      results := map[];
      var i := 0;
      while i < |keys|
        invariant 0 <= i <= |keys|
        invariant Valid()
        invariant (Snapshot(), results) == Preloaded(old(Snapshot()), keys[..i], run)
      {
        assert keys[..i + 1][..i] == keys[..i];
        var _ := Get(keys[i], run);
        results := results[keys[i] := if keys[i] in states then states[keys[i]] else Error];
        i := i + 1;
      }
      assert keys[..|keys|] == keys;
    }

    method Invalidate(key: string)
      requires Valid()
      modifies this
      ensures Valid()
      ensures Snapshot() == AfterInvalidate(old(Snapshot()), key)
    {
      if key in data {
        data := data - {key};
      }
      states := states[key := Pending];
    }

    function GetState(key: string): LoadState
      reads this
    {
      StateOf(Snapshot(), key)
    }

    function GetAllStates(): map<string, string>
      reads this
    {
      AllStates(Snapshot())
    }

    /** `loaded_count`, counted over the states in one pass. */
    method LoadedCount() returns (n: nat)
      ensures n == |LoadedKeys(Snapshot())|
    {
      var rest := states.Keys;
      ghost var seen: set<string> := {};
      ghost var counted: set<string> := {};
      n := 0;
      while rest != {}
        invariant rest !! seen && rest + seen == states.Keys
        invariant counted == set k | k in seen && states[k] == Loaded
        invariant n == |counted|
        decreases rest
      {
        var k :| k in rest;
        rest := rest - {k};
        if states[k] == Loaded {
          n := n + 1;
          counted := counted + {k};
        }
        seen := seen + {k};
      }
      assert counted == LoadedKeys(Snapshot());
    }

    function TotalCount(): nat
      reads this
    {
      |loaders|
    }
  }

  /** The loader `create_paginated_loader` returns, with its two attributes. */
  datatype PaginatedLoader<T> = PaginatedLoader(rows: seq<T>, pageSize: int, totalPages: int, totalRows: nat)
  {
    /** `load_page(page)` */
    function LoadPage(page: int): seq<T> {
      Pagination.PageRows(rows, pageSize, page)
    }
  }

  function CreatePaginatedLoader<T>(df: seq<T>, pageSize: int): (p: PaginatedLoader<T>)
    requires pageSize >= 1
    ensures p.rows == df && p.pageSize == pageSize && p.totalRows == |df|
    ensures p.totalPages >= 1
    ensures |df| >= 1 ==> (p.totalPages - 1) * pageSize < |df| <= p.totalPages * pageSize
  {
    PaginatedLoader(df, pageSize, Pagination.TotalPages(|df|, pageSize), |df|)
  }
}
