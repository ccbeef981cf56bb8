/**
 * The application store: the list of ferias, the filtered and sorted list the
 * views show, the user's location, the favourite ids and the search filters.
 * The filter effect narrows the list step by step with four conjunctive
 * filters and, when a user location is known, sorts it in place by distance.
 */
module AppContext {
  import opened Wrappers
  import opened Text
  import opened Lists
  import opened Types

  // ---------------------------------------------------------------- filters

  /** The `tipo` filter: the lower-cased type contains the lower-cased query. */
  predicate TipoMatches(f: Feria, tipo: string) {
    Contains(Lower(f.tipo), Lower(tipo))
  }

  /** The `dia` filter: the day is one of the opening days, by exact match. */
  predicate DiaMatches(f: Feria, dia: string) {
    dia in f.diasFuncionamiento
  }

  /** The `direccion` filter: the name or the address contains the query, ignoring case. */
  predicate DireccionMatches(f: Feria, q: string) {
    Contains(Lower(f.nombre), Lower(q)) || Contains(Lower(f.direccion), Lower(q))
  }

  /** Some product of the feria contains `producto`, ignoring case. */
  predicate OffersProduct(f: Feria, producto: string) {
    exists j :: 0 <= j < |f.productos| && Contains(Lower(f.productos[j]), Lower(producto))
  }

  /** The `productos` filter: some selected product is offered. */
  predicate ProductosMatch(f: Feria, productos: seq<string>) {
    exists i :: 0 <= i < |productos| && OffersProduct(f, productos[i])
  }

  /** Each filter applies only when its field is set: a string must be non-empty, a list non-empty. */
  predicate TipoOk(sf: SearchFilters, f: Feria) {
    Truthy(sf.tipo) ==> TipoMatches(f, sf.tipo.value)
  }

  predicate DiaOk(sf: SearchFilters, f: Feria) {
    Truthy(sf.dia) ==> DiaMatches(f, sf.dia.value)
  }

  predicate DireccionOk(sf: SearchFilters, f: Feria) {
    Truthy(sf.direccion) ==> DireccionMatches(f, sf.direccion.value)
  }

  predicate ProductosOk(sf: SearchFilters, f: Feria) {
    sf.productos.Some? && |sf.productos.value| > 0 ==> ProductosMatch(f, sf.productos.value)
  }

  /** A feria passes the search filters when it passes all four. */
  predicate Matches(sf: SearchFilters, f: Feria) {
    TipoOk(sf, f) && DiaOk(sf, f) && DireccionOk(sf, f) && ProductosOk(sf, f)
  }

  /** The ferias that pass the filters, in their order. */
  function FilterFerias(ferias: seq<Feria>, sf: SearchFilters): (r: seq<Feria>)
    ensures |r| <= |ferias|
    ensures forall i :: 0 <= i < |r| ==> Matches(sf, r[i])
  {
    Filter(ferias, f => Matches(sf, f))
  }

  /** The first `k` of the four filters, in the order the effect applies them. */
  predicate PassesFirst(sf: SearchFilters, k: nat, f: Feria) {
    && (k >= 1 ==> TipoOk(sf, f))
    && (k >= 2 ==> DiaOk(sf, f))
    && (k >= 3 ==> DireccionOk(sf, f))
    && (k >= 4 ==> ProductosOk(sf, f))
  }

  /** The first `k` filters as a predicate. */
  function Stage(sf: SearchFilters, k: nat): Feria -> bool {
    f => PassesFirst(sf, k, f)
  }

  /**
   * Filter `k + 1` narrows the ferias that passed the first `k` with `q` when it
   * is set, and lets them all through when it is not.
   */
  lemma StageAdvance(ferias: seq<Feria>, sf: SearchFilters, k: nat, active: bool, q: Feria -> bool)
    requires active ==> forall f :: PassesFirst(sf, k + 1, f) == (PassesFirst(sf, k, f) && q(f))
    requires !active ==> forall f :: PassesFirst(sf, k + 1, f) == PassesFirst(sf, k, f)
    ensures active ==> Filter(Filter(ferias, Stage(sf, k)), q) == Filter(ferias, Stage(sf, k + 1))
    ensures !active ==> Filter(ferias, Stage(sf, k)) == Filter(ferias, Stage(sf, k + 1))
  {
    if active {
      FilterStep(ferias, Stage(sf, k), q, Stage(sf, k + 1));
    } else {
      FilterExt(ferias, Stage(sf, k), Stage(sf, k + 1));
    }
  }

  lemma TipoStage(ferias: seq<Feria>, sf: SearchFilters)
    ensures Truthy(sf.tipo) ==>
      Filter(Filter(ferias, Stage(sf, 0)), f => TipoMatches(f, sf.tipo.value)) == Filter(ferias, Stage(sf, 1))
    ensures !Truthy(sf.tipo) ==> Filter(ferias, Stage(sf, 0)) == Filter(ferias, Stage(sf, 1))
  {
    StageAdvance(ferias, sf, 0, Truthy(sf.tipo), f => Truthy(sf.tipo) && TipoMatches(f, sf.tipo.value));
    if Truthy(sf.tipo) {
      FilterExt(Filter(ferias, Stage(sf, 0)), f => Truthy(sf.tipo) && TipoMatches(f, sf.tipo.value),
                f => TipoMatches(f, sf.tipo.value));
    }
  }

  lemma DiaStage(ferias: seq<Feria>, sf: SearchFilters)
    ensures Truthy(sf.dia) ==>
      Filter(Filter(ferias, Stage(sf, 1)), f => DiaMatches(f, sf.dia.value)) == Filter(ferias, Stage(sf, 2))
    ensures !Truthy(sf.dia) ==> Filter(ferias, Stage(sf, 1)) == Filter(ferias, Stage(sf, 2))
  {
    StageAdvance(ferias, sf, 1, Truthy(sf.dia), f => Truthy(sf.dia) && DiaMatches(f, sf.dia.value));
    if Truthy(sf.dia) {
      FilterExt(Filter(ferias, Stage(sf, 1)), f => Truthy(sf.dia) && DiaMatches(f, sf.dia.value),
                f => DiaMatches(f, sf.dia.value));
    }
  }

  lemma DireccionStage(ferias: seq<Feria>, sf: SearchFilters)
    ensures Truthy(sf.direccion) ==>
      Filter(Filter(ferias, Stage(sf, 2)), f => DireccionMatches(f, sf.direccion.value)) == Filter(ferias, Stage(sf, 3))
    ensures !Truthy(sf.direccion) ==> Filter(ferias, Stage(sf, 2)) == Filter(ferias, Stage(sf, 3))
  {
    StageAdvance(ferias, sf, 2, Truthy(sf.direccion),
                 f => Truthy(sf.direccion) && DireccionMatches(f, sf.direccion.value));
    if Truthy(sf.direccion) {
      FilterExt(Filter(ferias, Stage(sf, 2)), f => Truthy(sf.direccion) && DireccionMatches(f, sf.direccion.value),
                f => DireccionMatches(f, sf.direccion.value));
    }
  }

  lemma ProductosStage(ferias: seq<Feria>, sf: SearchFilters)
    ensures sf.productos.Some? && |sf.productos.value| > 0 ==>
      Filter(Filter(ferias, Stage(sf, 3)), f => ProductosMatch(f, sf.productos.value)) == Filter(ferias, Stage(sf, 4))
    ensures !(sf.productos.Some? && |sf.productos.value| > 0) ==> Filter(ferias, Stage(sf, 3)) == Filter(ferias, Stage(sf, 4))
  {
    var active := sf.productos.Some? && |sf.productos.value| > 0;
    StageAdvance(ferias, sf, 3, active, f => active && ProductosMatch(f, sf.productos.value));
    if active {
      FilterExt(Filter(ferias, Stage(sf, 3)), f => active && ProductosMatch(f, sf.productos.value),
                f => ProductosMatch(f, sf.productos.value));
    }
  }

  /** Passing all four stages is passing the filters. */
  lemma AllStagesAreMatches(ferias: seq<Feria>, sf: SearchFilters)
    ensures Filter(ferias, Stage(sf, 4)) == FilterFerias(ferias, sf)
  {
    FilterExt(ferias, Stage(sf, 4), f => Matches(sf, f));
  }

  /**
   * The filter part of the effect: start from a copy of the ferias and narrow it
   * by each active filter in turn; the result is the ferias that pass all four.
   */
  method NarrowByFilters(ferias: seq<Feria>, sf: SearchFilters) returns (filtered: seq<Feria>)
    ensures filtered == FilterFerias(ferias, sf)
  {
    filtered := ferias;
    FilterKeepsAll(ferias, Stage(sf, 0));
    TipoStage(ferias, sf);
    if Truthy(sf.tipo) {
      filtered := Filter(filtered, f => TipoMatches(f, sf.tipo.value));
    }
    DiaStage(ferias, sf);
    if Truthy(sf.dia) {
      filtered := Filter(filtered, f => DiaMatches(f, sf.dia.value));
    }
    DireccionStage(ferias, sf);
    if Truthy(sf.direccion) {
      filtered := Filter(filtered, f => DireccionMatches(f, sf.direccion.value));
    }
    ProductosStage(ferias, sf);
    if sf.productos.Some? && |sf.productos.value| > 0 {
      filtered := Filter(filtered, f => ProductosMatch(f, sf.productos.value));
    }
    AllStagesAreMatches(ferias, sf);
  }

  /** A feria is kept exactly when it is in the list and passes every filter. */
  lemma FilterFeriasMembership(ferias: seq<Feria>, sf: SearchFilters, f: Feria)
    ensures f in FilterFerias(ferias, sf) <==>
      && f in ferias
      && (Truthy(sf.tipo) ==> Contains(Lower(f.tipo), Lower(sf.tipo.value)))
      && (Truthy(sf.dia) ==> sf.dia.value in f.diasFuncionamiento)
      && (Truthy(sf.direccion) ==>
            Contains(Lower(f.nombre), Lower(sf.direccion.value)) ||
            Contains(Lower(f.direccion), Lower(sf.direccion.value)))
      && (sf.productos.Some? && |sf.productos.value| > 0 ==> ProductosMatch(f, sf.productos.value))
  {
    FilterMembership(ferias, f => Matches(sf, f), f);
  }

  /** Filtering only drops ferias and keeps the order of the others. */
  lemma FilterFeriasSubsequence(ferias: seq<Feria>, sf: SearchFilters)
    ensures IsSubsequence(FilterFerias(ferias, sf), ferias)
  {
    FilterIsSubsequence(ferias, f => Matches(sf, f));
  }

  /** With no filter active, or only empty ones, every feria is kept. */
  lemma UnsetFiltersKeepAll(ferias: seq<Feria>, sf: SearchFilters)
    requires !Truthy(sf.tipo) && !Truthy(sf.dia) && !Truthy(sf.direccion)
    requires sf.productos.None? || sf.productos.value == []
    ensures FilterFerias(ferias, sf) == ferias
  {
    FilterKeepsAll(ferias, f => Matches(sf, f));
  }

  /** The empty filter object keeps every feria. */
  lemma NoFiltersKeepAll(ferias: seq<Feria>)
    ensures FilterFerias(ferias, NoFilters) == ferias
  {
    UnsetFiltersKeepAll(ferias, NoFilters);
  }

  /** An empty product selection filters the same as no product selection. */
  lemma EmptyProductSelection(ferias: seq<Feria>, sf: SearchFilters)
    requires sf.productos == Some([])
    ensures FilterFerias(ferias, sf) == FilterFerias(ferias, sf.(productos := None))
  {
    var none := sf.(productos := None);
    assert forall f :: Matches(sf, f) == Matches(none, f);
    FilterExt(ferias, f => Matches(sf, f), f => Matches(none, f));
  }

  /** A product filter keeps exactly the ferias offering some selected product. */
  lemma ProductFilterRule(ferias: seq<Feria>, productos: seq<string>, f: Feria)
    requires |productos| > 0
    ensures f in FilterFerias(ferias, NoFilters.(productos := Some(productos))) <==>
      f in ferias && (exists i, j :: 0 <= i < |productos| && 0 <= j < |f.productos| &&
                        Contains(Lower(f.productos[j]), Lower(productos[i])))
  {
    FilterFeriasMembership(ferias, NoFilters.(productos := Some(productos)), f);
  }

  // ---------------------------------------------------------------- distance

  /** The sort key `a.distancia || 0`: a missing distance counts as zero. */
  function DistanceKey(f: Feria): real {
    f.distancia.GetOr(0.0)
  }

  /** Ascending by distance key. */
  predicate SortedByDistance(s: seq<Feria>) {
    forall i, j :: 0 <= i < j < |s| ==> DistanceKey(s[i]) <= DistanceKey(s[j])
  }

  /**
   * The distance annotation: every feria gets the distance from the user to its
   * coordinates, and nothing else about it or about the list changes.
   */
  function WithDistances(ferias: seq<Feria>, loc: UserLocation, distance: (real, real, real, real) -> real)
    : (r: seq<Feria>)
    ensures |r| == |ferias|
    ensures forall i :: 0 <= i < |r| ==>
      && r[i].distancia == Some(distance(loc.lat, loc.lng, ferias[i].lat, ferias[i].lng))
      && r[i].(distancia := ferias[i].distancia) == ferias[i]
  {
    Map(ferias, (f: Feria) => f.(distancia := Some(distance(loc.lat, loc.lng, f.lat, f.lng))))
  }

  /** Annotating twice from the same location is annotating once. */
  lemma WithDistancesIdempotent(ferias: seq<Feria>, loc: UserLocation, distance: (real, real, real, real) -> real)
    ensures WithDistances(WithDistances(ferias, loc, distance), loc, distance) == WithDistances(ferias, loc, distance)
  {
    var once := WithDistances(ferias, loc, distance);
    var twice := WithDistances(once, loc, distance);
    assert forall i :: 0 <= i < |once| ==> twice[i] == once[i];
  }

  /**
   * `filtered.sort((a, b) => (a.distancia || 0) - (b.distancia || 0))`, as an
   * insertion sort by adjacent swaps.
   */
  method SortByDistance(a: array<Feria>)
    modifies a
    ensures SortedByDistance(a[..])
    ensures multiset(a[..]) == multiset(old(a[..]))
  {
    var i := 0;
    while i < a.Length
      invariant 0 <= i <= a.Length
      invariant SortedByDistance(a[..i])
      invariant multiset(a[..]) == multiset(old(a[..]))
    {
      InsertLast(a, i);
      i := i + 1;
    }
  }

  /** One insertion step: `a[i]` sinks into the sorted prefix `a[..i]`. */
  method InsertLast(a: array<Feria>, i: nat)
    requires i < a.Length && SortedByDistance(a[..i])
    modifies a
    ensures SortedByDistance(a[..i + 1])
    ensures multiset(a[..]) == multiset(old(a[..]))
  {
    var j := i;
    while j > 0 && DistanceKey(a[j - 1]) > DistanceKey(a[j])
      invariant 0 <= j <= i
      invariant forall m, n :: 0 <= m < n <= i && m != j && n != j ==> DistanceKey(a[m]) <= DistanceKey(a[n])
      invariant forall n :: j < n <= i ==> DistanceKey(a[j]) < DistanceKey(a[n])
      invariant multiset(a[..]) == multiset(old(a[..]))
    {
      SwapDown(a, j);
      j := j - 1;
    }
  }

  /** Exchange `a[j - 1]` and `a[j]`. */
  method SwapDown(a: array<Feria>, j: nat)
    requires 0 < j < a.Length
    modifies a
    ensures a[j - 1] == old(a[j]) && a[j] == old(a[j - 1])
    ensures forall m :: 0 <= m < a.Length && m != j - 1 && m != j ==> a[m] == old(a[m])
    ensures multiset(a[..]) == multiset(old(a[..]))
  {
    a[j - 1], a[j] := a[j], a[j - 1];
  }

  // ---------------------------------------------------------------- the store

  /** The provider's state; `distance` is the distance calculation, which is not part of this model. */
  class AppProvider {
    var ferias: seq<Feria>
    var filteredFerias: seq<Feria>
    var userLocation: Option<UserLocation>
    var favorites: seq<string>
    var searchFilters: SearchFilters
    const distance: (real, real, real, real) -> real

    /** What the filter effect leaves in `filteredFerias` for the current state. */
    ghost predicate FilteredIsCurrent()
      reads this
    {
      var kept := FilterFerias(ferias, searchFilters);
      if userLocation.None? then filteredFerias == kept
      else SortedByDistance(filteredFerias) && multiset(filteredFerias) == multiset(kept)
    }

    /** The initial state: every feria shown, no location, no favourites, no filters. */
    constructor (initial: seq<Feria>, distance: (real, real, real, real) -> real)
      ensures ferias == initial && filteredFerias == initial
      ensures userLocation.None? && favorites == [] && searchFilters == NoFilters
      ensures this.distance == distance
      ensures FilteredIsCurrent()
    {
      ferias := initial;
      filteredFerias := initial;
      userLocation := None;
      favorites := [];
      searchFilters := NoFilters;
      this.distance := distance;
      NoFiltersKeepAll(initial);
    }

    /** The filter effect: narrow by each active filter in turn, then sort when a location is known. */
    method RecomputeFiltered()
      modifies this`filteredFerias
      ensures FilteredIsCurrent()
    {
      var filtered := NarrowByFilters(ferias, searchFilters);
      if userLocation.Some? {
        var arr := new Feria[|filtered|](k requires 0 <= k < |filtered| => filtered[k]);
        assert arr[..] == filtered;
        SortByDistance(arr);
        filtered := arr[..];
      }
      filteredFerias := filtered;
    }

    /** `setSearchFilters`, followed by the filter effect. */
    method SetSearchFilters(filters: SearchFilters)
      modifies this`searchFilters, this`filteredFerias
      ensures searchFilters == filters
      ensures FilteredIsCurrent()
    {
      searchFilters := filters;
      RecomputeFiltered();
    }

    /**
     * `setUserLocation`, followed by the effects: a known location annotates every
     * feria with its distance (clearing the location keeps the old distances),
     * then the list is filtered again.
     */
    method SetUserLocation(loc: Option<UserLocation>)
      modifies this`userLocation, this`ferias, this`filteredFerias
      ensures userLocation == loc
      ensures ferias == if loc.Some? then WithDistances(old(ferias), loc.value, distance) else old(ferias)
      ensures FilteredIsCurrent()
    {
      userLocation := loc;
      if loc.Some? {
        ferias := WithDistances(ferias, loc.value, distance);
      }
      RecomputeFiltered();
    }

    /** `toggleFavorite`: remove every occurrence of a present id, append an absent one. */
    method ToggleFavorite(feriaId: string)
      modifies this`favorites
      ensures favorites == Toggle(old(favorites), feriaId)
      ensures IsFavorite(feriaId) == !old(IsFavorite(feriaId))
      ensures forall id :: id != feriaId ==> (IsFavorite(id) <==> old(IsFavorite(id)))
    {
      ToggleSpec(favorites, feriaId);
      favorites := if feriaId in favorites then RemoveAll(favorites, feriaId) else favorites + [feriaId];
    }

    /** `isFavorite`. */
    predicate IsFavorite(feriaId: string)
      reads this
    {
      feriaId in favorites
    }
  }
}
