/**
 * The category chips above the list: a count per chip and the selection of one
 * category in the search filters. The chips read three fields the shared feria
 * record does not declare (`categoria`, `especialidad`, `etiquetas`), so ferias
 * here carry them beside the record, each possibly missing. The speciality chips
 * call `.some` on `especialidad` and `etiquetas`; on a feria without them that
 * call throws a TypeError, which the count reports as `None`.
 */
module CategoryFilter {
  import opened Wrappers
  import opened Text
  import opened Lists
  import opened Types

  /** A feria with the category fields the chips read; `None` is a missing field. */
  datatype CategorizedFeria = CategorizedFeria(
    feria: Feria,
    categoria: Option<string>,
    especialidad: Option<seq<string>>,
    etiquetas: Option<seq<string>>)

  /** The chip ids, in display order. */
  const ChipIds: seq<string> := ["Todos", "Mercados", "Ferias", "Cultura", "Org\U{00E1}nico", "Vegano"]

  /** The chips counted by exact category. */
  const MainCategories: seq<string> := ["Mercados", "Ferias", "Cultura"]

  /** Some entry of `s` contains `category`, ignoring case. */
  predicate SomeContains(s: seq<string>, category: string) {
    exists i :: 0 <= i < |s| && Contains(Lower(s[i]), Lower(category))
  }

  /** A feria has exactly this main category. */
  predicate InCategory(f: CategorizedFeria, category: string) {
    f.categoria == Some(category)
  }

  /**
   * The filter callback of a speciality chip: `None` when it throws. `||` stops at
   * the first true operand, so the tags are read only when no speciality matches,
   * and the products only when no tag matches.
   */
  function MentionTest(f: CategorizedFeria, category: string): Option<bool> {
    match f.especialidad
    case None => None
    case Some(esp) =>
      if SomeContains(esp, category) then Some(true)
      else match f.etiquetas
        case None => None
        case Some(tags) => Some(SomeContains(tags, category) || SomeContains(f.feria.productos, category))
  }

  /** The callback throws on this feria. */
  predicate Throws(f: CategorizedFeria, category: string) {
    MentionTest(f, category).None?
  }

  /** The callback keeps this feria. */
  predicate Mentions(f: CategorizedFeria, category: string) {
    MentionTest(f, category) == Some(true)
  }

  /**
   * The callback throws exactly when the specialities are missing, or when they
   * are present without a match and the tags are missing; otherwise it keeps a
   * feria exactly when a speciality, a tag or a product mentions the category.
   */
  lemma MentionTestSpec(f: CategorizedFeria, category: string)
    ensures Throws(f, category) <==>
      f.especialidad.None? || (!SomeContains(f.especialidad.value, category) && f.etiquetas.None?)
    ensures !Throws(f, category) ==>
      (Mentions(f, category) <==>
        SomeContains(f.especialidad.value, category) ||
        (f.etiquetas.Some? && SomeContains(f.etiquetas.value, category)) ||
        SomeContains(f.feria.productos, category))
  {
  }

  /**
   * `ferias.filter(callback).length` for a speciality chip: `filter` runs the
   * callback on each feria in order, so the count fails when any feria throws, and
   * otherwise it is the number of ferias kept.
   */
  function CountMentions(ferias: seq<CategorizedFeria>, category: string): (r: Option<nat>)
    ensures r.None? <==> exists i :: 0 <= i < |ferias| && Throws(ferias[i], category)
    ensures r.Some? ==> r.value == |Filter(ferias, f => Mentions(f, category))|
  {
    if |ferias| == 0 then Some(0)
    else
      assert forall i :: 0 < i < |ferias| ==> ferias[i] == ferias[1..][i - 1];
      match MentionTest(ferias[0], category)
      case None => None
      case Some(keep) =>
        match CountMentions(ferias[1..], category)
        case None => None
        case Some(n) => Some((if keep then 1 else 0) + n)
  }

  /**
   * `getCategoryCount`: `None` when the filter throws, which only a speciality
   * chip can do; a count is at most the number of ferias.
   */
  function CategoryCount(ferias: seq<CategorizedFeria>, category: string): (r: Option<nat>)
    ensures r.Some? ==> r.value <= |ferias|
    ensures r.None? <==>
      category != "Todos" && category !in MainCategories &&
      exists i :: 0 <= i < |ferias| && Throws(ferias[i], category)
  {
    if category == "Todos" then Some(|ferias|)
    else if category in MainCategories then Some(|Filter(ferias, f => InCategory(f, category))|)
    else CountMentions(ferias, category)
  }

  /**
   * What a count means: `Todos` counts every feria; a main category reaches the
   * number of ferias exactly when every feria is in it and is zero exactly when
   * none is; any other chip reaches the number of ferias exactly when the callback
   * keeps every feria, and is zero exactly when it rejects every feria without
   * throwing.
   */
  lemma CategoryCountSpec(ferias: seq<CategorizedFeria>, category: string)
    ensures category == "Todos" ==> CategoryCount(ferias, category) == Some(|ferias|)
    ensures category in MainCategories ==>
      && (CategoryCount(ferias, category) == Some(|ferias|) <==> forall i :: 0 <= i < |ferias| ==> ferias[i].categoria == Some(category))
      && (CategoryCount(ferias, category) == Some(0) <==> forall i :: 0 <= i < |ferias| ==> ferias[i].categoria != Some(category))
    ensures category != "Todos" && category !in MainCategories ==>
      && (CategoryCount(ferias, category) == Some(|ferias|) <==> forall i :: 0 <= i < |ferias| ==> Mentions(ferias[i], category))
      && (CategoryCount(ferias, category) == Some(0) <==> forall i :: 0 <= i < |ferias| ==> MentionTest(ferias[i], category) == Some(false))
  {
    FilterLength(ferias, f => InCategory(f, category));
    FilterLength(ferias, f => Mentions(f, category));
  }

  /**
   * A feria without specialities makes every speciality chip throw, whatever the
   * other ferias hold: the fair records the store starts from declare none.
   */
  lemma MissingSpecialityThrows(ferias: seq<CategorizedFeria>, k: nat)
    requires k < |ferias| && ferias[k].especialidad.None?
    ensures CategoryCount(ferias, "Org\U{00E1}nico") == None
    ensures CategoryCount(ferias, "Vegano") == None
    ensures CategoryCount(ferias, "Todos") == Some(|ferias|)
  {
    assert Throws(ferias[k], "Org\U{00E1}nico") && Throws(ferias[k], "Vegano");
  }

  /** A feria has one category, so the three main counts together never exceed the number of ferias. */
  lemma MainCountsBound(ferias: seq<CategorizedFeria>)
    ensures CategoryCount(ferias, "Mercados").Some? && CategoryCount(ferias, "Ferias").Some? && CategoryCount(ferias, "Cultura").Some?
    ensures CategoryCount(ferias, "Mercados").value + CategoryCount(ferias, "Ferias").value + CategoryCount(ferias, "Cultura").value <= |ferias|
  {
    assert "Mercados" in MainCategories && "Ferias" in MainCategories && "Cultura" in MainCategories;
    DisjointFiltersBound(ferias, f => InCategory(f, "Mercados"), f => InCategory(f, "Ferias"),
                         f => InCategory(f, "Cultura"));
  }

  /** `handleCategoryChange`: `Todos` unsets the category, any other chip sets it; nothing else changes. */
  function HandleCategoryChange(sf: SearchFilters, category: string): (r: SearchFilters)
    ensures r.(categoria := sf.categoria) == sf
    ensures r.categoria.None? <==> category == "Todos"
    ensures r.categoria.Some? ==> r.categoria.value == category
  {
    sf.(categoria := if category == "Todos" then None else Some(category))
  }

  /** A chip is highlighted when it is the selected category, and `Todos` when none is selected. */
  predicate IsActive(sf: SearchFilters, id: string) {
    sf.categoria == Some(id) || (!Truthy(sf.categoria) && id == "Todos")
  }

  /** `Todos` is active exactly when no category is set, the category is empty, or it is `Todos`. */
  lemma TodosActive(sf: SearchFilters)
    ensures IsActive(sf, "Todos") <==> sf.categoria.None? || sf.categoria == Some("") || sf.categoria == Some("Todos")
  {
  }

  /** At most one chip is active. */
  lemma AtMostOneActive(sf: SearchFilters, i: nat, j: nat)
    requires i < j < |ChipIds|
    ensures !(IsActive(sf, ChipIds[i]) && IsActive(sf, ChipIds[j]))
  {
    assert forall k :: 0 <= k < |ChipIds| ==> ChipIds[k] != "";
    assert forall k :: 1 <= k < |ChipIds| ==> ChipIds[k] != "Todos";
  }

  /** After clicking a chip, that chip and no other is active. */
  lemma ClickedChipIsActive(sf: SearchFilters, k: nat, i: nat)
    requires k < |ChipIds| && i < |ChipIds|
    ensures IsActive(HandleCategoryChange(sf, ChipIds[k]), ChipIds[i]) <==> i == k
  {
    assert forall m :: 0 <= m < |ChipIds| ==> ChipIds[m] != "";
    assert forall m :: 1 <= m < |ChipIds| ==> ChipIds[m] != "Todos";
    assert forall m, n :: 0 <= m < n < |ChipIds| ==> ChipIds[m] != ChipIds[n];
  }
}
