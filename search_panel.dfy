/**
 * The search panel: it edits a local copy of the search filters and hands it to
 * the store on apply. Text and select fields store an empty value as unset; the
 * product checkboxes toggle a product in the list and store an empty list as
 * unset.
 */
module SearchPanel {
  import opened Wrappers
  import opened Lists
  import opened Types
  import AppContext

  /** `value || undefined`: an empty field value is stored as unset. */
  function FieldValue(v: string): (r: Option<string>)
    ensures r.None? <==> v == ""
    ensures r.Some? ==> r.value == v
  {
    if v == "" then None else Some(v)
  }

  /** `filters.x || ''`: what the field shows for a stored value. */
  function Shown(o: Option<string>): (v: string)
    ensures o.Some? ==> v == o.value
    ensures o.None? ==> v == ""
  {
    o.GetOr("")
  }

  /** A field shows what was typed into it, and storing what a field shows changes nothing. */
  lemma FieldRoundTrip(v: string, o: Option<string>)
    ensures Shown(FieldValue(v)) == v
    ensures o != Some("") ==> FieldValue(Shown(o)) == o
    ensures FieldValue(Shown(FieldValue(v))) == FieldValue(v)
  {
  }

  /** `handleProductToggle`'s new list: toggle the product, and store an empty list as unset. */
  function ToggleProduct(current: Option<seq<string>>, producto: string): (r: Option<seq<string>>)
    ensures r != Some([])
  {
    var products := Toggle(current.GetOr([]), producto);
    if |products| > 0 then Some(products) else None
  }

  /**
   * Toggling: an absent product is appended at the end; a present one is removed
   * with all its occurrences; every other product keeps its membership.
   */
  lemma ToggleProductSpec(current: Option<seq<string>>, producto: string)
    ensures var cur := current.GetOr([]);
      && var r := ToggleProduct(current, producto);
      && (producto !in cur ==> r == Some(cur + [producto]))
      && (producto in cur ==> r.GetOr([]) == RemoveAll(cur, producto))
      && (producto in r.GetOr([]) <==> producto !in cur)
      && (forall p :: p != producto ==> (p in r.GetOr([]) <==> p in cur))
  {
    var cur := current.GetOr([]);
    ToggleSpec(cur, producto);
  }

  /** Toggling the same product twice restores the selection, up to an empty list becoming unset. */
  lemma ToggleProductTwice(current: Option<seq<string>>, producto: string)
    requires producto !in current.GetOr([])
    ensures ToggleProduct(ToggleProduct(current, producto), producto) == (if current == Some([]) then None else current)
  {
    var cur := current.GetOr([]);
    ToggleTwiceRestores(cur, producto);
  }

  /** The panel's local filters and the store it applies them to. */
  class Panel {
    var localFilters: SearchFilters
    const app: AppContext.AppProvider

    /** `useState(searchFilters)`: the local copy starts as the store's filters. */
    constructor (app: AppContext.AppProvider)
      ensures this.app == app && localFilters == app.searchFilters
    {
      this.app := app;
      localFilters := app.searchFilters;
    }

    /** `handleProductToggle`: only the product list of the local filters changes. */
    method HandleProductToggle(producto: string)
      modifies this`localFilters
      ensures localFilters == old(localFilters).(productos := ToggleProduct(old(localFilters).productos, producto))
    {
      var currentProducts := localFilters.productos.GetOr([]);
      var newProducts := if producto in currentProducts then RemoveAll(currentProducts, producto)
                         else currentProducts + [producto];
      localFilters := localFilters.(productos := if |newProducts| > 0 then Some(newProducts) else None);
    }

    /** The address field. */
    method SetDireccion(value: string)
      modifies this`localFilters
      ensures localFilters == old(localFilters).(direccion := FieldValue(value))
    {
      localFilters := localFilters.(direccion := FieldValue(value));
    }

    /** The type select. */
    method SetTipo(value: string)
      modifies this`localFilters
      ensures localFilters == old(localFilters).(tipo := FieldValue(value))
    {
      localFilters := localFilters.(tipo := FieldValue(value));
    }

    /** The day select. */
    method SetDia(value: string)
      modifies this`localFilters
      ensures localFilters == old(localFilters).(dia := FieldValue(value))
    {
      localFilters := localFilters.(dia := FieldValue(value));
    }

    /** `handleApplyFilters`: the store takes the local filters and filters again. */
    method HandleApplyFilters()
      modifies app`searchFilters, app`filteredFerias
      ensures localFilters == old(localFilters)
      ensures app.searchFilters == localFilters
      ensures app.FilteredIsCurrent()
    {
      app.SetSearchFilters(localFilters);
    }

    /** `handleClearFilters`: both the local and the applied filters become empty. */
    method HandleClearFilters()
      modifies this`localFilters, app`searchFilters, app`filteredFerias
      ensures localFilters == NoFilters && app.searchFilters == NoFilters
      ensures app.FilteredIsCurrent()
    {
      localFilters := NoFilters;
      app.SetSearchFilters(NoFilters);
    }
  }
}
