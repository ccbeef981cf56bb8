/** The records shared by the components: a feria, its opening hours, the search filters and the user's position. */
module Types {
  import opened Wrappers

  /** Opening and closing time, each written "HH:MM". */
  datatype Horarios = Horarios(apertura: string, cierre: string)

  /**
   * A street fair or market. Coordinates are kept as reals and only copied; the
   * distance to the user is an abstract ordered value that is absent until a
   * user location is known.
   */
  datatype Feria = Feria(
    id: string,
    nombre: string,
    direccion: string,
    lat: real,
    lng: real,
    tipo: string,
    diasFuncionamiento: seq<string>,
    horarios: Horarios,
    productos: seq<string>,
    descripcion: Option<string>,
    telefono: Option<string>,
    distancia: Option<real>)

  /**
   * The search filters; every field may be absent. `categoria` is not declared by
   * the application's filter type, but the category chips read and write it.
   */
  datatype SearchFilters = SearchFilters(
    tipo: Option<string>,
    dia: Option<string>,
    horaApertura: Option<string>,
    productos: Option<seq<string>>,
    direccion: Option<string>,
    categoria: Option<string>)

  /** The empty filter object `{}`. */
  const NoFilters: SearchFilters := SearchFilters(None, None, None, None, None, None)

  /** The user's position as reported by the browser. */
  datatype UserLocation = UserLocation(lat: real, lng: real, accuracy: Option<real>)

  /** JavaScript truthiness of an optional string: defined and not empty. */
  predicate Truthy(s: Option<string>) {
    s.Some? && s.value != ""
  }
}
