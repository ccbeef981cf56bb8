/**
 * The Supabase side of the ferias: the row format of the `ferias` table, the
 * two mappers between a feria and a row, and the tally of a bulk sync that
 * inserts each feria and falls back to an update when the insert reports a
 * duplicate key. The database is a pair of oracles giving the reply to the
 * `i`-th insert and update.
 */
module FeriasService {
  import opened Wrappers
  import opened Types

  /** A row of the `ferias` table; `None` is SQL `null`. */
  datatype Row = Row(
    id: string,
    nombre: string,
    direccion: string,
    lat: real,
    lng: real,
    tipo: string,
    dias_funcionamiento: seq<string>,
    horarios: Horarios,
    productos: seq<string>,
    descripcion: Option<string>,
    telefono: Option<string>,
    barrio: Option<string>,
    comuna: Option<string>,
    observaciones: Option<string>)

  /** `s || null`: an absent or empty string becomes `null`. */
  function NullIfFalsy(s: Option<string>): (r: Option<string>)
    ensures r.Some? <==> Truthy(s)
    ensures r.Some? ==> r == s
  {
    if Truthy(s) then s else None
  }

  /** `feriaToSupabase`. */
  function FeriaToSupabase(f: Feria): (r: Row)
    ensures r.descripcion.Some? ==> r.descripcion.value != "" && r.descripcion == f.descripcion
    ensures r.telefono.Some? ==> r.telefono.value != "" && r.telefono == f.telefono
    ensures r.descripcion.None? <==> !Truthy(f.descripcion)
    ensures r.telefono.None? <==> !Truthy(f.telefono)
    ensures r.barrio.None? && r.comuna.None? && r.observaciones.None?
  {
    Row(f.id, f.nombre, f.direccion, f.lat, f.lng, f.tipo, f.diasFuncionamiento, f.horarios,
        f.productos, NullIfFalsy(f.descripcion), NullIfFalsy(f.telefono), None, None, None)
  }

  /** `supabaseToFeria`: the distance is recomputed later, so it is left unset. */
  function SupabaseToFeria(row: Row): (r: Feria)
    ensures r.distancia.None?
  {
    Feria(row.id, row.nombre, row.direccion, row.lat, row.lng, row.tipo, row.dias_funcionamiento,
          row.horarios, row.productos, row.descripcion, row.telefono, None)
  }

  /**
   * A feria survives the trip to the table and back except for its distance,
   * which is dropped, and an empty description or phone, which comes back unset.
   */
  lemma FeriaRoundTrip(f: Feria)
    ensures var g := SupabaseToFeria(FeriaToSupabase(f));
      && g.id == f.id && g.nombre == f.nombre && g.direccion == f.direccion
      && g.lat == f.lat && g.lng == f.lng && g.tipo == f.tipo
      && g.diasFuncionamiento == f.diasFuncionamiento && g.horarios == f.horarios
      && g.productos == f.productos
      && g.descripcion == (if Truthy(f.descripcion) then f.descripcion else None)
      && g.telefono == (if Truthy(f.telefono) then f.telefono else None)
      && g.distancia.None?
  {
  }

  /** A feria without distance and without empty optional strings comes back unchanged. */
  lemma FeriaRoundTripExact(f: Feria)
    requires f.distancia.None?
    requires f.descripcion.None? || f.descripcion.value != ""
    requires f.telefono.None? || f.telefono.value != ""
    ensures SupabaseToFeria(FeriaToSupabase(f)) == f
  {
    FeriaRoundTrip(f);
  }

  /** A row the mapper could have written comes back unchanged from a feria. */
  lemma RowRoundTrip(row: Row)
    requires row.barrio.None? && row.comuna.None? && row.observaciones.None?
    requires row.descripcion.None? || row.descripcion.value != ""
    requires row.telefono.None? || row.telefono.value != ""
    ensures FeriaToSupabase(SupabaseToFeria(row)) == row
  {
  }

  /** Mapping to a row, back and to a row again gives the first row. */
  lemma RowsAreStable(f: Feria)
    ensures FeriaToSupabase(SupabaseToFeria(FeriaToSupabase(f))) == FeriaToSupabase(f)
  {
    RowRoundTrip(FeriaToSupabase(f));
  }

  // ---------------------------------------------------------------- sync

  /** What the insert call gives back: no error, an error with its code, or an exception. */
  datatype InsertReply = InsertOk | InsertError(code: string) | InsertThrows

  /** What the update call gives back. */
  datatype UpdateReply = UpdateOk | UpdateError | UpdateThrows

  /** The PostgreSQL code for a unique-key violation. */
  const DuplicateKey: string := "23505"

  /** An update is sent only after an insert that failed with a duplicate key. */
  predicate TriesUpdate(ins: InsertReply) {
    ins.InsertError? && ins.code == DuplicateKey
  }

  /** The row for the `i`-th feria. */
  function RowAt(ferias: seq<Feria>, i: nat): Row
    requires i < |ferias|
  {
    FeriaToSupabase(ferias[i])
  }

  /** The `i`-th feria counts as a success. */
  predicate SyncedAt(ferias: seq<Feria>, insert: (nat, Row) -> InsertReply, update: (nat, Row) -> UpdateReply, i: nat)
    requires i < |ferias|
  {
    var ins := insert(i, RowAt(ferias, i));
    ins.InsertOk? || (TriesUpdate(ins) && update(i, RowAt(ferias, i)).UpdateOk?)
  }

  /** How many of the first `n` ferias succeed. */
  function Successes(ferias: seq<Feria>, insert: (nat, Row) -> InsertReply, update: (nat, Row) -> UpdateReply, n: nat)
    : (k: nat)
    requires n <= |ferias|
    ensures k <= n
  {
    if n == 0 then 0
    else Successes(ferias, insert, update, n - 1) + (if SyncedAt(ferias, insert, update, n - 1) then 1 else 0)
  }

  /** How many of the first `n` ferias fail. */
  function Failures(ferias: seq<Feria>, insert: (nat, Row) -> InsertReply, update: (nat, Row) -> UpdateReply, n: nat)
    : (k: nat)
    requires n <= |ferias|
    ensures k <= n
  {
    if n == 0 then 0
    else Failures(ferias, insert, update, n - 1) + (if SyncedAt(ferias, insert, update, n - 1) then 0 else 1)
  }

  /**
   * The positions among the first `n` ferias whose insert failed with a
   * duplicate key: in increasing order, each once, and every such position.
   */
  function UpdateIndices(ferias: seq<Feria>, insert: (nat, Row) -> InsertReply, n: nat): (idx: seq<nat>)
    requires n <= |ferias|
    ensures forall k :: 0 <= k < |idx| ==> idx[k] < n && TriesUpdate(insert(idx[k], RowAt(ferias, idx[k])))
    ensures forall k, l :: 0 <= k < l < |idx| ==> idx[k] < idx[l]
    ensures forall i :: 0 <= i < n && TriesUpdate(insert(i, RowAt(ferias, i))) ==> i in idx
  {
    if n == 0 then []
    else UpdateIndices(ferias, insert, n - 1) + (if TriesUpdate(insert(n - 1, RowAt(ferias, n - 1))) then [n - 1] else [])
  }

  /** The ids of the first `n` ferias for which an update was sent: one per duplicate-key position, in order. */
  function UpdateTargets(ferias: seq<Feria>, insert: (nat, Row) -> InsertReply, n: nat): (ids: seq<string>)
    requires n <= |ferias|
    ensures var idx := UpdateIndices(ferias, insert, n);
      |ids| == |idx| && forall k :: 0 <= k < |ids| ==> ids[k] == ferias[idx[k]].id
  {
    if n == 0 then []
    else UpdateTargets(ferias, insert, n - 1) + (if TriesUpdate(insert(n - 1, RowAt(ferias, n - 1))) then [ferias[n - 1].id] else [])
  }

  /** Every feria is counted once: successes and failures add up to the number processed. */
  lemma {:induction false} TallyTotal(ferias: seq<Feria>, insert: (nat, Row) -> InsertReply, update: (nat, Row) -> UpdateReply, n: nat)
    requires n <= |ferias|
    ensures Successes(ferias, insert, update, n) + Failures(ferias, insert, update, n) == n
  {
    if n > 0 {
      TallyTotal(ferias, insert, update, n - 1);
    }
  }

  /** When every insert goes through, every feria succeeds and no update is sent. */
  lemma {:induction false} AllInsertsSucceed(ferias: seq<Feria>, insert: (nat, Row) -> InsertReply, update: (nat, Row) -> UpdateReply, n: nat)
    requires n <= |ferias|
    requires forall i :: 0 <= i < n ==> insert(i, RowAt(ferias, i)).InsertOk?
    ensures Successes(ferias, insert, update, n) == n
    ensures UpdateTargets(ferias, insert, n) == []
  {
    if n > 0 {
      AllInsertsSucceed(ferias, insert, update, n - 1);
      var ins := insert(n - 1, RowAt(ferias, n - 1));
      assert ins.InsertOk?;
      assert SyncedAt(ferias, insert, update, n - 1) && !TriesUpdate(ins);
    }
  }

  /** When the database throws on every insert, every feria is an error. */
  lemma {:induction false} AllInsertsThrow(ferias: seq<Feria>, insert: (nat, Row) -> InsertReply, update: (nat, Row) -> UpdateReply, n: nat)
    requires n <= |ferias|
    requires forall i :: 0 <= i < n ==> insert(i, RowAt(ferias, i)).InsertThrows?
    ensures Failures(ferias, insert, update, n) == n
    ensures Successes(ferias, insert, update, n) == 0
  {
    if n > 0 {
      AllInsertsThrow(ferias, insert, update, n - 1);
      assert insert(n - 1, RowAt(ferias, n - 1)).InsertThrows?;
      assert !SyncedAt(ferias, insert, update, n - 1);
    }
  }

  /**
   * `syncFeriasFromGeoJSON`: insert each feria; on a duplicate key update it
   * instead; an error reply or an exception counts as an error and the loop
   * goes on. Also returns the ids an update was sent for.
   */
  method SyncFeriasFromGeoJSON(ferias: seq<Feria>, insert: (nat, Row) -> InsertReply, update: (nat, Row) -> UpdateReply)
    returns (success: nat, errors: nat, updated: seq<string>)
    ensures success == Successes(ferias, insert, update, |ferias|)
    ensures errors == Failures(ferias, insert, update, |ferias|)
    ensures success + errors == |ferias|
    ensures updated == UpdateTargets(ferias, insert, |ferias|)
  {
    success, errors, updated := 0, 0, [];
    for i := 0 to |ferias|
      invariant success == Successes(ferias, insert, update, i)
      invariant errors == Failures(ferias, insert, update, i)
      invariant updated == UpdateTargets(ferias, insert, i)
    {
      var feria := ferias[i];
      var supabaseFeria := FeriaToSupabase(feria);
      var insertReply := insert(i, supabaseFeria);
      match insertReply {
        case InsertThrows =>
          errors := errors + 1;
        case InsertError(code) =>
          if code == DuplicateKey {
            updated := updated + [feria.id];
            var updateReply := update(i, supabaseFeria);
            match updateReply {
              case UpdateOk => success := success + 1;
              case UpdateError => errors := errors + 1;
              case UpdateThrows => errors := errors + 1;
            }
          } else {
            errors := errors + 1;
          }
        case InsertOk =>
          success := success + 1;
      }
    }
    TallyTotal(ferias, insert, update, |ferias|);
  }
}
