/**
 * The GeoJSON feature normaliser: turns each feature of the city's fair dataset
 * into a `Feria`, translating day codes, splitting and renaming product lists,
 * reading the opening hours out of free text and guessing the kind of fair.
 */
module DataProcessor {
  import opened Wrappers
  import opened Text
  import opened Lists
  import opened Types

  /** The `properties` object of one GeoJSON feature. */
  datatype Properties = Properties(
    id: int,
    nombre: string,
    dia: string,
    horario: string,
    numero: int,
    ubicacion: string,
    barrio: string,
    comuna: string,
    productos: Option<string>,
    calle: Option<string>,
    altura: Option<int>,
    calle2: Option<string>,
    direccion: string,
    observacio: Option<string>)

  /** A point geometry; GeoJSON writes the coordinates as (longitude, latitude). */
  datatype Geometry = Geometry(kind: string, coordinates: (real, real))

  datatype Feature = Feature(kind: string, properties: Properties, geometry: Geometry)

  /** A feature collection (its coordinate reference system is not read). */
  datatype GeoJSONData = GeoJSONData(kind: string, name: string, features: seq<Feature>)

  // ---------------------------------------------------------------- days

  /** The dataset's upper-case day codes, Monday first. */
  const DiaCodes: seq<string> :=
    ["LUNES", "MARTES", "MIERCOLES", "JUEVES", "VIERNES", "SABADO", "DOMINGO"]

  /** The application's weekday names, Monday first. */
  const DiasSemana: seq<string> :=
    ["Lunes", "Martes", "Miércoles", "Jueves", "Viernes", "Sábado", "Domingo"]

  const DiaMap: map<string, string> := map[
    "LUNES" := "Lunes", "MARTES" := "Martes", "MIERCOLES" := "Miércoles",
    "JUEVES" := "Jueves", "VIERNES" := "Viernes", "SABADO" := "Sábado",
    "DOMINGO" := "Domingo"]

  /** `convertDia`: a known day code becomes its weekday name; anything else is returned as it is. */
  function ConvertDia(dia: string): string {
    if dia in DiaMap then DiaMap[dia] else dia
  }

  /**
   * The seven codes map, in order, onto the seven weekday names; any other input
   * is returned unchanged; the result is a weekday name exactly when the input
   * is a code or already a name; and converting twice is converting once.
   */
  lemma ConvertDiaSpec(dia: string)
    ensures forall i :: 0 <= i < 7 ==> ConvertDia(DiaCodes[i]) == DiasSemana[i]
    ensures dia !in DiaCodes ==> ConvertDia(dia) == dia
    ensures ConvertDia(dia) in DiasSemana <==> dia in DiaCodes || dia in DiasSemana
    ensures ConvertDia(ConvertDia(dia)) == ConvertDia(dia)
  {
    assert forall i :: 0 <= i < 7 ==> DiasSemana[i] !in DiaMap;
  }

  // ---------------------------------------------------------------- products

  const ProductoMap: map<string, string> := map[
    "Frutihorticolas" := "Frutas y Verduras",
    "pescadería" := "Pescadería",
    "panadería" := "Panadería",
    "especies y legumbres" := "Especias y Legumbres",
    "granja y carnes" := "Carnes",
    "fiambres y lácteos" := "Fiambres y Lácteos",
    "plantas" := "Plantas",
    "mascotas" := "Mascotas",
    "limpieza" := "Limpieza",
    "pescaderia" := "Pescadería",
    "granja y carne" := "Carnes",
    "fiambre y lácteos" := "Fiambres y Lácteos"]

  /** The synonym table, matched case-sensitively; unknown names pass through. */
  function NormalizeProducto(p: string): (r: string)
    ensures p != "" ==> r != ""
    ensures p !in ProductoMap ==> r == p
    ensures p in ProductoMap ==> r in ProductoMap.Values
  {
    if p in ProductoMap then ProductoMap[p] else p
  }

  /** The list used when a feature has no product text. */
  const DefaultProductos: seq<string> := ["Productos varios"]

  /**
   * `extractProductos`: missing or empty text gives the default list; otherwise the
   * comma-separated fields, trimmed, without the empty ones, through the table.
   */
  function ExtractProductos(productos: Option<string>): (r: seq<string>)
    ensures !Truthy(productos) ==> r == DefaultProductos
    ensures forall i :: 0 <= i < |r| ==> r[i] != ""
  {
    if !Truthy(productos) then DefaultProductos
    else
      var kept := Filter(Map(Split(productos.value, ','), Trim), p => |p| > 0);
      Map(kept, NormalizeProducto)
  }

  /**
   * The product list read field by field: each field of the input, trimmed,
   * contributes one entry unless it is blank.
   */
  function ProductFields(fields: seq<string>): (r: seq<string>)
  {
    if |fields| == 0 then []
    else
      var t := Trim(fields[0]);
      (if t == "" then [] else [NormalizeProducto(t)]) + ProductFields(fields[1..])
  }

  lemma {:induction false} ProductChainByField(fields: seq<string>)
    ensures Map(Filter(Map(fields, Trim), p => |p| > 0), NormalizeProducto) == ProductFields(fields)
  {
    if |fields| > 0 {
      ProductChainByField(fields[1..]);
      var trimmed := Map(fields, Trim);
      assert trimmed[1..] == Map(fields[1..], Trim);
      var head := if |trimmed[0]| > 0 then [trimmed[0]] else [];
      var tail := Filter(trimmed[1..], p => |p| > 0);
      assert Map(head + tail, NormalizeProducto)
          == Map(head, NormalizeProducto) + Map(tail, NormalizeProducto);
    }
  }

  /**
   * Non-empty product text yields exactly one entry per non-blank field, in
   * order, trimmed and renamed through the table; the default is not used.
   */
  lemma ExtractProductosByField(s: string)
    requires s != ""
    ensures ExtractProductos(Some(s)) == ProductFields(Split(s, ','))
  {
    ProductChainByField(Split(s, ','));
  }

  /** Entries of the field-by-field reading: table values, or trimmed fields that are not in the table. */
  lemma {:induction false} ProductFieldsEntries(fields: seq<string>, i: nat)
    requires i < |ProductFields(fields)|
    ensures var e := ProductFields(fields)[i];
      e != "" && (e in ProductoMap.Values || (e !in ProductoMap && e == Trim(e)))
  {
    var t := Trim(fields[0]);
    var head := if t == "" then [] else [NormalizeProducto(t)];
    var tail := ProductFields(fields[1..]);
    assert ProductFields(fields) == head + tail;
    if i < |head| {
      NormalizedEntry(fields[0]);
      assert ProductFields(fields)[i] == NormalizeProducto(t);
    } else {
      ProductFieldsEntries(fields[1..], i - |head|);
      assert ProductFields(fields)[i] == tail[i - |head|];
    }
  }

  /** One non-blank field, trimmed and renamed: a table value, or a trimmed name not in the table. */
  lemma NormalizedEntry(field: string)
    requires Trim(field) != ""
    ensures var e := NormalizeProducto(Trim(field));
      e != "" && (e in ProductoMap.Values || (e !in ProductoMap && e == Trim(e)))
  {
    TrimIdempotent(field);
  }

  lemma TrimIdempotent(s: string)
    ensures Trim(Trim(s)) == Trim(s)
  {
    TrimSpec(s);
    var t := Trim(s);
    if |t| > 0 {
      assert LeadingSpaces(t) == 0;
      assert TrailingSpaces(t) == 0;
    }
  }

  /** Product text made only of separators and blanks yields no products at all, not the default. */
  lemma SeparatorsOnlyGiveNoProducts(s: string)
    requires s == " , "
    ensures ExtractProductos(Some(s)) == []
  {
    assert s[0] == ' ' && s[1] == ',' && s[2] == ' ';
    assert IndexOf(s, ',') == 1;
    assert s[..1] == " " && s[2..] == " ";
    assert Split(s, ',') == [" ", " "] by {
      assert ',' !in " ";
    }
    TrimSpec(" ");
    assert Trim(" ") == "";
    assert ProductFields([" "]) == [];
    assert ProductFields([" ", " "]) == [] by {
      assert [" ", " "][1..] == [" "];
    }
    ExtractProductosByField(s);
  }

  // ---------------------------------------------------------------- hours

  /** Where the group `(\d{1,2}):` starting at `i` ends: the position of its colon. */
  function HourGroupEnd(s: string, i: nat): (r: Option<nat>)
    ensures r.Some? ==> i < r.value <= i + 2 && r.value < |s| && s[r.value] == ':'
                        && AllDigits(s[i..r.value])
    ensures forall j :: i < j <= i + 2 && j < |s| && AllDigits(s[i..j]) && s[j] == ':' ==> r == Some(j)
  {
    if i + 2 < |s| && IsDigit(s[i]) && IsDigit(s[i + 1]) && s[i + 2] == ':' then Some(i + 2)
    else if i + 1 < |s| && IsDigit(s[i]) && s[i + 1] == ':' then Some(i + 1)
    else None
  }

  /** The four captured groups of the hour-range pattern. */
  datatype HourMatch = HourMatch(h1: string, m1: string, h2: string, m2: string)

  /** An hour group of one or two digits and a minute group of two. */
  predicate ValidClock(h: string, mm: string) {
    1 <= |h| <= 2 && AllDigits(h) && |mm| == 2 && AllDigits(mm)
  }

  /** The groups have the shapes the pattern allows. */
  predicate ValidGroups(m: HourMatch) {
    ValidClock(m.h1, m.m1) && ValidClock(m.h2, m.m2)
  }

  /** The text `H:MM` for an hour and minute group. */
  function ClockText(h: string, mm: string): string {
    h + (":" + mm)
  }

  /** The text the pattern `de H:MM a H:MM` matches for the given groups. */
  function Render(m: HourMatch): string {
    "de " + (ClockText(m.h1, m.m1) + (" a " + ClockText(m.h2, m.m2)))
  }

  /** The regular expression matches at position `i` with groups `m`. */
  predicate PatternAt(s: string, i: nat, m: HourMatch) {
    ValidGroups(m) && i <= |s| && Render(m) <= s[i..]
  }

  predicate TwoDigitsAt(s: string, i: nat) {
    i + 2 <= |s| && IsDigit(s[i]) && IsDigit(s[i + 1])
  }

  /** The part `(\d{1,2}):(\d{2})` of the pattern, anchored at the start of `t`: its two groups. */
  function ClockPrefix(t: string): (r: Option<(string, string)>)
    ensures r.Some? ==> 1 <= |r.value.0| <= 2 && |r.value.0| + 3 <= |t|
  {
    match HourGroupEnd(t, 0)
    case None => None
    case Some(b) =>
      var rest := t[b + 1..];
      if TwoDigitsAt(rest, 0) then Some((t[..b], rest[..2])) else None
  }

  /** One attempt of the regular expression, anchored at the start of `t`. */
  function MatchPrefix(t: string): Option<HourMatch> {
    if "de " <= t then
      var t1 := t[3..];
      match ClockPrefix(t1)
      case None => None
      case Some((h1, m1)) =>
        var t2 := t1[|h1| + 3..];
        if " a " <= t2 then
          match ClockPrefix(t2[3..])
          case None => None
          case Some((h2, m2)) => Some(HourMatch(h1, m1, h2, m2))
        else None
    else None
  }

  /** One attempt of the regular expression at position `i` of `s`. */
  function MatchAt(s: string, i: nat): Option<HourMatch>
    requires i <= |s|
  {
    MatchPrefix(s[i..])
  }

  /** `a + x` is a prefix of `t` exactly when `a` is and `x` is a prefix of what follows it. */
  lemma PrefixSplit(a: string, x: string, t: string)
    ensures a + x <= t <==> a <= t && x <= t[|a|..]
  {
    if a <= t && x <= t[|a|..] {
      assert t[..|a| + |x|] == t[..|a|] + t[|a|..][..|x|];
    }
    if a + x <= t {
      assert t[..|a|] == (a + x)[..|a|];
      assert t[|a|..][..|x|] == (a + x)[|a|..];
    }
  }

  /** For two digits `m` at the start of `t`: `m + x` is a prefix exactly when `x` is a prefix of the rest. */
  lemma TwoDigitPrefix(m: string, x: string, t: string)
    requires |m| == 2 && AllDigits(m)
    ensures m + x <= t ==> TwoDigitsAt(t, 0) && t[..2] == m && x <= t[2..]
  {
    PrefixSplit(m, x, t);
  }

  /** A clock part that is read yields groups of the right shape whose text starts `t`. */
  lemma ClockSound(t: string)
    requires ClockPrefix(t).Some?
    ensures ValidClock(ClockPrefix(t).value.0, ClockPrefix(t).value.1)
    ensures ClockText(ClockPrefix(t).value.0, ClockPrefix(t).value.1) <= t
  {
    var b := HourGroupEnd(t, 0).value;
    var rest := t[b + 1..];
    var h, mm := t[..b], rest[..2];
    assert AllDigits(h) by { assert h == t[0..b]; }
    assert AllDigits(mm) by { assert mm == [rest[0], rest[1]]; }
    assert t[b..][1..] == rest;
    PrefixSplit(":", mm, t[b..]);
    PrefixSplit(h, ":" + mm, t);
  }

  /** Where `t` starts with the text of well-shaped groups, the clock part reads exactly those. */
  lemma ClockComplete(t: string, h: string, mm: string)
    requires ValidClock(h, mm) && ClockText(h, mm) <= t
    ensures ClockPrefix(t) == Some((h, mm))
  {
    PrefixSplit(h, ":" + mm, t);
    PrefixSplit(":", mm, t[|h|..]);
    var b := |h|;
    assert t[0..b] == h && t[b] == ':';
    assert HourGroupEnd(t, 0) == Some(b);
    var rest := t[b + 1..];
    assert t[b..][1..] == rest;
    TwoDigitPrefix(mm, "", rest);
    assert mm + "" == mm;
  }

  /** An attempt that succeeds yields groups for which the pattern matches there. */
  lemma MatchPrefixSound(t: string)
    requires MatchPrefix(t).Some?
    ensures ValidGroups(MatchPrefix(t).value) && Render(MatchPrefix(t).value) <= t
  {
    var m := MatchPrefix(t).value;
    var t1 := t[3..];
    ClockSound(t1);
    var t2 := t1[|m.h1| + 3..];
    ClockSound(t2[3..]);
    var second := " a " + ClockText(m.h2, m.m2);
    PrefixSplit(" a ", ClockText(m.h2, m.m2), t2);
    assert |ClockText(m.h1, m.m1)| == |m.h1| + 3;
    PrefixSplit(ClockText(m.h1, m.m1), second, t1);
    PrefixSplit("de ", ClockText(m.h1, m.m1) + second, t);
  }

  /** Wherever the pattern matches, the attempt there succeeds with exactly those groups. */
  lemma MatchPrefixComplete(t: string, m: HourMatch)
    requires ValidGroups(m) && Render(m) <= t
    ensures MatchPrefix(t) == Some(m)
  {
    var second := " a " + ClockText(m.h2, m.m2);
    PrefixSplit("de ", ClockText(m.h1, m.m1) + second, t);
    var t1 := t[3..];
    PrefixSplit(ClockText(m.h1, m.m1), second, t1);
    ClockComplete(t1, m.h1, m.m1);
    assert |ClockText(m.h1, m.m1)| == |m.h1| + 3;
    var t2 := t1[|m.h1| + 3..];
    PrefixSplit(" a ", ClockText(m.h2, m.m2), t2);
    ClockComplete(t2[3..], m.h2, m.m2);
  }

  /** The regular expression matches at `i` (with some groups) exactly when the attempt at `i` succeeds. */
  lemma MatchAtIffPattern(s: string, i: nat)
    requires i <= |s|
    ensures MatchAt(s, i).Some? <==> exists m :: PatternAt(s, i, m)
  {
    if MatchAt(s, i).Some? {
      MatchPrefixSound(s[i..]);
      assert PatternAt(s, i, MatchAt(s, i).value);
    }
    if m :| PatternAt(s, i, m) {
      MatchPrefixComplete(s[i..], m);
    }
  }

  /** The first position at or after `i` where an attempt succeeds; `|s| + 1` when none does. */
  function FirstMatchFrom(s: string, i: nat): (k: nat)
    requires i <= |s| + 1
    ensures i <= k <= |s| + 1
    ensures forall j :: i <= j < k && j <= |s| ==> MatchAt(s, j).None?
    ensures k <= |s| ==> MatchAt(s, k).Some?
    decreases |s| + 1 - i
  {
    if i == |s| + 1 || MatchAt(s, i).Some? then i else FirstMatchFrom(s, i + 1)
  }

  /** `horario.match(...)`: the leftmost match of the unanchored pattern, if any. */
  function FindHourRange(s: string): (r: Option<HourMatch>)
    ensures r.Some? ==> ValidGroups(r.value)
  {
    var k := FirstMatchFrom(s, 0);
    if k <= |s| then
      MatchPrefixSound(s[k..]);
      MatchAt(s, k)
    else None
  }

  /** A found range is a match of the pattern at the position where it is found. */
  lemma FindHourRangeSound(s: string)
    requires FindHourRange(s).Some?
    ensures FirstMatchFrom(s, 0) <= |s| && PatternAt(s, FirstMatchFrom(s, 0), FindHourRange(s).value)
  {
    MatchPrefixSound(s[FirstMatchFrom(s, 0)..]);
  }

  /** The search is leftmost: wherever the pattern matches, a range is found, at that position or earlier. */
  lemma FindHourRangeLeftmost(s: string, j: nat, m: HourMatch)
    requires PatternAt(s, j, m)
    ensures FindHourRange(s).Some? && FirstMatchFrom(s, 0) <= j
  {
    MatchPrefixComplete(s[j..], m);
    FirstMatchAtMost(s, 0, j);
  }

  lemma {:induction false} FirstMatchAtMost(s: string, i: nat, j: nat)
    requires i <= j <= |s| && MatchAt(s, j).Some?
    ensures FirstMatchFrom(s, i) <= j
    decreases j - i
  {
    if i < j && MatchAt(s, i).None? {
      FirstMatchAtMost(s, i + 1, j);
    }
  }

  /** A time written "DD:DD". */
  predicate WellFormedTime(t: string) {
    |t| == 5 && IsDigit(t[0]) && IsDigit(t[1]) && t[2] == ':' && IsDigit(t[3]) && IsDigit(t[4])
  }

  /** One bound of a matched range: the hour padded to two digits, a colon, the minutes as written. */
  function FormatTime(h: string, m: string): string {
    PadStart2(h) + ":" + m
  }

  /** The value of the two hour digits of a well-formed bound. */
  function HourValue(t: string): nat
    requires WellFormedTime(t)
  {
    10 * (t[0] as int - '0' as int) + (t[1] as int - '0' as int)
  }

  /**
   * `t` is the bound written for a matched hour `h` and minutes `mm`: "DD:DD",
   * the minutes verbatim, the hour's digits right-aligned in the first two and
   * the same hour value.
   */
  predicate ShowsClock(t: string, h: string, mm: string) {
    && WellFormedTime(t) && 1 <= |h| <= 2 && AllDigits(h)
    && t[3..] == mm && t[2 - |h|..2] == h && HourValue(t) == DigitsValue(h)
  }

  /** A formatted bound shows its hour and minutes. */
  lemma FormatTimeSpec(h: string, m: string)
    requires 1 <= |h| <= 2 && AllDigits(h) && |m| == 2 && AllDigits(m)
    ensures ShowsClock(FormatTime(h, m), h, m)
  {
    var t := FormatTime(h, m);
    assert t[..2] == PadStart2(h);
    assert DigitsValue(h[..1]) == h[0] as int - '0' as int by {
      assert h[..1][..0] == "";
    }
    if |h| == 2 {
      assert h[..|h| - 1] == h[..1];
    } else {
      assert t[1] == h[0];
    }
  }

  /** The range used when the text holds none. */
  const DefaultHorarios: Horarios := Horarios("08:00", "14:00")

  /** `extractHorarios`. */
  function ExtractHorarios(horario: string): (r: Horarios)
    ensures WellFormedTime(r.apertura) && WellFormedTime(r.cierre)
    ensures FindHourRange(horario).None? ==> r == DefaultHorarios
    ensures FindHourRange(horario).Some? ==>
      var m := FindHourRange(horario).value;
      ShowsClock(r.apertura, m.h1, m.m1) && ShowsClock(r.cierre, m.h2, m.m2)
  {
    match FindHourRange(horario)
    case Some(m) =>
      FormatTimeSpec(m.h1, m.m1);
      FormatTimeSpec(m.h2, m.m2);
      Horarios(FormatTime(m.h1, m.m1), FormatTime(m.h2, m.m2))
    case None => DefaultHorarios
  }

  /**
   * Text that begins with `de H:MM a H:MM` (one- or two-digit hours) gives those
   * bounds, with the hours zero-padded and the minutes copied.
   */
  lemma ExtractHorariosLeading(m: HourMatch, s: string)
    requires ValidGroups(m) && Render(m) <= s
    ensures ExtractHorarios(s) == Horarios(FormatTime(m.h1, m.m1), FormatTime(m.h2, m.m2))
  {
    MatchPrefixComplete(s, m);
    assert s[0..] == s;
  }

  /** The dataset's usual wording. */
  lemma ExtractHorariosExample()
    ensures ExtractHorarios("de 8:00 a 14:00") == Horarios("08:00", "14:00")
  {
    var m := HourMatch("8", "00", "14", "00");
    assert FormatTime(m.h1, m.m1) == "08:00" by {
      assert PadStart2("8") == "08" by { assert ['0'] + "8" == "08"; }
    }
    assert FormatTime(m.h2, m.m2) == "14:00" by {
      assert PadStart2("14") == "14";
    }
    assert ValidGroups(m);
    assert Render(m) == "de 8:00 a 14:00";
    ExtractHorariosLeading(m, "de 8:00 a 14:00");
  }

  // ---------------------------------------------------------------- kind of fair

  /** The four kinds `determineTipo` can answer. */
  const Tipos: seq<string> := ["Mercado", "Artesanías", "Folclore", "Gastronómico"]

  predicate HasFruitKeyword(s: string) {
    Contains(s, "frutas") || Contains(s, "verduras") || Contains(s, "hortícolas")
  }

  predicate HasCraftKeyword(s: string) {
    Contains(s, "artesanías") || Contains(s, "artesanias")
  }

  predicate HasFolkKeyword(s: string) {
    Contains(s, "folclore") || Contains(s, "folklore")
  }

  predicate HasFoodKeyword(s: string) {
    Contains(s, "gastronómico") || Contains(s, "gastronomico")
  }

  /** The product names joined by spaces and lowered: the text the keywords are looked for in. */
  function ProductText(productos: seq<string>): string {
    Lower(Join(productos, ' '))
  }

  /**
   * `determineTipo`: the first keyword family found in the product text decides,
   * in the order fruit and vegetables, crafts, folklore, food; none gives "Mercado".
   */
  function DetermineTipo(productos: seq<string>): (r: string)
    ensures r in Tipos
    ensures HasFruitKeyword(ProductText(productos)) ==> r == "Mercado"
    ensures r == "Artesanías" <==>
      !HasFruitKeyword(ProductText(productos)) && HasCraftKeyword(ProductText(productos))
    ensures r == "Folclore" <==>
      !HasFruitKeyword(ProductText(productos)) && !HasCraftKeyword(ProductText(productos))
      && HasFolkKeyword(ProductText(productos))
    ensures r == "Gastronómico" <==>
      !HasFruitKeyword(ProductText(productos)) && !HasCraftKeyword(ProductText(productos))
      && !HasFolkKeyword(ProductText(productos)) && HasFoodKeyword(ProductText(productos))
  {
    var text := ProductText(productos);
    if HasFruitKeyword(text) then "Mercado"
    else if HasCraftKeyword(text) then "Artesanías"
    else if HasFolkKeyword(text) then "Folclore"
    else if HasFoodKeyword(text) then "Gastronómico"
    else "Mercado"
  }

  /** One product naming fruit or vegetables makes the fair a "Mercado", whatever the other products are. */
  lemma FruitProductGivesMercado(productos: seq<string>, k: nat)
    requires k < |productos| && HasFruitKeyword(Lower(productos[k]))
    ensures DetermineTipo(productos) == "Mercado"
  {
    JoinContainsPart(productos, ' ', k);
    LowerKeepsContains(Join(productos, ' '), productos[k]);
    var kw :| kw in ["frutas", "verduras", "hortícolas"] && Contains(Lower(productos[k]), kw);
    ContainsTransitive(ProductText(productos), Lower(productos[k]), kw);
  }

  // ---------------------------------------------------------------- features

  /** The description: name, neighbourhood and commune, and the remarks when there are any. */
  function Descripcion(p: Properties): (d: string)
    ensures p.nombre + " - " <= d
  {
    p.nombre + " - " + p.barrio + ", " + p.comuna
      + (if Truthy(p.observacio) then " - " + p.observacio.value else "")
  }

  /**
   * The remarks only ever extend the description: a feature with truthy remarks
   * is described as the same feature without remarks followed by ` - ` and the
   * remarks, which can be read back from the end; empty or missing remarks leave
   * the description as if there were none.
   */
  lemma DescripcionRemarks(p: Properties)
    ensures var bare := Descripcion(p.(observacio := None));
      && (Truthy(p.observacio) ==> Descripcion(p) == bare + " - " + p.observacio.value)
      && (Truthy(p.observacio) ==> Descripcion(p)[|bare| + 3..] == p.observacio.value)
      && (!Truthy(p.observacio) ==> Descripcion(p) == bare)
  {
    var bare := Descripcion(p.(observacio := None));
    if Truthy(p.observacio) {
      assert (bare + " - " + p.observacio.value)[|bare| + 3..] == p.observacio.value;
    }
  }

  /** The mapping of one feature. */
  function ProcessFeature(f: Feature): (r: Feria)
    ensures r.lng == f.geometry.coordinates.0 && r.lat == f.geometry.coordinates.1
    ensures r.id == IntToString(f.properties.id)
    ensures r.nombre == f.properties.nombre && r.direccion == f.properties.direccion
    ensures r.diasFuncionamiento == [ConvertDia(f.properties.dia)]
    ensures r.productos == ExtractProductos(f.properties.productos)
    ensures r.tipo in Tipos && r.tipo == DetermineTipo(r.productos)
    ensures r.horarios == ExtractHorarios(f.properties.horario)
    ensures WellFormedTime(r.horarios.apertura) && WellFormedTime(r.horarios.cierre)
    ensures r.descripcion == Some(Descripcion(f.properties))
    ensures r.telefono.None? && r.distancia.None?
  {
    var props := f.properties;
    var (lng, lat) := f.geometry.coordinates;
    var productos := ExtractProductos(props.productos);
    Feria(
      IntToString(props.id), props.nombre, props.direccion, lat, lng,
      DetermineTipo(productos), [ConvertDia(props.dia)], ExtractHorarios(props.horario),
      productos, Some(Descripcion(props)), None, None)
  }

  /** `processGeoJSONData`: one feria per feature, in the order of the features. */
  function ProcessGeoJSONData(data: GeoJSONData): (r: seq<Feria>)
    ensures |r| == |data.features|
    ensures forall i :: 0 <= i < |r| ==> r[i] == ProcessFeature(data.features[i])
  {
    Map(data.features, ProcessFeature)
  }

  /** Features with distinct numeric ids become ferias with distinct string ids. */
  lemma ProcessedIdsDistinct(data: GeoJSONData, i: nat, j: nat)
    requires i < |data.features| && j < |data.features|
    requires data.features[i].properties.id != data.features[j].properties.id
    ensures ProcessGeoJSONData(data)[i].id != ProcessGeoJSONData(data)[j].id
  {
    if ProcessGeoJSONData(data)[i].id == ProcessGeoJSONData(data)[j].id {
      IntToStringInjective(data.features[i].properties.id, data.features[j].properties.id);
    }
  }

  /** The dataset's fruit-and-vegetable product code is renamed through the table. */
  lemma SampleProducts(code: string)
    requires code == "Frutihorticolas"
    ensures ExtractProductos(Some(code)) == ["Frutas y Verduras"]
  {
    assert ',' !in code;
    assert Trim(code) == code by {
      assert LeadingSpaces(code) == 0;
      assert TrailingSpaces(code) == 0;
    }
    assert NormalizeProducto(code) == "Frutas y Verduras";
    ghost var fields := Split(code, ',');
    assert fields == [code];
    assert ProductFields(fields) == ["Frutas y Verduras"] by {
      assert ProductFields(fields) == [NormalizeProducto(code)] + ProductFields([]);
    }
    ExtractProductosByField(code);
  }

  /** Fruit and vegetables make a market. */
  lemma SampleTipo(ps: seq<string>)
    requires ps == ["Frutas y Verduras"]
    ensures DetermineTipo(ps) == "Mercado"
  {
    assert Lower(ps[0])[0..6] == "frutas";
    assert OccursAt(Lower(ps[0]), "frutas", 0);
    FruitProductGivesMercado(ps, 0);
  }

  /**
   * The sample feature of the dataset: a Monday market selling fruit and
   * vegetables (its hours are the subject of `ExtractHorariosExample`).
   */
  lemma SampleFeature(f: Feature)
    requires f.properties.dia == "LUNES" && f.properties.productos == Some("Frutihorticolas")
    ensures var r := ProcessFeature(f);
      && r.diasFuncionamiento == ["Lunes"] && r.productos == ["Frutas y Verduras"] && r.tipo == "Mercado"
  {
    SampleDia(f.properties.dia);
    SampleProducts(f.properties.productos.value);
    SampleTipo(ExtractProductos(f.properties.productos));
  }

  /** The code `LUNES` names Monday. */
  lemma SampleDia(d: string)
    requires d == "LUNES"
    ensures ConvertDia(d) == "Lunes"
  {
    ConvertDiaSpec(d);
    assert d == DiaCodes[0];
  }
}
