/**
 * app.py: the older standalone application. Its `Codigo` has no farm, its
 * code string is unique across the whole table, and its `area_id` is
 * NOT NULL (app.py:73-77), so a code without an area can never be stored.
 * Its comma-list area creation keeps only all-digit tokens, its code
 * assignment moves every unassigned code at once, its area listing has no
 * active filter, and its login accepts only active users.
 */
module Legacy {
  import opened Options
  import opened Models
  import opened Access
  import opened Text
  import opened Areas
  import Codigos

  datatype CodigoLegacy = CodigoLegacy(
    id: Id, codigo: string, nombrePersona: string, apellidoPersona: string,
    telefono: string, areaId: Option<Id>, activo: bool)

  function CodigoLegacyIds(cs: seq<CodigoLegacy>): (ids: seq<Id>)
    ensures |ids| == |cs| && forall i :: 0 <= i < |cs| ==> ids[i] == cs[i].id
  {
    seq(|cs|, i requires 0 <= i < |cs| => cs[i].id)
  }

  /** `codigo` is `unique=True` on its own. */
  predicate CodigosUnicos(cs: seq<CodigoLegacy>) {
    forall i, j :: 0 <= i < j < |cs| ==> cs[i].codigo != cs[j].codigo
  }

  /** `area_id` is `nullable=False`. */
  predicate AreaObligatoria(cs: seq<CodigoLegacy>) {
    forall i :: 0 <= i < |cs| ==> cs[i].areaId.Some?
  }

  /** `Codigo.query.filter_by(codigo=...).first()` finds a row. */
  predicate Existe(cs: seq<CodigoLegacy>, codigo: string) {
    exists i :: 0 <= i < |cs| && cs[i].codigo == codigo
  }

  /** The tables the legacy handlers write. */
  class LegacyStore {
    var areas: seq<Area>
    var codigos: seq<CodigoLegacy>
    var nextId: Id

    ghost predicate Valid()
      reads this
    {
      && KeysOk(AreaIds(areas), nextId)
      && KeysOk(CodigoLegacyIds(codigos), nextId)
      && CodigosUnicos(codigos)
    }

    constructor ()
      ensures Valid() && areas == [] && codigos == []
    {
      areas, codigos := [], [];
      nextId := 1;
    }

    method AddArea(nombre: string, descripcion: string, finca: Id) returns (a: Area)
      requires Valid()
      modifies this
      ensures Valid()
      ensures a == Area(old(nextId), nombre, descripcion, finca, None, true)
      ensures areas == old(areas) + [a] && codigos == old(codigos) && nextId == old(nextId) + 1
    {
      a := Area(nextId, nombre, descripcion, finca, None, true);
      assert AreaIds(areas + [a]) == AreaIds(areas) + [nextId];
      areas := areas + [a];
      nextId := nextId + 1;
    }

    /** Adding a code; the code string must be new and the area is given. */
    method AddCodigo(codigo: string, nombrePersona: string, apellidoPersona: string, telefono: string,
                     area: Id) returns (c: CodigoLegacy)
      requires Valid() && !Existe(codigos, codigo)
      modifies this
      ensures Valid()
      ensures c == CodigoLegacy(old(nextId), codigo, nombrePersona, apellidoPersona, telefono, Some(area), true)
      ensures codigos == old(codigos) + [c] && areas == old(areas) && nextId == old(nextId) + 1
      ensures AreaObligatoria(old(codigos)) ==> AreaObligatoria(codigos)
    {
      c := CodigoLegacy(nextId, codigo, nombrePersona, apellidoPersona, telefono, Some(area), true);
      assert CodigoLegacyIds(codigos + [c]) == CodigoLegacyIds(codigos) + [nextId];
      var s := codigos + [c];
      forall i, j | 0 <= i < j < |s|
        ensures s[i].codigo != s[j].codigo
      {
        if j == |codigos| {
          assert s[i] == codigos[i];
        }
      }
      codigos := s;
      nextId := nextId + 1;
    }

    /** `codigo.area_id = ...` on the row at position `p`. */
    method SetCodigoArea(p: nat, area: Id)
      requires Valid() && p < |codigos|
      modifies this
      ensures Valid()
      ensures codigos == old(codigos)[p := old(codigos)[p].(areaId := Some(area))]
      ensures areas == old(areas) && nextId == old(nextId)
      ensures AreaObligatoria(old(codigos)) ==> AreaObligatoria(codigos)
    {
      var c := codigos[p].(areaId := Some(area));
      assert CodigoLegacyIds(codigos[p := c]) == CodigoLegacyIds(codigos);
      codigos := codigos[p := c];
    }
  }

  // ------------------------------------------------------------ area listing

  /** Some farm of the table has key `f` (the inner join with `Finca`). */
  predicate FincaExiste(fs: seq<Finca>, f: Id) {
    exists i :: 0 <= i < |fs| && fs[i].id == f
  }

  /**
   * `listar_areas`: an admin sees every area whose farm exists, active or
   * not; anyone else every area of their farm, active or not; a caller
   * without a farm none.
   */
  function ListarAreasLegacy(caller: Caller, areas: seq<Area>, fincas: seq<Finca>): (r: seq<Area>)
    ensures forall i :: 0 <= i < |r| ==> r[i] in areas
    ensures IsAdmin(caller) ==>
      (forall i :: 0 <= i < |r| ==> FincaExiste(fincas, r[i].fincaId))
      && (forall i :: 0 <= i < |areas| && FincaExiste(fincas, areas[i].fincaId) ==> areas[i] in r)
    ensures !IsAdmin(caller) && caller.fincaId.Some? ==>
      (forall i :: 0 <= i < |r| ==> r[i].fincaId == caller.fincaId.value)
      && (forall i :: 0 <= i < |areas| && areas[i].fincaId == caller.fincaId.value ==> areas[i] in r)
    ensures !IsAdmin(caller) && caller.fincaId.None? ==> r == []
  {
    if IsAdmin(caller) then Filter(areas, (a: Area) => FincaExiste(fincas, a.fincaId))
    else match caller.fincaId
      case None => []
      case Some(f) => Filter(areas, (a: Area) => a.fincaId == f)
  }

  /** Filtering twice is filtering once by a condition that holds exactly when both do. */
  lemma {:induction false} FilterFilter<T>(s: seq<T>, p: T -> bool, q: T -> bool, pq: T -> bool)
    requires forall i :: 0 <= i < |s| ==> pq(s[i]) == (p(s[i]) && q(s[i]))
    ensures Filter(Filter(s, p), q) == Filter(s, pq)
  {
    if s != [] {
      FilterFilter(s[1..], p, q, pq);
      if p(s[0]) {
        assert ([s[0]] + Filter(s[1..], p))[1..] == Filter(s[1..], p);
      }
    }
  }

  /**
   * Where every area's farm exists, the live listing is the legacy listing
   * with the inactive areas taken out.
   */
  lemma VivaEsLegacyActiva(caller: Caller, areas: seq<Area>, fincas: seq<Finca>)
    requires forall i :: 0 <= i < |areas| ==> FincaExiste(fincas, areas[i].fincaId)
    ensures AreasEnAlcance(caller, areas) == Filter(ListarAreasLegacy(caller, areas, fincas), (a: Area) => a.activa)
  {
    var act := (a: Area) => a.activa;
    if IsAdmin(caller) {
      FilterFilter(areas, (a: Area) => FincaExiste(fincas, a.fincaId), act, act);
    } else if caller.fincaId.Some? {
      var f := caller.fincaId.value;
      FilterFilter(areas, (a: Area) => a.fincaId == f, act, (a: Area) => a.activa && a.fincaId == f);
    }
  }

  // ------------------------------------------------------ comma-list areas

  /** The pieces the legacy loop keeps: those that are all decimal digits, in order. */
  function Numericas(ps: seq<string>): (r: seq<string>)
    ensures |r| <= |ps|
    ensures forall i :: 0 <= i < |r| ==> AllDigits(r[i]) && r[i] in ps
    ensures forall i :: 0 <= i < |ps| && AllDigits(ps[i]) ==> ps[i] in r
  {
    if ps == [] then []
    else Numericas(ps[..|ps| - 1]) + (if AllDigits(ps[|ps| - 1]) then [ps[|ps| - 1]] else [])
  }

  /** The legacy tokens are the pieces filtered by `num.isdigit()`. */
  lemma {:induction false} NumericasEsFilter(ps: seq<string>)
    ensures Numericas(ps) == Filter(ps, AllDigits)
  {
    if ps != [] {
      var pre, last := ps[..|ps| - 1], ps[|ps| - 1];
      NumericasEsFilter(pre);
      assert ps == pre + [last];
      FilterAppend(pre, [last], AllDigits);
      FilterUno(last, AllDigits);
    }
  }

  /**
   * The legacy loop visits the pieces in order and keeps each all-digit one
   * once: the tokens of `a + b` are those of `a` followed by those of `b`,
   * and an all-digit piece is a token as many times as it is a piece.
   */
  lemma NumericasPorPieza(a: seq<string>, b: seq<string>, t: string)
    ensures Numericas(a + b) == Numericas(a) + Numericas(b)
    ensures multiset(Numericas(a))[t] == if AllDigits(t) then multiset(a)[t] else 0
    ensures (forall i :: 0 <= i < |a| ==> AllDigits(a[i])) ==> Numericas(a) == a
  {
    if forall i :: 0 <= i < |a| ==> AllDigits(a[i]) {
      FilterAll(a, AllDigits);
    }
    NumericasEsFilter(a + b);
    NumericasEsFilter(a);
    NumericasEsFilter(b);
    FilterAppend(a, b, AllDigits);
    FilterCuenta(a, AllDigits, t);
  }

  /** One area name per token of the legacy handler. */
  function TokensAreaLegacy(texto: string): seq<string> {
    Numericas(Piezas(texto))
  }

  lemma {:induction false} NumericasDeNoVacias(ps: seq<string>)
    ensures Numericas(NoVacias(ps)) == Numericas(ps)
  {
    if ps != [] {
      var pre, last := ps[..|ps| - 1], ps[|ps| - 1];
      NumericasDeNoVacias(pre);
      var nv := NoVacias(pre);
      if last != "" {
        var s := nv + [last];
        assert NoVacias(ps) == s;
        assert s[..|s| - 1] == nv && s[|s| - 1] == last;
        assert Numericas(s) == Numericas(nv) + (if AllDigits(last) then [last] else []);
      } else {
        assert NoVacias(ps) == nv;
        assert !AllDigits(last) by { assert |last| == 0; }
      }
    }
  }

  /** The legacy tokens are exactly the live tokens that are all digits. */
  lemma TokensLegacySonVivasNumericas(texto: string)
    ensures TokensAreaLegacy(texto) == Numericas(TokensArea(texto))
  {
    NumericasDeNoVacias(Piezas(texto));
  }

  /** The description prefix of the legacy comma-list branch. */
  const DESCRIPCION_LEGACY := "Área de cultivo número "

  /** The loop of the legacy comma-list branch. */
  method CrearAreasNumeradas(db: LegacyStore, piezas: seq<string>, f: Id) returns (creadas: nat)
    requires db.Valid()
    modifies db
    ensures db.Valid() && db.codigos == old(db.codigos)
    ensures creadas == |Numericas(piezas)| && db.nextId == old(db.nextId) + creadas
    ensures db.areas == old(db.areas) + AreasNuevas(Numericas(piezas), DESCRIPCION_LEGACY, f, old(db.nextId))
  {
    creadas := 0;
    ghost var id0 := db.nextId;
    ghost var hechos: seq<string> := [];
    assert piezas[..0] == [];
    for k := 0 to |piezas|
      invariant db.Valid() && db.codigos == old(db.codigos)
      invariant creadas == |hechos|
      invariant db.nextId == old(db.nextId) + creadas
      invariant db.areas == old(db.areas) + AreasNuevas(hechos, DESCRIPCION_LEGACY, f, old(db.nextId))
      invariant hechos == Numericas(piezas[..k])
    {
      assert piezas[..k + 1][..k] == piezas[..k];
      if AllDigits(piezas[k]) {
        assert Numericas(piezas[..k + 1]) == hechos + [piezas[k]];
        AreasNuevasAppend(hechos, piezas[k], DESCRIPCION_LEGACY, f, id0);
        var nueva := db.AddArea("Área " + piezas[k], DESCRIPCION_LEGACY + piezas[k], f);
        assert nueva == Area(id0 + |hechos|, "Área " + piezas[k], DESCRIPCION_LEGACY + piezas[k], f, None, true);
        assert db.areas == old(db.areas) + (AreasNuevas(hechos, DESCRIPCION_LEGACY, f, id0) + [nueva]);
        creadas := creadas + 1;
      } else {
        assert Numericas(piezas[..k + 1]) == hechos;
      }
      hechos := Numericas(piezas[..k + 1]);
    }
    assert piezas[..|piezas|] == piezas;
  }

  /**
   * Legacy `crear_area` (POST): as in the live handler, except that the
   * comma-list branch keeps only all-digit tokens and describes each area
   * as "Área de cultivo número <n>".
   */
  method CrearAreaLegacy(db: LegacyStore, caller: Caller, form: AreaForm) returns (out: Outcome)
    requires db.Valid()
    modifies db
    ensures db.Valid() && db.codigos == old(db.codigos)
    ensures !CanManage(caller) ==> out == Failure(Forbidden)
    ensures out.Failure? ==> db.areas == old(db.areas) && db.nextId == old(db.nextId)
    ensures CanManage(caller) && form.multiples != "" ==>
      var tokens := TokensAreaLegacy(form.multiples);
      match FincaDeAreas(caller, form)
      case None =>
        if tokens == [] then out == Success(0, 0) && db.areas == old(db.areas)
        else out == Failure(DatabaseFault)
      case Some(f) =>
        out == Success(|tokens|, 0)
        && db.areas == old(db.areas) + AreasNuevas(tokens, DESCRIPCION_LEGACY, f, old(db.nextId))
    ensures CanManage(caller) && form.multiples == "" ==>
      match FincaDeAreas(caller, form)
      case None => out == Failure(DatabaseFault)
      case Some(f) =>
        out == Success(1, 0)
        && db.areas == old(db.areas) + [Area(old(db.nextId), form.nombre, form.descripcion, f, None, true)]
  {
    if !CanManage(caller) {
      return Failure(Forbidden);
    }
    var finca := FincaDeAreas(caller, form);
    if form.multiples != "" {
      var piezas := Piezas(form.multiples);
      if finca.None? {
        if Numericas(piezas) == [] {
          return Success(0, 0);
        }
        return Failure(DatabaseFault);
      }
      var creadas := CrearAreasNumeradas(db, piezas, finca.value);
      return Success(creadas, 0);
    }
    if finca.None? {
      return Failure(DatabaseFault);
    }
    var nueva := db.AddArea(form.nombre, form.descripcion, finca.value);
    return Success(1, 0);
  }

  // ------------------------------------------------------------- code range

  /** The codes of `codes`, in order, that no row of the table carries. */
  function FaltantesLegacy(cs: seq<CodigoLegacy>, codes: seq<string>): (r: seq<string>)
    ensures |r| <= |codes|
    ensures forall i :: 0 <= i < |r| ==> r[i] in codes && !Existe(cs, r[i])
    ensures forall i :: 0 <= i < |codes| && !Existe(cs, codes[i]) ==> codes[i] in r
  {
    if codes == [] then []
    else
      var last := codes[|codes| - 1];
      FaltantesLegacy(cs, codes[..|codes| - 1]) + (if !Existe(cs, last) then [last] else [])
  }

  /** The test of the legacy range loop: `not existe`, over the whole table. */
  function Falta(cs: seq<CodigoLegacy>): string -> bool {
    (c: string) => !Existe(cs, c)
  }

  /** The missing codes are the codes filtered by the loop's existence check. */
  lemma {:induction false} FaltantesLegacyEsFilter(cs: seq<CodigoLegacy>, codes: seq<string>)
    ensures FaltantesLegacy(cs, codes) == Filter(codes, Falta(cs))
  {
    if codes != [] {
      var pre, last := codes[..|codes| - 1], codes[|codes| - 1];
      FaltantesLegacyEsFilter(cs, pre);
      assert codes == pre + [last];
      FilterAppend(pre, [last], Falta(cs));
      FilterUno(last, Falta(cs));
    }
  }

  /**
   * The legacy range loop visits the codes in order: the missing codes of
   * `a + b` are those of `a` followed by those of `b`, and a code no row
   * carries is missing as many times as it is listed.
   */
  lemma FaltantesLegacyPorCodigo(cs: seq<CodigoLegacy>, a: seq<string>, b: seq<string>, c: string)
    ensures FaltantesLegacy(cs, a + b) == FaltantesLegacy(cs, a) + FaltantesLegacy(cs, b)
    ensures multiset(FaltantesLegacy(cs, a))[c] == if !Existe(cs, c) then multiset(a)[c] else 0
  {
    FaltantesLegacyEsFilter(cs, a + b);
    FaltantesLegacyEsFilter(cs, a);
    FaltantesLegacyEsFilter(cs, b);
    FilterAppend(a, b, Falta(cs));
    FilterCuenta(a, Falta(cs), c);
  }

  function FilasLegacy(nuevos: seq<string>, area: Id, id0: Id): (r: seq<CodigoLegacy>)
    ensures |r| == |nuevos|
  {
    seq(|nuevos|, j requires 0 <= j < |nuevos| =>
      CodigoLegacy(id0 + j, nuevos[j], "Persona " + nuevos[j], "Cosechador", "", Some(area), true))
  }

  lemma FilasLegacyAppend(nuevos: seq<string>, c: string, area: Id, id0: Id)
    ensures FilasLegacy(nuevos + [c], area, id0)
         == FilasLegacy(nuevos, area, id0) + [CodigoLegacy(id0 + |nuevos|, c, "Persona " + c, "Cosechador", "", Some(area), true)]
  {
  }

  lemma ExisteConFilas(cs: seq<CodigoLegacy>, nuevos: seq<string>, area: Id, id0: Id, c: string)
    requires c !in nuevos
    ensures Existe(cs + FilasLegacy(nuevos, area, id0), c) == Existe(cs, c)
  {
    var s := cs + FilasLegacy(nuevos, area, id0);
    if Existe(s, c) {
      var i :| 0 <= i < |s| && s[i].codigo == c;
      assert i < |cs|;
      assert cs[i] == s[i];
    }
    if Existe(cs, c) {
      var i :| 0 <= i < |cs| && cs[i].codigo == c;
      assert s[i] == cs[i];
    }
  }

  lemma PasoRangoLegacy(c0: seq<CodigoLegacy>, codes: seq<string>, k: nat, area: Id, id0: Id)
    requires Codigos.Distintos(codes) && k < |codes|
    ensures var hechos := FaltantesLegacy(c0, codes[..k]);
            && Existe(c0 + FilasLegacy(hechos, area, id0), codes[k]) == Existe(c0, codes[k])
            && FaltantesLegacy(c0, codes[..k + 1]) == hechos + (if !Existe(c0, codes[k]) then [codes[k]] else [])
  {
    var hechos := FaltantesLegacy(c0, codes[..k]);
    assert codes[..k + 1][..k] == codes[..k];
    ExisteConFilas(c0, hechos, area, id0, codes[k]);
  }

  /** The body of the legacy range loop for the `k`-th code. */
  method PasoCrearLegacy(db: LegacyStore, ghost c0: seq<CodigoLegacy>, codes: seq<string>, k: nat,
                         area: Id, ghost id0: Id) returns (creado: bool)
    requires db.Valid() && Codigos.Distintos(codes) && k < |codes|
    requires db.codigos == c0 + FilasLegacy(FaltantesLegacy(c0, codes[..k]), area, id0)
    requires db.nextId == id0 + |FaltantesLegacy(c0, codes[..k])|
    modifies db
    ensures db.Valid() && db.areas == old(db.areas)
    ensures creado == !Existe(c0, codes[k])
    ensures FaltantesLegacy(c0, codes[..k + 1]) == FaltantesLegacy(c0, codes[..k]) + (if creado then [codes[k]] else [])
    ensures db.codigos == c0 + FilasLegacy(FaltantesLegacy(c0, codes[..k + 1]), area, id0)
    ensures db.nextId == id0 + |FaltantesLegacy(c0, codes[..k + 1])|
  {
    ghost var hechos := FaltantesLegacy(c0, codes[..k]);
    PasoRangoLegacy(c0, codes, k, area, id0);
    var codigo := codes[k];
    creado := !Existe(db.codigos, codigo);
    if creado {
      assert FaltantesLegacy(c0, codes[..k + 1]) == hechos + [codigo];
      FilasLegacyAppend(hechos, codigo, area, id0);
      var nuevo := db.AddCodigo(codigo, "Persona " + codigo, "Cosechador", "", area);
      assert nuevo == CodigoLegacy(id0 + |hechos|, codigo, "Persona " + codigo, "Cosechador", "", Some(area), true);
      assert db.codigos == c0 + (FilasLegacy(hechos, area, id0) + [nuevo]);
    } else {
      assert FaltantesLegacy(c0, codes[..k + 1]) == hechos;
    }
  }

  /** The legacy range loop over distinct codes, duplicates judged across the whole table. */
  method CrearListaLegacy(db: LegacyStore, codes: seq<string>, area: Id) returns (creados: nat, existentes: nat)
    requires db.Valid() && Codigos.Distintos(codes)
    modifies db
    ensures db.Valid() && db.areas == old(db.areas)
    ensures var nuevos := FaltantesLegacy(old(db.codigos), codes);
            && creados == |nuevos|
            && creados + existentes == |codes|
            && db.codigos == old(db.codigos) + FilasLegacy(nuevos, area, old(db.nextId))
            && db.nextId == old(db.nextId) + creados
  {
    creados, existentes := 0, 0;
    ghost var c0, id0 := db.codigos, db.nextId;
    ghost var hechos: seq<string> := [];
    assert codes[..0] == [];
    assert db.codigos == c0 + FilasLegacy(hechos, area, id0);
    for k := 0 to |codes|
      invariant db.Valid() && db.areas == old(db.areas)
      invariant hechos == FaltantesLegacy(c0, codes[..k])
      invariant creados == |hechos| && creados + existentes == k
      invariant db.codigos == c0 + FilasLegacy(hechos, area, id0)
      invariant db.nextId == id0 + creados
    {
      var creado := PasoCrearLegacy(db, c0, codes, k, area, id0);
      hechos := FaltantesLegacy(c0, codes[..k + 1]);
      if creado {
        creados := creados + 1;
      } else {
        existentes := existentes + 1;
      }
    }
    assert codes[..|codes|] == codes;
  }

  /**
   * The legacy range branch once the range is parsed. With no area, the
   * first insert violates NOT NULL and the whole range rolls back; a range
   * with nothing to insert still reports a warning.
   */
  method CrearCodigosRangoLegacy(db: LegacyStore, parsed: Parsed, area: Option<Id>) returns (out: Outcome)
    requires db.Valid()
    modifies db
    ensures db.Valid() && db.areas == old(db.areas)
    ensures out.Failure? ==> db.codigos == old(db.codigos) && db.nextId == old(db.nextId)
    ensures parsed.Err? ==> out == Failure(Codigos.ErrorDeRango(parsed.error))
    ensures parsed.Ok? && area.None? ==>
      var codes := RangeCodes(parsed.range);
      var nuevos := FaltantesLegacy(old(db.codigos), codes);
      if |nuevos| > 0 then out == Failure(DatabaseFault)
      else out == Warning(0, |codes|) && db.codigos == old(db.codigos)
    ensures parsed.Ok? && area.Some? ==>
      var nuevos := FaltantesLegacy(old(db.codigos), RangeCodes(parsed.range));
      db.codigos == old(db.codigos) + FilasLegacy(nuevos, area.value, old(db.nextId))
    ensures parsed.Ok? && area.Some? ==>
      var codes := RangeCodes(parsed.range);
      var nuevos := FaltantesLegacy(old(db.codigos), codes);
      out == (if |nuevos| > 0 then Success(|nuevos|, |codes| - |nuevos|) else Warning(0, |codes| - |nuevos|))
  {
    if parsed.Err? {
      return Failure(Codigos.ErrorDeRango(parsed.error));
    }
    var codes := RangeCodes(parsed.range);
    Codigos.RangoDistinto(parsed.range);
    if area.None? {
      if |FaltantesLegacy(db.codigos, codes)| > 0 {
        return Failure(DatabaseFault);
      }
      return Warning(0, |codes|);
    }
    var creados, existentes := CrearListaLegacy(db, codes, area.value);
    ghost var nuevos := FaltantesLegacy(old(db.codigos), codes);
    assert creados == |nuevos| && existentes == |codes| - |nuevos|;
    if creados > 0 {
      return Success(creados, existentes);
    }
    return Warning(creados, existentes);
  }

  /** The legacy single branch: an existing code string is refused; no area is a NOT NULL fault. */
  method CrearCodigoUnicoLegacy(db: LegacyStore, codigo: string, nombrePersona: string, apellidoPersona: string,
                                telefono: string, area: Option<Id>) returns (out: Outcome)
    requires db.Valid()
    modifies db
    ensures db.Valid() && db.areas == old(db.areas)
    ensures out.Failure? ==> db.codigos == old(db.codigos) && db.nextId == old(db.nextId)
    ensures Existe(old(db.codigos), codigo) ==> out == Failure(DuplicateCode)
    ensures !Existe(old(db.codigos), codigo) && area.None? ==> out == Failure(DatabaseFault)
    ensures !Existe(old(db.codigos), codigo) && area.Some? ==>
      out == Success(1, 0)
      && db.codigos == old(db.codigos) + [CodigoLegacy(old(db.nextId), codigo, nombrePersona, apellidoPersona,
                                                       telefono, area, true)]
  {
    if Existe(db.codigos, codigo) {
      return Failure(DuplicateCode);
    }
    if area.None? {
      return Failure(DatabaseFault);
    }
    var nuevo := db.AddCodigo(codigo, nombrePersona, apellidoPersona, telefono, area.value);
    return Success(1, 0);
  }

  /**
   * Legacy `crear_codigo` (POST): the role gate, then the range branch when
   * `rango_codigos` is non-empty and the single branch otherwise; there is
   * no farm to resolve.
   */
  method CrearCodigoLegacy(db: LegacyStore, caller: Caller, form: Codigos.CodigoForm) returns (out: Outcome)
    requires db.Valid()
    modifies db
    ensures db.Valid() && db.areas == old(db.areas)
    ensures !CanManage(caller) ==> out == Failure(Forbidden)
    ensures out.Failure? ==> db.codigos == old(db.codigos) && db.nextId == old(db.nextId)
    ensures CanManage(caller) && form.rango != "" ==>
      match ParseRange(form.rango)
      case Err(e) => out == Failure(Codigos.ErrorDeRango(e))
      case Ok(r) =>
        var codes := RangeCodes(r);
        var nuevos := FaltantesLegacy(old(db.codigos), codes);
        var omitidos := |codes| - |nuevos|;
        match form.areaId
        case None =>
          if |nuevos| > 0 then out == Failure(DatabaseFault)
          else out == Warning(0, |codes|) && db.codigos == old(db.codigos)
        case Some(a) =>
          && db.codigos == old(db.codigos) + FilasLegacy(nuevos, a, old(db.nextId))
          && out == (if |nuevos| > 0 then Success(|nuevos|, omitidos) else Warning(0, omitidos))
    ensures CanManage(caller) && form.rango == "" ==>
      if Existe(old(db.codigos), form.codigo) then out == Failure(DuplicateCode)
      else if form.areaId.None? then out == Failure(DatabaseFault)
      else out == Success(1, 0)
    ensures CanManage(caller) && form.rango == "" && !Existe(old(db.codigos), form.codigo) && form.areaId.Some? ==>
      db.codigos == old(db.codigos) + [CodigoLegacy(old(db.nextId), form.codigo, form.nombrePersona,
                                                    form.apellidoPersona, form.telefono, form.areaId, true)]
  {
    if !CanManage(caller) {
      return Failure(Forbidden);
    }
    if form.rango != "" {
      out := CrearCodigosRangoLegacy(db, ParseRange(form.rango), form.areaId);
    } else {
      out := CrearCodigoUnicoLegacy(db, form.codigo, form.nombrePersona, form.apellidoPersona, form.telefono, form.areaId);
    }
  }

  /** Range provisioning keeps every code string unique. */
  lemma RangoLegacyNoDuplica(cs: seq<CodigoLegacy>, r: Range, area: Id, id0: Id)
    requires CodigosUnicos(cs)
    ensures CodigosUnicos(cs + FilasLegacy(FaltantesLegacy(cs, RangeCodes(r)), area, id0))
  {
    var codes := RangeCodes(r);
    Codigos.RangoDistinto(r);
    var nuevos := FaltantesLegacy(cs, codes);
    FaltantesLegacyDistintos(cs, codes);
    var filas := FilasLegacy(nuevos, area, id0);
    var s := cs + filas;
    forall i, j | 0 <= i < j < |s|
      ensures s[i].codigo != s[j].codigo
    {
      if j >= |cs| {
        assert s[j] == filas[j - |cs|];
        if i >= |cs| {
          assert s[i] == filas[i - |cs|];
        } else {
          assert s[i] == cs[i];
          assert !Existe(cs, nuevos[j - |cs|]);
        }
      } else {
        assert s[i] == cs[i] && s[j] == cs[j];
      }
    }
  }

  lemma {:induction false} FaltantesLegacyDistintos(cs: seq<CodigoLegacy>, codes: seq<string>)
    requires Codigos.Distintos(codes)
    ensures Codigos.Distintos(FaltantesLegacy(cs, codes))
  {
    if codes != [] {
      var pre := codes[..|codes| - 1];
      var last := codes[|codes| - 1];
      assert Codigos.Distintos(pre);
      FaltantesLegacyDistintos(cs, pre);
      var fp := FaltantesLegacy(cs, pre);
      forall i | 0 <= i < |fp|
        ensures fp[i] != last
      {
        var k :| 0 <= k < |pre| && pre[k] == fp[i];
        assert codes[k] == fp[i];
      }
    }
  }

  // ------------------------------------------------------------- assignment

  /** Every code without area moved to area `a`; every other code as it was. */
  function TodosAlArea(cs: seq<CodigoLegacy>, a: Id): (r: seq<CodigoLegacy>)
    ensures |r| == |cs| && AreaObligatoria(r)
    ensures forall i :: 0 <= i < |cs| ==> r[i].id == cs[i].id && r[i].codigo == cs[i].codigo
    ensures forall i :: 0 <= i < |cs| && cs[i].areaId.None? ==> r[i].areaId == Some(a)
    ensures forall i :: 0 <= i < |cs| && cs[i].areaId.Some? ==> r[i] == cs[i]
  {
    seq(|cs|, i requires 0 <= i < |cs| => if cs[i].areaId.None? then cs[i].(areaId := Some(a)) else cs[i])
  }

  /** `len(Codigo.query.filter_by(area_id=None).all())`. */
  function SinAreaCount(cs: seq<CodigoLegacy>): nat {
    if cs == [] then 0
    else SinAreaCount(cs[..|cs| - 1]) + (if cs[|cs| - 1].areaId.None? then 1 else 0)
  }

  /** The count is zero exactly when every code has an area. */
  lemma {:induction false} SinAreaCountCero(cs: seq<CodigoLegacy>)
    ensures SinAreaCount(cs) == 0 <==> AreaObligatoria(cs)
  {
    if cs != [] {
      SinAreaCountCero(cs[..|cs| - 1]);
      assert forall i :: 0 <= i < |cs| - 1 ==> cs[..|cs| - 1][i] == cs[i];
    }
  }

  /**
   * Legacy `asignar_area_codigos` (POST): every code without area moves to
   * the chosen area and the count reported is how many there were; codes
   * with an area are untouched.
   */
  method AsignarTodosLegacy(db: LegacyStore, caller: Caller, a: Id) returns (out: Outcome)
    requires db.Valid()
    modifies db
    ensures db.Valid() && db.areas == old(db.areas) && db.nextId == old(db.nextId)
    ensures !CanManage(caller) ==> out == Failure(Forbidden) && db.codigos == old(db.codigos)
    ensures CanManage(caller) ==>
      out == Success(SinAreaCount(old(db.codigos)), 0) && db.codigos == TodosAlArea(old(db.codigos), a)
  {
    if !CanManage(caller) {
      return Failure(Forbidden);
    }
    ghost var c0 := db.codigos;
    var movidos := 0;
    for i := 0 to |db.codigos|
      invariant db.Valid() && db.areas == old(db.areas) && db.nextId == old(db.nextId)
      invariant |db.codigos| == |c0|
      invariant forall j :: 0 <= j < i ==> db.codigos[j] == TodosAlArea(c0, a)[j]
      invariant forall j :: i <= j < |c0| ==> db.codigos[j] == c0[j]
      invariant movidos == SinAreaCount(c0[..i])
    {
      assert c0[..i + 1][..i] == c0[..i];
      if db.codigos[i].areaId.None? {
        db.SetCodigoArea(i, a);
        movidos := movidos + 1;
      }
    }
    assert c0[..|c0|] == c0;
    return Success(movidos, 0);
  }

  /** Under the NOT NULL column no code is ever without area, so the legacy bulk assignment moves nothing. */
  lemma AsignarTodosSinEfecto(cs: seq<CodigoLegacy>, a: Id)
    requires AreaObligatoria(cs)
    ensures SinAreaCount(cs) == 0 && TodosAlArea(cs, a) == cs
  {
    SinAreaCountCero(cs);
  }

  /** Assigning all unassigned codes twice is assigning them once. */
  lemma TodosAlAreaIdempotente(cs: seq<CodigoLegacy>, a: Id, b: Id)
    ensures TodosAlArea(TodosAlArea(cs, a), b) == TodosAlArea(cs, a)
  {
  }

  /**
   * Legacy `asignar_codigo_area` (POST): both keys must resolve and a
   * non-admin may only write into an area of their own farm.
   */
  method AsignarCodigoAreaLegacy(db: LegacyStore, caller: Caller, codigoId: Id, areaId: Id) returns (out: Outcome)
    requires db.Valid()
    modifies db
    ensures db.Valid() && db.areas == old(db.areas) && db.nextId == old(db.nextId)
    ensures !CanManage(caller) ==> out == Failure(Forbidden)
    ensures out.Failure? ==> db.codigos == old(db.codigos)
    ensures CanManage(caller) ==>
      (out == Failure(NotFound) <==>
         (forall i :: 0 <= i < |old(db.codigos)| ==> old(db.codigos)[i].id != codigoId) || AreaPorId(db.areas, areaId).None?)
    ensures CanManage(caller) && AreaPorId(db.areas, areaId).Some?
            && (exists i :: 0 <= i < |old(db.codigos)| && old(db.codigos)[i].id == codigoId) ==>
      if MayWriteInto(caller, AreaPorId(db.areas, areaId).value) then out == Success(1, 0)
      else out == Failure(OtherFarm)
    ensures out.Success? ==>
      exists p :: 0 <= p < |old(db.codigos)| && old(db.codigos)[p].id == codigoId
        && db.codigos == old(db.codigos)[p := old(db.codigos)[p].(areaId := Some(areaId))]
        && MayWriteInto(caller, AreaPorId(db.areas, areaId).value)
  {
    if !CanManage(caller) {
      return Failure(Forbidden);
    }
    var pc := Find(db.codigos, (c: CodigoLegacy) => c.id, codigoId);
    var area := AreaPorId(db.areas, areaId);
    if pc.None? || area.None? {
      return Failure(NotFound);
    }
    if !MayWriteInto(caller, area.value) {
      return Failure(OtherFarm);
    }
    db.SetCodigoArea(pc.value, areaId);
    return Success(1, 0);
  }

  // ------------------------------------------------------------------ login

  /** The part of the session the login writes. */
  datatype Sesion = Sesion(userId: Option<Id>, username: string, rol: string)

  /** `Usuario.query.filter_by(username=..., activo=True).first()`. */
  function PrimeroActivo(us: seq<Usuario>, username: string): (r: Option<nat>)
    ensures r.Some? ==> r.value < |us| && us[r.value].username == username && us[r.value].activo
    ensures r.None? <==> forall i :: 0 <= i < |us| ==> !(us[i].username == username && us[i].activo)
    ensures r.Some? ==> forall j :: 0 <= j < r.value ==> !(us[j].username == username && us[j].activo)
  {
    if us == [] then None
    else if us[0].username == username && us[0].activo then Some(0)
    else match PrimeroActivo(us[1..], username)
      case None => None
      case Some(k) => Some(k + 1)
  }

  /**
   * Legacy `login` (POST): the session takes the user's key, name and role
   * when an active user of that name exists and the password checks against
   * its stored hash; otherwise the session is left as it was. The hash
   * check is the parameter `verifica`.
   */
  function Login(s: Sesion, us: seq<Usuario>, username: string, password: string,
                 verifica: (string, string) -> bool): (r: Sesion)
    ensures r != s ==>
      exists i :: 0 <= i < |us| && us[i].username == username && us[i].activo
        && verifica(us[i].passwordHash, password) && r == Sesion(Some(us[i].id), us[i].username, us[i].rol)
    ensures UsuariosUnicos(us) ==>
      forall i :: 0 <= i < |us| && us[i].username == username && us[i].activo && verifica(us[i].passwordHash, password) ==>
        r == Sesion(Some(us[i].id), username, us[i].rol)
  {
    match PrimeroActivo(us, username)
    case None => s
    case Some(k) =>
      if verifica(us[k].passwordHash, password) then Sesion(Some(us[k].id), us[k].username, us[k].rol) else s
  }

  /** An inactive user never logs in: with no active user of that name the session is unchanged. */
  lemma InactivoNoEntra(s: Sesion, us: seq<Usuario>, username: string, password: string,
                        verifica: (string, string) -> bool)
    requires forall i :: 0 <= i < |us| && us[i].username == username ==> !us[i].activo
    ensures Login(s, us, username, password, verifica) == s
  {
  }
}
