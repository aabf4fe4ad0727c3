/**
 * app/routes/areas.py: the farm-scoped area listing, single and comma-list
 * area creation, and the per-area assignment summary.
 */
module Areas {
  import opened Options
  import opened Models
  import opened Access
  import opened Text

  /**
   * The areas a caller sees: every active area for an admin, the active
   * areas of their own farm for anyone else, none for a non-admin without a
   * farm. The GET branches of the assignment pages filter the same way
   * (`filter_by(finca_id=None)` matches no row, the column being NOT NULL).
   */
  function AreasEnAlcance(caller: Caller, areas: seq<Area>): (r: seq<Area>)
    ensures IsAdmin(caller) ==>
      (forall i :: 0 <= i < |r| ==> r[i] in areas && r[i].activa)
      && (forall i :: 0 <= i < |areas| && areas[i].activa ==> areas[i] in r)
    ensures !IsAdmin(caller) && caller.fincaId.Some? ==>
      (forall i :: 0 <= i < |r| ==> r[i] in areas && r[i].activa && r[i].fincaId == caller.fincaId.value)
      && (forall i :: 0 <= i < |areas| && areas[i].activa && areas[i].fincaId == caller.fincaId.value ==> areas[i] in r)
    ensures !IsAdmin(caller) && caller.fincaId.None? ==> r == []
    ensures |r| <= |areas| && forall i :: 0 <= i < |r| ==> r[i] in areas
  {
    if IsAdmin(caller) then Filter(areas, (a: Area) => a.activa)
    else match caller.fincaId
      case None => []
      case Some(f) => Filter(areas, (a: Area) => a.activa && a.fincaId == f)
  }

  /** Visibility of an area depends only on its farm and its active flag. */
  lemma {:induction false} AlcanceSoloMiraFincaYActiva(caller: Caller, as1: seq<Area>, as2: seq<Area>, k: nat)
    requires |as1| == |as2| && k < |as1|
    requires as2[k].fincaId == as1[k].fincaId && as2[k].activa == as1[k].activa
    requires as1[k] in AreasEnAlcance(caller, as1)
    ensures as2[k] in AreasEnAlcance(caller, as2)
  {
    assert as1[k].activa;
    assert !IsAdmin(caller) ==> caller.fincaId == Some(as1[k].fincaId);
  }

  /** Two rows of a table with unique keys and the same key are the same row. */
  lemma MismaClaveMismaArea(as_: seq<Area>, x: Area, y: Area)
    requires forall i, j :: 0 <= i < j < |as_| ==> as_[i].id != as_[j].id
    requires x in as_ && y in as_ && x.id == y.id
    ensures x == y
  {
    var i :| 0 <= i < |as_| && as_[i] == x;
    var j :| 0 <= j < |as_| && as_[j] == y;
  }

  /** In the visible areas, as in the table, a key names one area. */
  lemma AlcanceClaveDetermina(caller: Caller, areas: seq<Area>)
    requires forall i, j :: 0 <= i < j < |areas| ==> areas[i].id != areas[j].id
    ensures ClaveDetermina(AreasEnAlcance(caller, areas))
  {
    var vs := AreasEnAlcance(caller, areas);
    forall i, j | 0 <= i < |vs| && 0 <= j < |vs| && vs[i].id == vs[j].id
      ensures vs[i] == vs[j]
    {
      MismaClaveMismaArea(areas, vs[i], vs[j]);
    }
  }

  // ------------------------------------------------------- comma-list tokens

  /** `[num.strip() for num in areas_texto.split(',')]`. */
  function Piezas(texto: string): (r: seq<string>)
    ensures |r| == |SplitOn(texto, ',')|
    ensures forall i :: 0 <= i < |r| ==> r[i] == Strip(SplitOn(texto, ',')[i])
  {
    var ps := SplitOn(texto, ',');
    seq(|ps|, i requires 0 <= i < |ps| => Strip(ps[i]))
  }

  /** The pieces the loop of the live handler keeps: the non-empty ones, in order. */
  function NoVacias(ps: seq<string>): (r: seq<string>)
    ensures |r| <= |ps|
    ensures forall i :: 0 <= i < |r| ==> r[i] != "" && r[i] in ps
    ensures forall i :: 0 <= i < |ps| && ps[i] != "" ==> ps[i] in r
  {
    if ps == [] then []
    else NoVacias(ps[..|ps| - 1]) + (if ps[|ps| - 1] != "" then [ps[|ps| - 1]] else [])
  }

  /** The test of the live loop: `if numero:`. */
  predicate NoVacia(t: string) {
    t != ""
  }

  /** The loop's tokens are the pieces filtered by `if numero:`. */
  lemma {:induction false} NoVaciasEsFilter(ps: seq<string>)
    ensures NoVacias(ps) == Filter(ps, NoVacia)
  {
    if ps != [] {
      var pre, last := ps[..|ps| - 1], ps[|ps| - 1];
      NoVaciasEsFilter(pre);
      assert ps == pre + [last];
      FilterAppend(pre, [last], NoVacia);
      FilterUno(last, NoVacia);
    }
  }

  /**
   * The loop visits the pieces in order and keeps each non-empty one once:
   * the tokens of `a + b` are those of `a` followed by those of `b`, and a
   * non-empty piece is a token exactly as many times as it is a piece.
   */
  lemma NoVaciasPorPieza(a: seq<string>, b: seq<string>, t: string)
    ensures NoVacias(a + b) == NoVacias(a) + NoVacias(b)
    ensures multiset(NoVacias(a))[t] == if t != "" then multiset(a)[t] else 0
    ensures (forall i :: 0 <= i < |a| ==> a[i] != "") ==> NoVacias(a) == a
  {
    if forall i :: 0 <= i < |a| ==> a[i] != "" {
      FilterAll(a, NoVacia);
    }
    NoVaciasEsFilter(a + b);
    NoVaciasEsFilter(a);
    NoVaciasEsFilter(b);
    FilterAppend(a, b, NoVacia);
    FilterCuenta(a, NoVacia, t);
  }

  /** One area name per token of the live handler. */
  function TokensArea(texto: string): seq<string> {
    NoVacias(Piezas(texto))
  }

  /**
   * A token of the live handler is exactly a stripped, non-empty piece of the
   * comma split: it holds no ',' and no whitespace at either end.
   */
  lemma TokensAreaSon(texto: string)
    ensures forall t :: t in TokensArea(texto) ==> t != "" && ',' !in t && Strip(t) == t
    ensures forall t :: t in TokensArea(texto) <==> t != "" && t in Piezas(texto)
    ensures |TokensArea(texto)| <= Count(texto, ',') + 1
  {
    var ps := Piezas(texto);
    forall t | t in TokensArea(texto)
      ensures t != "" && ',' !in t && Strip(t) == t
    {
      var i :| 0 <= i < |ps| && ps[i] == t;
      PiezaLimpia(texto, i);
    }
  }

  /** Each piece of the comma split, once stripped, holds no ',' and strips to itself. */
  lemma PiezaLimpia(texto: string, i: nat)
    requires i < |Piezas(texto)|
    ensures ',' !in Piezas(texto)[i] && Strip(Piezas(texto)[i]) == Piezas(texto)[i]
  {
    var p := SplitOn(texto, ',')[i];
    var t := Strip(p);
    assert Piezas(texto)[i] == t;
    StripIdempotent(p);
    SliceKeepsAbsent(p, ',', StripStart(p), StripStart(p) + |t|);
  }

  lemma SliceKeepsAbsent(s: string, c: char, i: nat, j: nat)
    requires c !in s && i <= j <= |s|
    ensures c !in s[i..j]
  {
    assert forall k :: i <= k < j ==> s[i..j][k - i] == s[k];
  }

  // ------------------------------------------------------------- creation

  datatype AreaForm = AreaForm(
    multiples: string,      // `areas_multiples`, "" when absent
    nombre: string,
    descripcion: string,
    fincaId: Option<Id>)    // `finca_id`, read only for an admin

  /** The description prefix of the live comma-list branch. */
  const DESCRIPCION := "Área de cultivo "

  /**
   * The areas a comma-list branch adds for `tokens`, numbered from `id0`:
   * area `k` is named `"Área " + tokens[k]` and described `prefijo + tokens[k]`.
   */
  function AreasNuevas(tokens: seq<string>, prefijo: string, finca: Id, id0: Id): (r: seq<Area>)
    ensures |r| == |tokens|
  {
    seq(|tokens|, k requires 0 <= k < |tokens| =>
      Area(id0 + k, "Área " + tokens[k], prefijo + tokens[k], finca, None, true))
  }

  /** The farm new areas go to: the form's for an admin, the caller's own otherwise. */
  function FincaDeAreas(caller: Caller, form: AreaForm): (r: Option<Id>)
    ensures !IsAdmin(caller) ==> r == caller.fincaId
    ensures IsAdmin(caller) ==> r == form.fincaId
  {
    if IsAdmin(caller) then form.fincaId else caller.fincaId
  }

  lemma AreasNuevasAppend(tokens: seq<string>, t: string, prefijo: string, finca: Id, id0: Id)
    ensures AreasNuevas(tokens + [t], prefijo, finca, id0)
         == AreasNuevas(tokens, prefijo, finca, id0) + [Area(id0 + |tokens|, "Área " + t, prefijo + t, finca, None, true)]
  {
  }

  /**
   * The loop of the comma-list branch: one area per non-empty stripped
   * piece, named after it, all in farm `f`.
   */
  method CrearAreasMultiples(db: Store, piezas: seq<string>, f: Id) returns (creadas: nat)
    requires db.Valid()
    modifies db
    ensures db.Valid()
    ensures db.usuarios == old(db.usuarios) && db.fincas == old(db.fincas)
    ensures db.supervisores == old(db.supervisores) && db.codigos == old(db.codigos)
    ensures creadas == |NoVacias(piezas)| && db.nextId == old(db.nextId) + creadas
    ensures db.areas == old(db.areas) + AreasNuevas(NoVacias(piezas), DESCRIPCION, f, old(db.nextId))
  {
    creadas := 0;
    ghost var id0 := db.nextId;
    ghost var hechos: seq<string> := [];
    assert piezas[..0] == [];
    for k := 0 to |piezas|
      invariant db.Valid()
      invariant db.usuarios == old(db.usuarios) && db.fincas == old(db.fincas)
      invariant db.supervisores == old(db.supervisores) && db.codigos == old(db.codigos)
      invariant creadas == |hechos|
      invariant db.nextId == old(db.nextId) + creadas
      invariant db.areas == old(db.areas) + AreasNuevas(hechos, DESCRIPCION, f, old(db.nextId))
      invariant hechos == NoVacias(piezas[..k])
    {
      assert piezas[..k + 1][..k] == piezas[..k];
      if piezas[k] != "" {
        assert NoVacias(piezas[..k + 1]) == hechos + [piezas[k]];
        AreasNuevasAppend(hechos, piezas[k], DESCRIPCION, f, id0);
        var nueva := db.AddArea("Área " + piezas[k], DESCRIPCION + piezas[k], f);
        assert nueva == Area(id0 + |hechos|, "Área " + piezas[k], DESCRIPCION + piezas[k], f, None, true);
        assert db.areas == old(db.areas) + (AreasNuevas(hechos, DESCRIPCION, f, id0) + [nueva]);
        creadas := creadas + 1;
      } else {
        assert NoVacias(piezas[..k + 1]) == hechos;
      }
      hechos := NoVacias(piezas[..k + 1]);
    }
    assert piezas[..|piezas|] == piezas;
  }

  /**
   * `crear_area` (POST). A missing farm reaches the NOT NULL `finca_id`
   * column only when a row is added; the database then refuses the commit
   * and nothing is stored.
   */
  method CrearArea(db: Store, caller: Caller, form: AreaForm) returns (out: Outcome)
    requires db.Valid()
    modifies db
    ensures db.Valid()
    ensures db.usuarios == old(db.usuarios) && db.fincas == old(db.fincas)
    ensures db.supervisores == old(db.supervisores) && db.codigos == old(db.codigos)
    ensures !CanManage(caller) ==> out == Failure(Forbidden)
    ensures out.Failure? ==> db.areas == old(db.areas) && db.nextId == old(db.nextId)
    ensures CanManage(caller) && form.multiples != "" ==>
      var tokens := TokensArea(form.multiples);
      match FincaDeAreas(caller, form)
      case None =>
        if tokens == [] then out == Success(0, 0) && db.areas == old(db.areas)
        else out == Failure(DatabaseFault)
      case Some(f) =>
        out == Success(|tokens|, 0)
        && db.areas == old(db.areas) + AreasNuevas(tokens, DESCRIPCION, f, old(db.nextId))
    ensures CanManage(caller) && form.multiples == "" ==>
      match FincaDeAreas(caller, form)
      case None => out == Failure(DatabaseFault)
      case Some(f) =>
        out == Success(1, 0)
        && db.areas == old(db.areas) + [Area(old(db.nextId), form.nombre, form.descripcion, f, None, true)]
  {
    if !CanManage(caller) {
      return Failure(Forbidden);
    }
    var finca := FincaDeAreas(caller, form);
    if form.multiples != "" {
      var piezas := Piezas(form.multiples);
      if finca.None? {
        if NoVacias(piezas) == [] {
          return Success(0, 0);
        }
        return Failure(DatabaseFault);
      }
      var creadas := CrearAreasMultiples(db, piezas, finca.value);
      return Success(creadas, 0);
    }
    if finca.None? {
      return Failure(DatabaseFault);
    }
    var nueva := db.AddArea(form.nombre, form.descripcion, finca.value);
    return Success(1, 0);
  }

  // ------------------------------------------------------ assignment summary

  /** One entry of `areas_info`. */
  datatype AreaInfo = AreaInfo(
    area: Area, supervisor: Option<Supervisor>, codigos: seq<Codigo>, totalCodigos: nat)

  /** `Supervisor.query.get(id)` on a nullable column. */
  function SupervisorPorId(ss: seq<Supervisor>, id: Option<Id>): (r: Option<Supervisor>)
    ensures r.Some? ==> id.Some? && r.value in ss && r.value.id == id.value
    ensures id.Some? && (exists i :: 0 <= i < |ss| && ss[i].id == id.value) ==> r.Some?
  {
    match id
    case None => None
    case Some(x) =>
      match Find(ss, (s: Supervisor) => s.id, x)
      case None => None
      case Some(k) => Some(ss[k])
  }

  /** `Area.query.get(id)`. */
  function AreaPorId(as_: seq<Area>, id: Id): (r: Option<Area>)
    ensures r.Some? ==> r.value in as_ && r.value.id == id
    ensures r.None? <==> forall i :: 0 <= i < |as_| ==> as_[i].id != id
  {
    match Find(as_, (a: Area) => a.id, id)
    case None => None
    case Some(k) => Some(as_[k])
  }

  /** `Codigo.query.filter_by(area_id=..., activo=True).all()`. */
  function CodigosActivosDe(cs: seq<Codigo>, areaId: Id): (r: seq<Codigo>)
    ensures forall i :: 0 <= i < |r| ==> r[i] in cs && r[i].areaId == Some(areaId) && r[i].activo
    ensures forall i :: 0 <= i < |cs| && cs[i].areaId == Some(areaId) && cs[i].activo ==> cs[i] in r
  {
    Filter(cs, (c: Codigo) => c.areaId == Some(areaId) && c.activo)
  }

  /**
   * `gestionar_asignaciones_areas`: for each visible area, in order, its
   * supervisor (if its `supervisor_id` resolves) and its active codes with
   * their count.
   */
  method GestionarAsignacionesAreas(caller: Caller, areas: seq<Area>, supervisores: seq<Supervisor>, codigos: seq<Codigo>)
    returns (page: Page<seq<AreaInfo>>)
    ensures !CanManage(caller) <==> page == Refused(Forbidden)
    ensures page.Shown? ==>
      var visibles := AreasEnAlcance(caller, areas);
      |page.rows| == |visibles|
      && forall k :: 0 <= k < |visibles| ==>
           page.rows[k].area == visibles[k]
           && page.rows[k].supervisor == SupervisorPorId(supervisores, visibles[k].supervisorId)
           && page.rows[k].codigos == CodigosActivosDe(codigos, visibles[k].id)
           && page.rows[k].totalCodigos == |page.rows[k].codigos|
  {
    if !CanManage(caller) {
      return Refused(Forbidden);
    }
    var visibles := AreasEnAlcance(caller, areas);
    var info: seq<AreaInfo> := [];
    for k := 0 to |visibles|
      invariant |info| == k
      invariant forall j :: 0 <= j < k ==>
        info[j].area == visibles[j]
        && info[j].supervisor == SupervisorPorId(supervisores, visibles[j].supervisorId)
        && info[j].codigos == CodigosActivosDe(codigos, visibles[j].id)
        && info[j].totalCodigos == |info[j].codigos|
    {
      var area := visibles[k];
      var supervisor: Option<Supervisor> := None;
      if area.supervisorId.Some? {
        supervisor := SupervisorPorId(supervisores, area.supervisorId);
      }
      var cods := CodigosActivosDe(codigos, area.id);
      info := info + [AreaInfo(area, supervisor, cods, |cods|)];
    }
    return Shown(info);
  }
}
