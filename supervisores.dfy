/**
 * app/routes/supervisores.py: the supervisor listing and creation, the
 * supervisor-to-area assignment with its cross-farm check, and the
 * per-area supervisor summary with the pool of supervisors without area.
 */
module Supervisores {
  import opened Options
  import opened Models
  import opened Access
  import opened Areas

  /** `Supervisor.query.filter_by(activo=True).all()`. */
  function SupervisoresActivos(ss: seq<Supervisor>): (r: seq<Supervisor>)
    ensures forall i :: 0 <= i < |r| ==> r[i] in ss && r[i].activo
    ensures forall i :: 0 <= i < |ss| && ss[i].activo ==> ss[i] in r
  {
    Filter(ss, Activo)
  }

  predicate Activo(s: Supervisor) {
    s.activo
  }

  /** `listar_supervisores`: the active supervisors, behind the management gate. */
  function ListarSupervisores(caller: Caller, ss: seq<Supervisor>): (p: Page<seq<Supervisor>>)
    ensures !CanManage(caller) <==> p == Refused(Forbidden)
    ensures p.Shown? ==>
      (forall i :: 0 <= i < |p.rows| ==> p.rows[i] in ss && p.rows[i].activo)
      && (forall i :: 0 <= i < |ss| && ss[i].activo ==> ss[i] in p.rows)
  {
    if !CanManage(caller) then Refused(Forbidden) else Shown(SupervisoresActivos(ss))
  }

  /**
   * `crear_supervisor` (POST). The access key is `unique=True` and the
   * handler does not look for it first: a repeated key makes the commit
   * fail and nothing is stored.
   */
  method CrearSupervisor(db: Store, caller: Caller, nombre: string, apellido: string, telefono: string,
                         email: string, clave: string) returns (out: Outcome)
    requires db.Valid()
    modifies db
    ensures db.Valid()
    ensures db.usuarios == old(db.usuarios) && db.fincas == old(db.fincas)
    ensures db.areas == old(db.areas) && db.codigos == old(db.codigos)
    ensures !CanManage(caller) ==> out == Failure(Forbidden)
    ensures out.Failure? ==> db.supervisores == old(db.supervisores) && db.nextId == old(db.nextId)
    ensures CanManage(caller) ==>
      if exists i :: 0 <= i < |old(db.supervisores)| && old(db.supervisores)[i].claveAcceso == clave
      then out == Failure(DatabaseFault)
      else out == Success(1, 0)
           && db.supervisores == old(db.supervisores) + [Supervisor(old(db.nextId), nombre, apellido, telefono, email, clave, true)]
  {
    if !CanManage(caller) {
      return Failure(Forbidden);
    }
    if exists i :: 0 <= i < |db.supervisores| && db.supervisores[i].claveAcceso == clave {
      return Failure(DatabaseFault);
    }
    var s := db.AddSupervisor(nombre, apellido, telefono, email, clave);
    return Success(1, 0);
  }

  // ------------------------------------------------------------- assignment

  /** Every area of key `areaId` now names supervisor `s`; every other area as it was. */
  function ConSupervisor(as_: seq<Area>, areaId: Id, s: Id): (r: seq<Area>)
    ensures |r| == |as_|
    ensures forall i :: 0 <= i < |as_| ==>
      r[i].id == as_[i].id && r[i].fincaId == as_[i].fincaId && r[i].activa == as_[i].activa
    ensures forall i :: 0 <= i < |as_| && as_[i].id == areaId ==> r[i].supervisorId == Some(s)
    ensures forall i :: 0 <= i < |as_| && as_[i].id != areaId ==> r[i] == as_[i]
  {
    seq(|as_|, i requires 0 <= i < |as_| => if as_[i].id == areaId then as_[i].(supervisorId := Some(s)) else as_[i])
  }

  /** With unique keys, writing the row at the key's position is `ConSupervisor`. */
  lemma ConSupervisorEnPosicion(as_: seq<Area>, p: nat, s: Id)
    requires forall i, j :: 0 <= i < j < |as_| ==> as_[i].id != as_[j].id
    requires p < |as_|
    ensures as_[p := as_[p].(supervisorId := Some(s))] == ConSupervisor(as_, as_[p].id, s)
  {
    var lhs, rhs := as_[p := as_[p].(supervisorId := Some(s))], ConSupervisor(as_, as_[p].id, s);
    forall i | 0 <= i < |as_|
      ensures lhs[i] == rhs[i]
    {
      if i < p {
        assert as_[i].id != as_[p].id;
      } else if p < i {
        assert as_[p].id != as_[i].id;
      }
    }
  }

  /**
   * `asignar_supervisor_area` (POST): both keys must resolve; a non-admin may
   * only write into an area of their own farm. On success the area's
   * supervisor is overwritten and no other area changes. A supervisor may
   * head several areas.
   */
  method AsignarSupervisorArea(db: Store, caller: Caller, supervisorId: Id, areaId: Id) returns (out: Outcome)
    requires db.Valid()
    modifies db
    ensures db.Valid()
    ensures db.usuarios == old(db.usuarios) && db.fincas == old(db.fincas) && db.nextId == old(db.nextId)
    ensures db.supervisores == old(db.supervisores) && db.codigos == old(db.codigos)
    ensures !CanManage(caller) ==> out == Failure(Forbidden)
    ensures out.Failure? ==> db.areas == old(db.areas)
    ensures CanManage(caller) ==>
      (out == Failure(NotFound) <==>
         SupervisorPorId(db.supervisores, Some(supervisorId)).None? || AreaPorId(old(db.areas), areaId).None?)
    ensures CanManage(caller) && SupervisorPorId(db.supervisores, Some(supervisorId)).Some?
            && AreaPorId(old(db.areas), areaId).Some? ==>
      if MayWriteInto(caller, AreaPorId(old(db.areas), areaId).value) then
        out == Success(1, 0) && db.areas == ConSupervisor(old(db.areas), areaId, supervisorId)
      else out == Failure(OtherFarm)
  {
    if !CanManage(caller) {
      return Failure(Forbidden);
    }
    var supervisor := SupervisorPorId(db.supervisores, Some(supervisorId));
    var pa := Find(db.areas, (a: Area) => a.id, areaId);
    if supervisor.None? || pa.None? {
      return Failure(NotFound);
    }
    var area := db.areas[pa.value];
    if !MayWriteInto(caller, area) {
      return Failure(OtherFarm);
    }
    assert forall i :: 0 <= i < |db.areas| ==> AreaIds(db.areas)[i] == db.areas[i].id;
    ConSupervisorEnPosicion(db.areas, pa.value, supervisorId);
    db.SetAreaSupervisor(pa.value, Some(supervisorId));
    return Success(1, 0);
  }

  /** The GET form of `asignar_supervisor_area`: every active supervisor, the visible areas. */
  function FormularioAsignacion(caller: Caller, areas: seq<Area>, ss: seq<Supervisor>): (r: (seq<Supervisor>, seq<Area>))
    ensures forall i :: 0 <= i < |r.0| ==> r.0[i] in ss && r.0[i].activo
    ensures forall i :: 0 <= i < |ss| && ss[i].activo ==> ss[i] in r.0
    ensures r.1 == AreasEnAlcance(caller, areas)
  {
    (SupervisoresActivos(ss), AreasEnAlcance(caller, areas))
  }

  // ------------------------------------------------------ assignment summary

  /** One entry of `supervisores_por_area`. */
  datatype SupervisorDeArea = SupervisorDeArea(area: Area, supervisor: Option<Supervisor>)

  datatype ResumenSupervisores = ResumenSupervisores(
    porArea: map<Id, SupervisorDeArea>, sinArea: seq<Supervisor>)

  function EntradaDe(a: Area, ss: seq<Supervisor>): SupervisorDeArea {
    SupervisorDeArea(a, SupervisorPorId(ss, a.supervisorId))
  }

  /** Some visible area names supervisor `s`. */
  predicate DirigeAlguna(visibles: seq<Area>, s: Supervisor) {
    exists k :: 0 <= k < |visibles| && visibles[k].supervisorId == Some(s.id)
  }

  /**
   * The pool of supervisors without area: the active supervisors, in table
   * order, that no visible area names.
   */
  function SupervisoresSinArea(caller: Caller, areas: seq<Area>, ss: seq<Supervisor>): (r: seq<Supervisor>)
    ensures forall i :: 0 <= i < |r| ==>
      r[i] in ss && r[i].activo && !DirigeAlguna(AreasEnAlcance(caller, areas), r[i])
    ensures forall i :: 0 <= i < |ss| && ss[i].activo && !DirigeAlguna(AreasEnAlcance(caller, areas), ss[i]) ==>
      ss[i] in r
  {
    Filter(SupervisoresActivos(ss), SinAreaEn(AreasEnAlcance(caller, areas)))
  }

  /** The pool's test: no visible area names the supervisor. */
  function SinAreaEn(visibles: seq<Area>): Supervisor -> bool {
    (s: Supervisor) => !DirigeAlguna(visibles, s)
  }

  /**
   * The pool keeps table order and multiplicity: the pool of `a + b` is the
   * pool of `a` followed by that of `b`, and an active supervisor heading no
   * visible area is in it as often as in the table.
   */
  lemma SinAreaPorSupervisor(caller: Caller, areas: seq<Area>, a: seq<Supervisor>, b: seq<Supervisor>, s: Supervisor)
    ensures SupervisoresSinArea(caller, areas, a + b)
         == SupervisoresSinArea(caller, areas, a) + SupervisoresSinArea(caller, areas, b)
    ensures multiset(SupervisoresSinArea(caller, areas, a))[s]
         == if s.activo && !DirigeAlguna(AreasEnAlcance(caller, areas), s) then multiset(a)[s] else 0
  {
    var q := SinAreaEn(AreasEnAlcance(caller, areas));
    FilterAppend(a, b, Activo);
    FilterAppend(SupervisoresActivos(a), SupervisoresActivos(b), q);
    FilterCuenta(a, Activo, s);
    FilterCuenta(SupervisoresActivos(a), q, s);
  }

  /** `data['supervisor'] and data['supervisor'].id == s.id` for some entry of the map. */
  predicate Nombrado(m: map<Id, SupervisorDeArea>, s: Supervisor) {
    exists id :: id in m && m[id].supervisor.Some? && m[id].supervisor.value.id == s.id
  }

  /** The loop that fills `supervisores_por_area`. */
  method SupervisoresPorArea(visibles: seq<Area>, ss: seq<Supervisor>) returns (porArea: map<Id, SupervisorDeArea>)
    requires ClaveDetermina(visibles)
    ensures forall id :: id in porArea <==> exists k :: 0 <= k < |visibles| && visibles[k].id == id
    ensures forall k :: 0 <= k < |visibles| ==> porArea[visibles[k].id] == EntradaDe(visibles[k], ss)
  {
    porArea := map[];
    for k := 0 to |visibles|
      invariant forall id :: id in porArea <==> exists j :: 0 <= j < k && visibles[j].id == id
      invariant forall j :: 0 <= j < k ==> porArea[visibles[j].id] == EntradaDe(visibles[j], ss)
    {
      var area := visibles[k];
      var supervisor: Option<Supervisor> := None;
      if area.supervisorId.Some? {
        supervisor := SupervisorPorId(ss, area.supervisorId);
      }
      porArea := porArea[area.id := SupervisorDeArea(area, supervisor)];
    }
  }

  /**
   * The comprehension over the map agrees with the pool's definition: a
   * supervisor of the table is named by an entry exactly when some visible
   * area names its key.
   */
  lemma NombradoSiDirige(visibles: seq<Area>, ss: seq<Supervisor>, m: map<Id, SupervisorDeArea>, s: Supervisor)
    requires forall id :: id in m <==> exists k :: 0 <= k < |visibles| && visibles[k].id == id
    requires forall k :: 0 <= k < |visibles| ==> m[visibles[k].id] == EntradaDe(visibles[k], ss)
    requires s in ss
    ensures Nombrado(m, s) <==> DirigeAlguna(visibles, s)
  {
    if Nombrado(m, s) {
      var id :| id in m && m[id].supervisor.Some? && m[id].supervisor.value.id == s.id;
      var k :| 0 <= k < |visibles| && visibles[k].id == id;
      assert m[id] == EntradaDe(visibles[k], ss);
      assert visibles[k].supervisorId == Some(s.id);
    }
    if DirigeAlguna(visibles, s) {
      var k :| 0 <= k < |visibles| && visibles[k].supervisorId == Some(s.id);
      var i :| 0 <= i < |ss| && ss[i] == s;
      assert m[visibles[k].id] == EntradaDe(visibles[k], ss);
      assert m[visibles[k].id].supervisor.Some?;
    }
  }

  /**
   * `gestionar_asignaciones_supervisores`: one entry per visible area with
   * its supervisor, if its key resolves, and the pool of active supervisors
   * that no entry names.
   */
  method GestionarAsignacionesSupervisores(caller: Caller, areas: seq<Area>, ss: seq<Supervisor>)
    returns (page: Page<ResumenSupervisores>)
    requires forall i, j :: 0 <= i < j < |areas| ==> areas[i].id != areas[j].id
    ensures !CanManage(caller) <==> page == Refused(Forbidden)
    ensures page.Shown? ==>
      var visibles := AreasEnAlcance(caller, areas);
      && (forall id :: id in page.rows.porArea <==> exists k :: 0 <= k < |visibles| && visibles[k].id == id)
      && (forall k :: 0 <= k < |visibles| ==> page.rows.porArea[visibles[k].id] == EntradaDe(visibles[k], ss))
      && page.rows.sinArea == SupervisoresSinArea(caller, areas, ss)
  {
    if !CanManage(caller) {
      return Refused(Forbidden);
    }
    var visibles := AreasEnAlcance(caller, areas);
    AlcanceClaveDetermina(caller, areas);
    var porArea := SupervisoresPorArea(visibles, ss);
    var activos := SupervisoresActivos(ss);
    var sinArea := Filter(activos, (s: Supervisor) => !Nombrado(porArea, s));
    forall i | 0 <= i < |activos|
      ensures !Nombrado(porArea, activos[i]) == !DirigeAlguna(visibles, activos[i])
    {
      NombradoSiDirige(visibles, ss, porArea, activos[i]);
    }
    FilterExt(activos, (s: Supervisor) => !Nombrado(porArea, s), (s: Supervisor) => !DirigeAlguna(visibles, s));
    return Shown(ResumenSupervisores(porArea, sinArea));
  }

  /**
   * Right after supervisor `s` is put at the head of an area the caller
   * sees, `s` is not in the pool of supervisors without area.
   */
  lemma AsignadoSaleDelPool(caller: Caller, areas: seq<Area>, ss: seq<Supervisor>, k: nat, s: Id)
    requires k < |areas| && areas[k] in AreasEnAlcance(caller, areas)
    ensures forall i :: 0 <= i < |SupervisoresSinArea(caller, ConSupervisor(areas, areas[k].id, s), ss)| ==>
      SupervisoresSinArea(caller, ConSupervisor(areas, areas[k].id, s), ss)[i].id != s
  {
    var after := ConSupervisor(areas, areas[k].id, s);
    AlcanceSoloMiraFincaYActiva(caller, areas, after, k);
    var visibles := AreasEnAlcance(caller, after);
    var j :| 0 <= j < |visibles| && visibles[j] == after[k];
    assert visibles[j].supervisorId == Some(s);
  }
}
