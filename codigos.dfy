/**
 * app/routes/codigos.py: the farm-scoped code listing, range and single code
 * creation, bulk and single code-to-area assignment, and the per-area code
 * summary.
 */
module Codigos {
  import opened Options
  import opened Models
  import opened Access
  import opened Text
  import opened Areas

  /**
   * `listar_codigos`: an admin sees every code, anyone else the codes of
   * their own farm, a caller without a farm none. No role gate and no active
   * filter apply.
   */
  function CodigosVisibles(caller: Caller, cs: seq<Codigo>): (r: seq<Codigo>)
    ensures IsAdmin(caller) ==> r == cs
    ensures !IsAdmin(caller) && caller.fincaId.Some? ==>
      (forall i :: 0 <= i < |r| ==> r[i] in cs && r[i].fincaId == caller.fincaId.value)
      && (forall i :: 0 <= i < |cs| && cs[i].fincaId == caller.fincaId.value ==> cs[i] in r)
    ensures !IsAdmin(caller) && caller.fincaId.None? ==> r == []
  {
    if IsAdmin(caller) then cs
    else match caller.fincaId
      case None => []
      case Some(f) => Filter(cs, (c: Codigo) => c.fincaId == f)
  }

  // -------------------------------------------------------- farm resolution

  datatype Resolucion = EnFinca(id: Id) | SinFinca(kind: ErrorKind)

  /**
   * The farm both creation branches write into: the form's `finca_id` for an
   * admin, who must give one; the caller's own farm otherwise, which must be
   * set. The form's value is ignored for a non-admin.
   */
  function ResolverFinca(caller: Caller, formFinca: Option<Id>): (r: Resolucion)
    ensures IsAdmin(caller) ==>
      (formFinca.None? <==> r == SinFinca(FarmRequired))
      && (formFinca.Some? ==> r == EnFinca(formFinca.value))
    ensures !IsAdmin(caller) ==>
      (caller.fincaId.None? <==> r == SinFinca(NoAssignedFarm))
      && (caller.fincaId.Some? ==> r == EnFinca(caller.fincaId.value))
  {
    if IsAdmin(caller) then
      if formFinca.None? then SinFinca(FarmRequired) else EnFinca(formFinca.value)
    else
      if caller.fincaId.None? then SinFinca(NoAssignedFarm) else EnFinca(caller.fincaId.value)
  }

  // ------------------------------------------------------ range provisioning

  predicate Distintos(codes: seq<string>) {
    forall i, j :: 0 <= i < j < |codes| ==> codes[i] != codes[j]
  }

  /** The codes of `codes`, in order, that farm `f` does not hold yet. */
  function Faltantes(cs: seq<Codigo>, f: Id, codes: seq<string>): (r: seq<string>)
    ensures |r| <= |codes|
    ensures forall i :: 0 <= i < |r| ==> r[i] in codes && !ExisteEnFinca(cs, r[i], f)
    ensures forall i :: 0 <= i < |codes| && !ExisteEnFinca(cs, codes[i], f) ==> codes[i] in r
  {
    if codes == [] then []
    else
      var last := codes[|codes| - 1];
      Faltantes(cs, f, codes[..|codes| - 1]) + (if !ExisteEnFinca(cs, last, f) then [last] else [])
  }

  /** The test of the range loop: `not existe` for farm `f`. */
  function FaltaEn(cs: seq<Codigo>, f: Id): string -> bool {
    (c: string) => !ExisteEnFinca(cs, c, f)
  }

  /** The missing codes are the codes filtered by the loop's existence check. */
  lemma {:induction false} FaltantesEsFilter(cs: seq<Codigo>, f: Id, codes: seq<string>)
    ensures Faltantes(cs, f, codes) == Filter(codes, FaltaEn(cs, f))
  {
    if codes != [] {
      var pre, last := codes[..|codes| - 1], codes[|codes| - 1];
      FaltantesEsFilter(cs, f, pre);
      assert codes == pre + [last];
      FilterAppend(pre, [last], FaltaEn(cs, f));
      FilterUno(last, FaltaEn(cs, f));
    }
  }

  /**
   * The range loop visits the codes in order: the missing codes of `a + b`
   * are those of `a` followed by those of `b`, and a code the farm lacks is
   * missing as many times as it is listed.
   */
  lemma FaltantesPorCodigo(cs: seq<Codigo>, f: Id, a: seq<string>, b: seq<string>, c: string)
    ensures Faltantes(cs, f, a + b) == Faltantes(cs, f, a) + Faltantes(cs, f, b)
    ensures multiset(Faltantes(cs, f, a))[c] == if !ExisteEnFinca(cs, c, f) then multiset(a)[c] else 0
  {
    FaltantesEsFilter(cs, f, a + b);
    FaltantesEsFilter(cs, f, a);
    FaltantesEsFilter(cs, f, b);
    FilterAppend(a, b, FaltaEn(cs, f));
    FilterCuenta(a, FaltaEn(cs, f), c);
  }

  /** The rows the range branch adds for the missing codes `nuevos`, keyed from `id0`. */
  function FilasNuevas(nuevos: seq<string>, f: Id, area: Option<Id>, id0: Id): (r: seq<Codigo>)
    ensures |r| == |nuevos|
  {
    seq(|nuevos|, j requires 0 <= j < |nuevos| =>
      Codigo(id0 + j, nuevos[j], "Persona " + nuevos[j], "Cosechador", "", area, f, true))
  }

  lemma FilasNuevasAppend(nuevos: seq<string>, c: string, f: Id, area: Option<Id>, id0: Id)
    ensures FilasNuevas(nuevos + [c], f, area, id0)
         == FilasNuevas(nuevos, f, area, id0) + [Codigo(id0 + |nuevos|, c, "Persona " + c, "Cosechador", "", area, f, true)]
  {
  }

  /** Rows added for other code strings do not change whether `c` exists. */
  lemma ExisteConNuevas(cs: seq<Codigo>, nuevos: seq<string>, f: Id, area: Option<Id>, id0: Id, c: string)
    requires c !in nuevos
    ensures ExisteEnFinca(cs + FilasNuevas(nuevos, f, area, id0), c, f) == ExisteEnFinca(cs, c, f)
  {
    var s := cs + FilasNuevas(nuevos, f, area, id0);
    if ExisteEnFinca(s, c, f) {
      var i :| 0 <= i < |s| && s[i].codigo == c && s[i].fincaId == f;
      assert i < |cs|;
      assert cs[i] == s[i];
    }
    if ExisteEnFinca(cs, c, f) {
      var i :| 0 <= i < |cs| && cs[i].codigo == c && cs[i].fincaId == f;
      assert s[i] == cs[i];
    }
  }

  /** The missing codes of a list without repetitions have no repetitions. */
  lemma {:induction false} FaltantesDistintos(cs: seq<Codigo>, f: Id, codes: seq<string>)
    requires Distintos(codes)
    ensures Distintos(Faltantes(cs, f, codes))
  {
    if codes != [] {
      var pre := codes[..|codes| - 1];
      var last := codes[|codes| - 1];
      assert Distintos(pre);
      FaltantesDistintos(cs, f, pre);
      var fp := Faltantes(cs, f, pre);
      forall i | 0 <= i < |fp|
        ensures fp[i] != last
      {
        var k :| 0 <= k < |pre| && pre[k] == fp[i];
        assert codes[k] == fp[i];
      }
    }
  }

  /**
   * Range provisioning keeps the `(codigo, finca_id)` constraint: a range
   * never inserts a second row for a pair that exists, nor two rows for one
   * code.
   */
  lemma RangoNoDuplica(cs: seq<Codigo>, f: Id, r: Range, area: Option<Id>, id0: Id)
    requires CodigosUnicosPorFinca(cs)
    ensures CodigosUnicosPorFinca(cs + FilasNuevas(Faltantes(cs, f, RangeCodes(r)), f, area, id0))
  {
    var codes := RangeCodes(r);
    RangoDistinto(r);
    var nuevos := Faltantes(cs, f, codes);
    FaltantesDistintos(cs, f, codes);
    var filas := FilasNuevas(nuevos, f, area, id0);
    var s := cs + filas;
    forall i, j | 0 <= i < j < |s|
      ensures s[i].codigo != s[j].codigo || s[i].fincaId != s[j].fincaId
    {
      if j >= |cs| {
        assert s[j] == filas[j - |cs|];
        if i >= |cs| {
          assert s[i] == filas[i - |cs|];
        } else {
          assert s[i] == cs[i];
          assert !ExisteEnFinca(cs, nuevos[j - |cs|], f);
        }
      } else {
        assert s[i] == cs[i] && s[j] == cs[j];
      }
    }
  }

  /** Codes of other farms never count as duplicates. */
  lemma {:induction false} OtrasFincasNoCuentan(cs: seq<Codigo>, otras: seq<Codigo>, f: Id, codes: seq<string>)
    requires forall i :: 0 <= i < |otras| ==> otras[i].fincaId != f
    ensures Faltantes(cs + otras, f, codes) == Faltantes(cs, f, codes)
  {
    if codes != [] {
      var last := codes[|codes| - 1];
      OtrasFincasNoCuentan(cs, otras, f, codes[..|codes| - 1]);
      var s := cs + otras;
      if ExisteEnFinca(s, last, f) {
        var i :| 0 <= i < |s| && s[i].codigo == last && s[i].fincaId == f;
        assert i < |cs|;
        assert s[i] == cs[i];
      }
      if ExisteEnFinca(cs, last, f) {
        var i :| 0 <= i < |cs| && cs[i].codigo == last && cs[i].fincaId == f;
        assert s[i] == cs[i];
      }
    }
  }

  /** Once a range has been provisioned, provisioning it again adds nothing. */
  lemma RangoIdempotente(cs: seq<Codigo>, f: Id, codes: seq<string>, area: Option<Id>, id0: Id)
    ensures var s := cs + FilasNuevas(Faltantes(cs, f, codes), f, area, id0);
            Faltantes(s, f, codes) == []
  {
    var nuevos := Faltantes(cs, f, codes);
    var filas := FilasNuevas(nuevos, f, area, id0);
    var s := cs + filas;
    forall k | 0 <= k < |codes|
      ensures ExisteEnFinca(s, codes[k], f)
    {
      if ExisteEnFinca(cs, codes[k], f) {
        var i :| 0 <= i < |cs| && cs[i].codigo == codes[k] && cs[i].fincaId == f;
        assert s[i] == cs[i];
      } else {
        var j :| 0 <= j < |nuevos| && nuevos[j] == codes[k];
        assert s[|cs| + j] == filas[j];
      }
    }
    FaltantesVacio(s, f, codes);
  }

  /** A list every code of which the farm holds has nothing missing. */
  lemma {:induction false} FaltantesVacio(cs: seq<Codigo>, f: Id, codes: seq<string>)
    requires forall k :: 0 <= k < |codes| ==> ExisteEnFinca(cs, codes[k], f)
    ensures Faltantes(cs, f, codes) == []
  {
    if codes != [] {
      FaltantesVacio(cs, f, codes[..|codes| - 1]);
    }
  }

  /**
   * One step of the range loop: the `k`-th code is missing from the store
   * grown so far exactly when it was missing at the start, because the rows
   * added so far carry other codes.
   */
  lemma PasoRango(c0: seq<Codigo>, f: Id, codes: seq<string>, k: nat, area: Option<Id>, id0: Id)
    requires Distintos(codes) && k < |codes|
    ensures var hechos := Faltantes(c0, f, codes[..k]);
            && ExisteEnFinca(c0 + FilasNuevas(hechos, f, area, id0), codes[k], f) == ExisteEnFinca(c0, codes[k], f)
            && Faltantes(c0, f, codes[..k + 1])
               == hechos + (if !ExisteEnFinca(c0, codes[k], f) then [codes[k]] else [])
  {
    var hechos := Faltantes(c0, f, codes[..k]);
    assert codes[..k + 1][..k] == codes[..k];
    ExisteConNuevas(c0, hechos, f, area, id0, codes[k]);
  }

  /** The codes of a range are pairwise distinct. */
  lemma RangoDistinto(r: Range)
    ensures Distintos(RangeCodes(r))
  {
    forall i, j | 0 <= i < j < |RangeCodes(r)|
      ensures RangeCodes(r)[i] != RangeCodes(r)[j]
    {
      RangeCodesDistinct(r, i, j);
    }
  }

  /**
   * The body of the range loop for the `k`-th code: `filter_by(codigo,
   * finca_id).first()` and, when nothing is found, `db.session.add`.
   */
  method PasoCrearRango(db: Store, ghost c0: seq<Codigo>, codes: seq<string>, k: nat,
                        f: Id, area: Option<Id>, ghost id0: Id) returns (creado: bool)
    requires db.Valid() && Distintos(codes) && k < |codes|
    requires db.codigos == c0 + FilasNuevas(Faltantes(c0, f, codes[..k]), f, area, id0)
    requires db.nextId == id0 + |Faltantes(c0, f, codes[..k])|
    modifies db
    ensures db.Valid()
    ensures db.usuarios == old(db.usuarios) && db.fincas == old(db.fincas)
    ensures db.supervisores == old(db.supervisores) && db.areas == old(db.areas)
    ensures creado == !ExisteEnFinca(c0, codes[k], f)
    ensures Faltantes(c0, f, codes[..k + 1]) == Faltantes(c0, f, codes[..k]) + (if creado then [codes[k]] else [])
    ensures db.codigos == c0 + FilasNuevas(Faltantes(c0, f, codes[..k + 1]), f, area, id0)
    ensures db.nextId == id0 + |Faltantes(c0, f, codes[..k + 1])|
  {
    ghost var hechos := Faltantes(c0, f, codes[..k]);
    PasoRango(c0, f, codes, k, area, id0);
    var codigo := codes[k];
    creado := !ExisteEnFinca(db.codigos, codigo, f);
    if creado {
      assert Faltantes(c0, f, codes[..k + 1]) == hechos + [codigo];
      FilasNuevasAppend(hechos, codigo, f, area, id0);
      var nuevo := db.AddCodigo(codigo, "Persona " + codigo, "Cosechador", "", area, f);
      assert nuevo == Codigo(id0 + |hechos|, codigo, "Persona " + codigo, "Cosechador", "", area, f, true);
      assert db.codigos == c0 + (FilasNuevas(hechos, f, area, id0) + [nuevo]);
    } else {
      assert Faltantes(c0, f, codes[..k + 1]) == hechos;
    }
  }

  /**
   * The loop over the codes of a range, in order: each is looked up in the
   * farm and added when absent; the two counters say how many were created
   * and how many skipped.
   */
  method CrearLista(db: Store, codes: seq<string>, f: Id, area: Option<Id>) returns (creados: nat, existentes: nat)
    requires db.Valid() && Distintos(codes)
    modifies db
    ensures db.Valid()
    ensures db.usuarios == old(db.usuarios) && db.fincas == old(db.fincas)
    ensures db.supervisores == old(db.supervisores) && db.areas == old(db.areas)
    ensures var nuevos := Faltantes(old(db.codigos), f, codes);
            && creados == |nuevos|
            && creados + existentes == |codes|
            && db.codigos == old(db.codigos) + FilasNuevas(nuevos, f, area, old(db.nextId))
            && db.nextId == old(db.nextId) + creados
  {
    creados, existentes := 0, 0;
    ghost var c0, id0 := db.codigos, db.nextId;
    ghost var hechos: seq<string> := [];
    assert codes[..0] == [];
    assert db.codigos == c0 + FilasNuevas(hechos, f, area, id0);
    for k := 0 to |codes|
      invariant db.Valid()
      invariant db.usuarios == old(db.usuarios) && db.fincas == old(db.fincas)
      invariant db.supervisores == old(db.supervisores) && db.areas == old(db.areas)
      invariant hechos == Faltantes(c0, f, codes[..k])
      invariant creados == |hechos| && creados + existentes == k
      invariant db.codigos == c0 + FilasNuevas(hechos, f, area, id0)
      invariant db.nextId == id0 + creados
    {
      var creado := PasoCrearRango(db, c0, codes, k, f, area, id0);
      hechos := Faltantes(c0, f, codes[..k + 1]);
      if creado {
        creados := creados + 1;
      } else {
        existentes := existentes + 1;
      }
    }
    assert codes[..|codes|] == codes;
  }

  /**
   * `for i in range(inicio, fin + 1)` with `f"{i:03d}"`: the codes of the
   * range, provisioned in ascending order.
   */
  method CrearRango(db: Store, r: Range, f: Id, area: Option<Id>) returns (creados: nat, existentes: nat)
    requires db.Valid()
    modifies db
    ensures db.Valid()
    ensures db.usuarios == old(db.usuarios) && db.fincas == old(db.fincas)
    ensures db.supervisores == old(db.supervisores) && db.areas == old(db.areas)
    ensures var nuevos := Faltantes(old(db.codigos), f, RangeCodes(r));
            && creados == |nuevos|
            && creados + existentes == |RangeCodes(r)|
            && db.codigos == old(db.codigos) + FilasNuevas(nuevos, f, area, old(db.nextId))
            && db.nextId == old(db.nextId) + creados
  {
    RangoDistinto(r);
    creados, existentes := CrearLista(db, RangeCodes(r), f, area);
  }

  // ---------------------------------------------------------- code creation

  datatype CodigoForm = CodigoForm(
    rango: string,          // `rango_codigos`, "" when absent
    codigo: string,
    nombrePersona: string,
    apellidoPersona: string,
    telefono: string,
    areaId: Option<Id>,     // `area_id`; "" and absent are both None
    fincaId: Option<Id>)    // `finca_id`, read only for an admin

  /** The message each rejected range flashes. */
  function ErrorDeRango(e: RangeError): ErrorKind {
    match e
    case MissingDash => RangeFormat
    case NotNumbers => RangeNotNumeric
  }

  /**
   * The range branch of `crear_codigo` once the farm is known and the range
   * parsed: a range that does not parse is refused; otherwise the range is provisioned and the
   * answer is a success when a code was created and a warning when all
   * were skipped.
   */
  method CrearCodigosRango(db: Store, parsed: Parsed, f: Id, area: Option<Id>) returns (out: Outcome)
    requires db.Valid()
    modifies db
    ensures db.Valid()
    ensures db.usuarios == old(db.usuarios) && db.fincas == old(db.fincas)
    ensures db.supervisores == old(db.supervisores) && db.areas == old(db.areas)
    ensures out.Failure? ==> db.codigos == old(db.codigos) && db.nextId == old(db.nextId)
    ensures parsed.Err? ==> out == Failure(ErrorDeRango(parsed.error))
    ensures parsed.Ok? ==>
      var nuevos := Faltantes(old(db.codigos), f, RangeCodes(parsed.range));
      db.codigos == old(db.codigos) + FilasNuevas(nuevos, f, area, old(db.nextId))
    ensures parsed.Ok? ==>
      var codes := RangeCodes(parsed.range);
      var nuevos := Faltantes(old(db.codigos), f, codes);
      out == (if |nuevos| > 0 then Success(|nuevos|, |codes| - |nuevos|) else Warning(0, |codes| - |nuevos|))
  {
    if parsed.Err? {
      return Failure(ErrorDeRango(parsed.error));
    }
    var creados, existentes := CrearRango(db, parsed.range, f, area);
    ghost var nuevos := Faltantes(old(db.codigos), f, RangeCodes(parsed.range));
    assert creados == |nuevos| && existentes == |RangeCodes(parsed.range)| - |nuevos|;
    if creados > 0 {
      return Success(creados, existentes);
    }
    return Warning(creados, existentes);
  }

  /** The single branch once the farm is known: an existing pair is refused. */
  method CrearCodigoUnico(db: Store, form: CodigoForm, f: Id) returns (out: Outcome)
    requires db.Valid()
    modifies db
    ensures db.Valid()
    ensures db.usuarios == old(db.usuarios) && db.fincas == old(db.fincas)
    ensures db.supervisores == old(db.supervisores) && db.areas == old(db.areas)
    ensures out.Failure? ==> db.codigos == old(db.codigos) && db.nextId == old(db.nextId)
    ensures if ExisteEnFinca(old(db.codigos), form.codigo, f) then out == Failure(DuplicateCode)
      else
        && out == Success(1, 0)
        && db.codigos == old(db.codigos) + [Codigo(old(db.nextId), form.codigo, form.nombrePersona,
                                                   form.apellidoPersona, form.telefono, form.areaId, f, true)]
  {
    if ExisteEnFinca(db.codigos, form.codigo, f) {
      return Failure(DuplicateCode);
    }
    var nuevo := db.AddCodigo(form.codigo, form.nombrePersona, form.apellidoPersona, form.telefono, form.areaId, f);
    return Success(1, 0);
  }

  /**
   * `crear_codigo` (POST): the role gate, the farm resolution, then the
   * range branch when `rango_codigos` is non-empty and the single branch
   * otherwise. Every refusal leaves the store as it was.
   */
  method CrearCodigo(db: Store, caller: Caller, form: CodigoForm) returns (out: Outcome)
    requires db.Valid()
    modifies db
    ensures db.Valid()
    ensures db.usuarios == old(db.usuarios) && db.fincas == old(db.fincas)
    ensures db.supervisores == old(db.supervisores) && db.areas == old(db.areas)
    ensures !CanManage(caller) ==> out == Failure(Forbidden)
    ensures out.Failure? ==> db.codigos == old(db.codigos) && db.nextId == old(db.nextId)
    ensures CanManage(caller) && ResolverFinca(caller, form.fincaId).SinFinca? ==>
      out == Failure(ResolverFinca(caller, form.fincaId).kind)
    ensures CanManage(caller) && form.rango != "" && ResolverFinca(caller, form.fincaId).EnFinca? ==>
      var f := ResolverFinca(caller, form.fincaId).id;
      match ParseRange(form.rango)
      case Err(MissingDash) => out == Failure(RangeFormat)
      case Err(NotNumbers) => out == Failure(RangeNotNumeric)
      case Ok(r) =>
        var nuevos := Faltantes(old(db.codigos), f, RangeCodes(r));
        var omitidos := |RangeCodes(r)| - |nuevos|;
        && db.codigos == old(db.codigos) + FilasNuevas(nuevos, f, form.areaId, old(db.nextId))
        && out == (if |nuevos| > 0 then Success(|nuevos|, omitidos) else Warning(0, omitidos))
    ensures CanManage(caller) && form.rango == "" && ResolverFinca(caller, form.fincaId).EnFinca? ==>
      var f := ResolverFinca(caller, form.fincaId).id;
      if ExisteEnFinca(old(db.codigos), form.codigo, f) then out == Failure(DuplicateCode)
      else
        && out == Success(1, 0)
        && db.codigos == old(db.codigos) + [Codigo(old(db.nextId), form.codigo, form.nombrePersona,
                                                   form.apellidoPersona, form.telefono, form.areaId, f, true)]
  {
    if !CanManage(caller) {
      return Failure(Forbidden);
    }
    var finca := ResolverFinca(caller, form.fincaId);
    if finca.SinFinca? {
      return Failure(finca.kind);
    }
    if form.rango != "" {
      out := CrearCodigosRango(db, ParseRange(form.rango), finca.id, form.areaId);
    } else {
      out := CrearCodigoUnico(db, form, finca.id);
    }
  }

  // ------------------------------------------------------------- assignment

  /** Every code whose key is in `ids` moved to area `a`; every other row as it was. */
  function ConArea(cs: seq<Codigo>, ids: seq<Id>, a: Id): (r: seq<Codigo>)
    ensures |r| == |cs|
    ensures forall i :: 0 <= i < |cs| ==>
      r[i].id == cs[i].id && r[i].codigo == cs[i].codigo && r[i].fincaId == cs[i].fincaId
    ensures forall i :: 0 <= i < |cs| && cs[i].id in ids ==> r[i].areaId == Some(a) && r[i].activo == cs[i].activo
    ensures forall i :: 0 <= i < |cs| && cs[i].id !in ids ==> r[i] == cs[i]
  {
    seq(|cs|, i requires 0 <= i < |cs| => if cs[i].id in ids then cs[i].(areaId := Some(a)) else cs[i])
  }

  /** The pair constraint survives any reassignment of areas. */
  lemma ConAreaConservaUnicidad(cs: seq<Codigo>, ids: seq<Id>, a: Id)
    requires CodigosUnicosPorFinca(cs)
    ensures CodigosUnicosPorFinca(ConArea(cs, ids, a))
  {
  }

  /** Assigning the same selection to the same area twice is assigning it once. */
  lemma ConAreaIdempotente(cs: seq<Codigo>, ids: seq<Id>, a: Id)
    ensures ConArea(ConArea(cs, ids, a), ids, a) == ConArea(cs, ids, a)
  {
  }

  /**
   * One step of the bulk loop: the row of key `x`, if there is one, moves to
   * area `a`. With unique keys that is `ConArea` over one more selected key.
   */
  lemma ConAreaPaso(cs: seq<Codigo>, sel: seq<Id>, x: Id, a: Id, p: Option<nat>)
    requires forall i, j :: 0 <= i < j < |cs| ==> cs[i].id != cs[j].id
    requires p.Some? ==> p.value < |cs| && cs[p.value].id == x
    requires p.None? ==> forall i :: 0 <= i < |cs| ==> cs[i].id != x
    ensures p.Some? ==>
      var prev := ConArea(cs, sel, a);
      prev[p.value := prev[p.value].(areaId := Some(a))] == ConArea(cs, sel + [x], a)
    ensures p.None? ==> ConArea(cs, sel, a) == ConArea(cs, sel + [x], a)
  {
    var prev, next := ConArea(cs, sel, a), ConArea(cs, sel + [x], a);
    if p.Some? {
      var upd := prev[p.value := prev[p.value].(areaId := Some(a))];
      forall i | 0 <= i < |cs|
        ensures upd[i] == next[i]
      {
        if i != p.value {
          assert cs[i].id != x;
        }
      }
    } else {
      forall i | 0 <= i < |cs|
        ensures prev[i] == next[i]
      {
        assert cs[i].id != x;
      }
    }
  }

  /**
   * `asignar_area_codigos` (POST): an area and a non-empty selection are
   * required; every selected key that resolves moves to the area, with no
   * check of its farm or the area's. The reported count is the size of the
   * selection, keys that resolve to nothing included.
   */
  method AsignarAreaCodigos(db: Store, caller: Caller, areaId: Option<Id>, seleccion: seq<Id>) returns (out: Outcome)
    requires db.Valid()
    modifies db
    ensures db.Valid()
    ensures db.usuarios == old(db.usuarios) && db.fincas == old(db.fincas) && db.nextId == old(db.nextId)
    ensures db.supervisores == old(db.supervisores) && db.areas == old(db.areas)
    ensures !CanManage(caller) ==> out == Failure(Forbidden)
    ensures CanManage(caller) && areaId.None? ==> out == Failure(AreaRequired)
    ensures CanManage(caller) && areaId.Some? && seleccion == [] ==> out == Failure(EmptySelection)
    ensures out.Failure? ==> db.codigos == old(db.codigos)
    ensures CanManage(caller) && areaId.Some? && seleccion != [] ==>
      out == Success(|seleccion|, 0) && db.codigos == ConArea(old(db.codigos), seleccion, areaId.value)
  {
    if !CanManage(caller) {
      return Failure(Forbidden);
    }
    if areaId.None? {
      return Failure(AreaRequired);
    }
    if seleccion == [] {
      return Failure(EmptySelection);
    }
    var a := areaId.value;
    ghost var c0 := db.codigos;
    assert ConArea(c0, [], a) == c0;
    for k := 0 to |seleccion|
      invariant db.Valid()
      invariant db.usuarios == old(db.usuarios) && db.fincas == old(db.fincas) && db.nextId == old(db.nextId)
      invariant db.supervisores == old(db.supervisores) && db.areas == old(db.areas)
      invariant db.codigos == ConArea(c0, seleccion[..k], a)
    {
      assert seleccion[..k + 1] == seleccion[..k] + [seleccion[k]];
      assert forall i :: 0 <= i < |c0| ==> CodigoIds(c0)[i] == c0[i].id;
      var p := Find(db.codigos, (c: Codigo) => c.id, seleccion[k]);
      ConAreaPaso(c0, seleccion[..k], seleccion[k], a, p);
      if p.Some? {
        db.SetCodigoArea(p.value, Some(a));
      }
    }
    assert seleccion[..|seleccion|] == seleccion;
    return Success(|seleccion|, 0);
  }

  /** Some row of `cs` has key `id` (`Codigo.query.get(id)` finds a row). */
  predicate TieneCodigo(cs: seq<Codigo>, id: Id) {
    exists i :: 0 <= i < |cs| && cs[i].id == id
  }

  /**
   * `asignar_codigo_area` (POST): both keys must resolve; a non-admin may
   * only move a code into an area of their own farm. The code's own farm is
   * not checked. On success exactly that code changes, and only its area.
   */
  method AsignarCodigoArea(db: Store, caller: Caller, codigoId: Id, areaId: Id) returns (out: Outcome)
    requires db.Valid()
    modifies db
    ensures db.Valid()
    ensures db.usuarios == old(db.usuarios) && db.fincas == old(db.fincas) && db.nextId == old(db.nextId)
    ensures db.supervisores == old(db.supervisores) && db.areas == old(db.areas)
    ensures !CanManage(caller) ==> out == Failure(Forbidden)
    ensures out.Failure? ==> db.codigos == old(db.codigos)
    ensures CanManage(caller) ==>
      (out == Failure(NotFound) <==> !TieneCodigo(old(db.codigos), codigoId) || AreaPorId(db.areas, areaId).None?)
    ensures CanManage(caller) && TieneCodigo(old(db.codigos), codigoId) && AreaPorId(db.areas, areaId).Some? ==>
      if MayWriteInto(caller, AreaPorId(db.areas, areaId).value) then
        out == Success(1, 0) && db.codigos == ConArea(old(db.codigos), [codigoId], areaId)
      else out == Failure(OtherFarm)
  {
    if !CanManage(caller) {
      return Failure(Forbidden);
    }
    var pc := Find(db.codigos, (c: Codigo) => c.id, codigoId);
    var area := AreaPorId(db.areas, areaId);
    if pc.None? || area.None? {
      return Failure(NotFound);
    }
    if !MayWriteInto(caller, area.value) {
      return Failure(OtherFarm);
    }
    ghost var c0 := db.codigos;
    assert forall i :: 0 <= i < |c0| ==> CodigoIds(c0)[i] == c0[i].id;
    assert ConArea(c0, [], areaId) == c0;
    ConAreaPaso(c0, [], codigoId, areaId, pc);
    db.SetCodigoArea(pc.value, Some(areaId));
    return Success(1, 0);
  }

  // ------------------------------------------------------------ code pools

  /** `Codigo.query.filter_by(area_id=None).all()`. */
  function CodigosSinAsignar(cs: seq<Codigo>): (r: seq<Codigo>)
    ensures forall i :: 0 <= i < |r| ==> r[i] in cs && r[i].areaId.None?
    ensures forall i :: 0 <= i < |cs| && cs[i].areaId.None? ==> cs[i] in r
  {
    Filter(cs, (c: Codigo) => c.areaId.None?)
  }

  /**
   * The GET form of `asignar_codigo_area`: every active code without area,
   * whatever the caller's farm, next to the areas the caller sees.
   */
  function FormularioCodigoArea(caller: Caller, areas: seq<Area>, cs: seq<Codigo>): (r: (seq<Codigo>, seq<Area>))
    ensures forall i :: 0 <= i < |r.0| ==> r.0[i] in cs && r.0[i].areaId.None? && r.0[i].activo
    ensures forall i :: 0 <= i < |cs| && cs[i].areaId.None? && cs[i].activo ==> cs[i] in r.0
    ensures r.1 == AreasEnAlcance(caller, areas)
  {
    (Filter(cs, (c: Codigo) => c.areaId.None? && c.activo), AreasEnAlcance(caller, areas))
  }

  /**
   * The codes the GET form of `asignar_area_codigos` offers: those without
   * area, of every farm for an admin, of the caller's farm otherwise, none
   * for a caller without a farm.
   */
  function CodigosSinArea(caller: Caller, cs: seq<Codigo>): (r: seq<Codigo>)
    ensures forall i :: 0 <= i < |r| ==> r[i] in cs && r[i].areaId.None?
    ensures IsAdmin(caller) ==> forall i :: 0 <= i < |cs| && cs[i].areaId.None? ==> cs[i] in r
    ensures !IsAdmin(caller) && caller.fincaId.Some? ==>
      (forall i :: 0 <= i < |r| ==> r[i].fincaId == caller.fincaId.value)
      && (forall i :: 0 <= i < |cs| && cs[i].areaId.None? && cs[i].fincaId == caller.fincaId.value ==> cs[i] in r)
    ensures !IsAdmin(caller) && caller.fincaId.None? ==> r == []
  {
    if IsAdmin(caller) then CodigosSinAsignar(cs)
    else match caller.fincaId
      case None => []
      case Some(f) => Filter(cs, (c: Codigo) => c.fincaId == f && c.areaId.None?)
  }

  /** After a bulk assignment none of the selected codes is offered again. */
  lemma AsignadosSalenDelPool(caller: Caller, cs: seq<Codigo>, ids: seq<Id>, a: Id)
    ensures forall c :: c in CodigosSinArea(caller, ConArea(cs, ids, a)) ==> c.id !in ids
  {
    var after := ConArea(cs, ids, a);
    forall c | c in CodigosSinArea(caller, after)
      ensures c.id !in ids
    {
      var i :| 0 <= i < |after| && after[i] == c;
      assert c.areaId.None?;
    }
  }

  /** An assignment offers no new code: the pool after it is part of the pool before. */
  lemma AsignarNoAgregaAlPool(caller: Caller, cs: seq<Codigo>, ids: seq<Id>, a: Id)
    ensures forall c :: c in CodigosSinArea(caller, ConArea(cs, ids, a)) ==> c in CodigosSinArea(caller, cs)
  {
    var after := ConArea(cs, ids, a);
    forall c | c in CodigosSinArea(caller, after)
      ensures c in CodigosSinArea(caller, cs)
    {
      var i :| 0 <= i < |after| && after[i] == c;
      assert cs[i] == c;
    }
  }

  // ------------------------------------------------------ assignment summary

  /** One entry of `codigos_por_area`. */
  datatype CodigosDeArea = CodigosDeArea(area: Area, codigos: seq<Codigo>, total: nat)

  datatype ResumenCodigos = ResumenCodigos(porArea: map<Id, CodigosDeArea>, sinArea: seq<Codigo>)

  function EntradaDe(a: Area, cs: seq<Codigo>): CodigosDeArea {
    var activos := CodigosActivosDe(cs, a.id);
    CodigosDeArea(a, activos, |activos|)
  }

  /** The loop that fills `codigos_por_area`. */
  method CodigosPorArea(visibles: seq<Area>, codigos: seq<Codigo>) returns (porArea: map<Id, CodigosDeArea>)
    requires ClaveDetermina(visibles)
    ensures forall id :: id in porArea <==> exists k :: 0 <= k < |visibles| && visibles[k].id == id
    ensures forall k :: 0 <= k < |visibles| ==> porArea[visibles[k].id] == EntradaDe(visibles[k], codigos)
  {
    porArea := map[];
    for k := 0 to |visibles|
      invariant forall id :: id in porArea <==> exists j :: 0 <= j < k && visibles[j].id == id
      invariant forall j :: 0 <= j < k ==> porArea[visibles[j].id] == EntradaDe(visibles[j], codigos)
    {
      var area := visibles[k];
      var cods := CodigosActivosDe(codigos, area.id);
      porArea := porArea[area.id := CodigosDeArea(area, cods, |cods|)];
    }
  }

  /**
   * `gestionar_asignaciones_codigos`: one entry per visible area, keyed by
   * its id, with its active codes and their count. The list of codes
   * without area is every such code of every farm, whatever the caller.
   */
  method GestionarAsignacionesCodigos(caller: Caller, areas: seq<Area>, codigos: seq<Codigo>)
    returns (page: Page<ResumenCodigos>)
    requires forall i, j :: 0 <= i < j < |areas| ==> areas[i].id != areas[j].id
    ensures !CanManage(caller) <==> page == Refused(Forbidden)
    ensures page.Shown? ==>
      var visibles := AreasEnAlcance(caller, areas);
      && (forall id :: id in page.rows.porArea <==> exists k :: 0 <= k < |visibles| && visibles[k].id == id)
      && (forall k :: 0 <= k < |visibles| ==>
            page.rows.porArea[visibles[k].id] == EntradaDe(visibles[k], codigos))
      && page.rows.sinArea == CodigosSinAsignar(codigos)
  {
    if !CanManage(caller) {
      return Refused(Forbidden);
    }
    var visibles := AreasEnAlcance(caller, areas);
    AlcanceClaveDetermina(caller, areas);
    var porArea := CodigosPorArea(visibles, codigos);
    return Shown(ResumenCodigos(porArea, CodigosSinAsignar(codigos)));
  }
}
