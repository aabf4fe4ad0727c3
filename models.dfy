/**
 * The five tables of the blueprint application (app/models.py) and the
 * in-memory store that stands in for the database.
 *
 * Primary keys are autoincrement integers starting at 1, so an `Id` is a
 * positive number and "the column holds an id" coincides with Python's
 * truthiness test on it. Nullable foreign keys are `Option<Id>`.
 * Timestamps and password hashing are not part of this model; a user
 * carries the stored hash as an opaque string.
 */
module Models {
  import opened Options

  type Id = x: nat | 1 <= x witness 1

  datatype Usuario = Usuario(
    id: Id, username: string, email: string, passwordHash: string,
    rol: string, fincaId: Option<Id>, activo: bool)

  datatype Finca = Finca(
    id: Id, nombre: string, ubicacion: string, descripcion: string, activa: bool)

  datatype Area = Area(
    id: Id, nombre: string, descripcion: string,
    fincaId: Id, supervisorId: Option<Id>, activa: bool)

  datatype Supervisor = Supervisor(
    id: Id, nombre: string, apellido: string, telefono: string, email: string,
    claveAcceso: string, activo: bool)

  datatype Codigo = Codigo(
    id: Id, codigo: string, nombrePersona: string, apellidoPersona: string,
    telefono: string, areaId: Option<Id>, fincaId: Id, activo: bool)

  // ------------------------------------------------------- table invariants

  /** Primary keys of a table: pairwise distinct and below the next key to hand out. */
  predicate KeysOk(ids: seq<Id>, next: Id) {
    && (forall i, j :: 0 <= i < j < |ids| ==> ids[i] != ids[j])
    && (forall i :: 0 <= i < |ids| ==> ids[i] < next)
  }

  function UsuarioIds(us: seq<Usuario>): (ids: seq<Id>)
    ensures |ids| == |us| && forall i :: 0 <= i < |us| ==> ids[i] == us[i].id
  {
    seq(|us|, i requires 0 <= i < |us| => us[i].id)
  }

  function FincaIds(fs: seq<Finca>): (ids: seq<Id>)
    ensures |ids| == |fs| && forall i :: 0 <= i < |fs| ==> ids[i] == fs[i].id
  {
    seq(|fs|, i requires 0 <= i < |fs| => fs[i].id)
  }

  function AreaIds(as_: seq<Area>): (ids: seq<Id>)
    ensures |ids| == |as_| && forall i :: 0 <= i < |as_| ==> ids[i] == as_[i].id
  {
    seq(|as_|, i requires 0 <= i < |as_| => as_[i].id)
  }

  function SupervisorIds(ss: seq<Supervisor>): (ids: seq<Id>)
    ensures |ids| == |ss| && forall i :: 0 <= i < |ss| ==> ids[i] == ss[i].id
  {
    seq(|ss|, i requires 0 <= i < |ss| => ss[i].id)
  }

  function CodigoIds(cs: seq<Codigo>): (ids: seq<Id>)
    ensures |ids| == |cs| && forall i :: 0 <= i < |cs| ==> ids[i] == cs[i].id
  {
    seq(|cs|, i requires 0 <= i < |cs| => cs[i].id)
  }

  /** `username` and `email` are each `unique=True` (app/models.py:11-12). */
  predicate UsuariosUnicos(us: seq<Usuario>) {
    forall i, j :: 0 <= i < j < |us| ==> us[i].username != us[j].username && us[i].email != us[j].email
  }

  /** `clave_acceso` is `unique=True` (app/models.py:73). */
  predicate ClavesUnicas(ss: seq<Supervisor>) {
    forall i, j :: 0 <= i < j < |ss| ==> ss[i].claveAcceso != ss[j].claveAcceso
  }

  /** The `_codigo_finca_uc` constraint: no two codes share `(codigo, finca_id)`. */
  predicate CodigosUnicosPorFinca(cs: seq<Codigo>) {
    forall i, j :: 0 <= i < j < |cs| ==> cs[i].codigo != cs[j].codigo || cs[i].fincaId != cs[j].fincaId
  }

  /** Some code of farm `f` already carries the string `codigo`. */
  predicate ExisteEnFinca(cs: seq<Codigo>, codigo: string, f: Id) {
    exists i :: 0 <= i < |cs| && cs[i].codigo == codigo && cs[i].fincaId == f
  }

  /** The constraint is per farm: one code string may live in two farms. */
  lemma MismoCodigoEnDosFincas(a: Codigo, b: Codigo)
    requires a.codigo == b.codigo && a.fincaId != b.fincaId
    ensures CodigosUnicosPorFinca([a, b])
  {
  }

  /** Adding a code whose pair is new keeps the per-farm constraint. */
  lemma AgregarCodigoNuevo(cs: seq<Codigo>, c: Codigo)
    requires CodigosUnicosPorFinca(cs)
    requires !ExisteEnFinca(cs, c.codigo, c.fincaId)
    ensures CodigosUnicosPorFinca(cs + [c])
  {
    var s := cs + [c];
    forall i, j | 0 <= i < j < |s|
      ensures s[i].codigo != s[j].codigo || s[i].fincaId != s[j].fincaId
    {
      if j == |cs| {
        assert s[i] == cs[i] && s[j] == c;
      }
    }
  }

  /** Within a list of areas, a key names a single area. */
  predicate ClaveDetermina(vs: seq<Area>) {
    forall i, j :: 0 <= i < |vs| && 0 <= j < |vs| && vs[i].id == vs[j].id ==> vs[i] == vs[j]
  }

  // --------------------------------------------------------- generic access

  /** `Model.query.get(id)`: the position of the row whose key is `id`, if any. */
  function Find<T>(s: seq<T>, key: T -> Id, id: Id): (r: Option<nat>)
    ensures r.Some? ==> r.value < |s| && key(s[r.value]) == id
    ensures r.None? ==> forall i :: 0 <= i < |s| ==> key(s[i]) != id
    ensures r.Some? ==> forall i :: 0 <= i < r.value ==> key(s[i]) != id
  {
    if s == [] then None
    else if key(s[0]) == id then Some(0)
    else match Find(s[1..], key, id)
      case None => None
      case Some(k) => Some(k + 1)
  }

  /** `Model.query.filter_by(...).all()`: the rows satisfying `p`, in table order. */
  function Filter<T>(s: seq<T>, p: T -> bool): (r: seq<T>)
    ensures |r| <= |s|
    ensures forall i :: 0 <= i < |r| ==> r[i] in s && p(r[i])
    ensures forall i :: 0 <= i < |s| && p(s[i]) ==> s[i] in r
  {
    if s == [] then []
    else if p(s[0]) then [s[0]] + Filter(s[1..], p)
    else Filter(s[1..], p)
  }

  /** A filter keeps every row when every row qualifies. */
  lemma {:induction false} FilterAll<T>(s: seq<T>, p: T -> bool)
    requires forall i :: 0 <= i < |s| ==> p(s[i])
    ensures Filter(s, p) == s
  {
    if s != [] {
      FilterAll(s[1..], p);
    }
  }

  /** Filters by two conditions that agree on every row give the same rows. */
  lemma {:induction false} FilterExt<T>(s: seq<T>, p: T -> bool, q: T -> bool)
    requires forall i :: 0 <= i < |s| ==> p(s[i]) == q(s[i])
    ensures Filter(s, p) == Filter(s, q)
  {
    if s != [] {
      FilterExt(s[1..], p, q);
    }
  }

  /** Filtering works row by row: the rows of `s` come first, in order, then those of `t`. */
  lemma {:induction false} FilterAppend<T>(s: seq<T>, t: seq<T>, p: T -> bool)
    ensures Filter(s + t, p) == Filter(s, p) + Filter(t, p)
  {
    if s == [] {
      assert s + t == t;
    } else {
      assert (s + t)[0] == s[0];
      assert (s + t)[1..] == s[1..] + t;
      FilterAppend(s[1..], t, p);
    }
  }

  /** A single row is kept exactly when it satisfies the condition. */
  lemma FilterUno<T>(x: T, p: T -> bool)
    ensures Filter([x], p) == if p(x) then [x] else []
  {
    assert [x][1..] == [];
  }

  /** A qualifying row appears in the result as often as in the table, any other row never. */
  lemma {:induction false} FilterCuenta<T>(s: seq<T>, p: T -> bool, x: T)
    ensures multiset(Filter(s, p))[x] == if p(x) then multiset(s)[x] else 0
  {
    if s != [] {
      FilterCuenta(s[1..], p, x);
      assert s == [s[0]] + s[1..];
      assert multiset(s) == multiset([s[0]]) + multiset(s[1..]);
      if p(s[0]) {
        assert multiset(Filter(s, p)) == multiset([s[0]]) + multiset(Filter(s[1..], p));
      }
    }
  }

  // ------------------------------------------------------------------ store

  /** The database: one sequence per table and the next autoincrement key. */
  class Store {
    var usuarios: seq<Usuario>
    var fincas: seq<Finca>
    var areas: seq<Area>
    var supervisores: seq<Supervisor>
    var codigos: seq<Codigo>
    var nextId: Id

    /** Keys are unique and the `unique=True` and `_codigo_finca_uc` constraints hold. */
    ghost predicate Valid()
      reads this
    {
      && KeysOk(UsuarioIds(usuarios), nextId)
      && KeysOk(FincaIds(fincas), nextId)
      && KeysOk(AreaIds(areas), nextId)
      && KeysOk(SupervisorIds(supervisores), nextId)
      && KeysOk(CodigoIds(codigos), nextId)
      && UsuariosUnicos(usuarios)
      && ClavesUnicas(supervisores)
      && CodigosUnicosPorFinca(codigos)
    }

    constructor ()
      ensures Valid()
      ensures usuarios == [] && fincas == [] && areas == [] && supervisores == [] && codigos == []
    {
      usuarios, fincas, areas, supervisores, codigos := [], [], [], [], [];
      nextId := 1;
    }

    /** `db.session.add(Area(...))` and commit: the new row takes the next key. */
    method AddArea(nombre: string, descripcion: string, finca: Id) returns (a: Area)
      requires Valid()
      modifies this
      ensures Valid()
      ensures a == Area(old(nextId), nombre, descripcion, finca, None, true)
      ensures areas == old(areas) + [a] && nextId == old(nextId) + 1
      ensures usuarios == old(usuarios) && fincas == old(fincas)
      ensures supervisores == old(supervisores) && codigos == old(codigos)
    {
      a := Area(nextId, nombre, descripcion, finca, None, true);
      assert AreaIds(areas + [a]) == AreaIds(areas) + [nextId];
      areas := areas + [a];
      nextId := nextId + 1;
    }

    /** Adding a code row; the `(codigo, finca_id)` pair must be new. */
    method AddCodigo(codigo: string, nombrePersona: string, apellidoPersona: string,
                     telefono: string, area: Option<Id>, finca: Id) returns (c: Codigo)
      requires Valid() && !ExisteEnFinca(codigos, codigo, finca)
      modifies this
      ensures Valid()
      ensures c == Codigo(old(nextId), codigo, nombrePersona, apellidoPersona, telefono, area, finca, true)
      ensures codigos == old(codigos) + [c] && nextId == old(nextId) + 1
      ensures usuarios == old(usuarios) && fincas == old(fincas)
      ensures supervisores == old(supervisores) && areas == old(areas)
    {
      c := Codigo(nextId, codigo, nombrePersona, apellidoPersona, telefono, area, finca, true);
      assert CodigoIds(codigos + [c]) == CodigoIds(codigos) + [nextId];
      AgregarCodigoNuevo(codigos, c);
      codigos := codigos + [c];
      nextId := nextId + 1;
    }

    /** Adding a supervisor; the access key must be new. */
    method AddSupervisor(nombre: string, apellido: string, telefono: string, email: string,
                         clave: string) returns (s: Supervisor)
      requires Valid() && forall i :: 0 <= i < |supervisores| ==> supervisores[i].claveAcceso != clave
      modifies this
      ensures Valid()
      ensures s == Supervisor(old(nextId), nombre, apellido, telefono, email, clave, true)
      ensures supervisores == old(supervisores) + [s] && nextId == old(nextId) + 1
      ensures usuarios == old(usuarios) && fincas == old(fincas)
      ensures areas == old(areas) && codigos == old(codigos)
    {
      s := Supervisor(nextId, nombre, apellido, telefono, email, clave, true);
      assert SupervisorIds(supervisores + [s]) == SupervisorIds(supervisores) + [nextId];
      supervisores := supervisores + [s];
      nextId := nextId + 1;
    }

    /** Adding a user; username and email must be new. */
    method AddUsuario(username: string, email: string, passwordHash: string, rol: string,
                      finca: Option<Id>) returns (u: Usuario)
      requires Valid()
      requires forall i :: 0 <= i < |usuarios| ==> usuarios[i].username != username && usuarios[i].email != email
      modifies this
      ensures Valid()
      ensures u == Usuario(old(nextId), username, email, passwordHash, rol, finca, true)
      ensures usuarios == old(usuarios) + [u] && nextId == old(nextId) + 1
      ensures fincas == old(fincas) && supervisores == old(supervisores)
      ensures areas == old(areas) && codigos == old(codigos)
    {
      u := Usuario(nextId, username, email, passwordHash, rol, finca, true);
      assert UsuarioIds(usuarios + [u]) == UsuarioIds(usuarios) + [nextId];
      usuarios := usuarios + [u];
      nextId := nextId + 1;
    }

    /** Adding a farm. */
    method AddFinca(nombre: string, ubicacion: string, descripcion: string) returns (f: Finca)
      requires Valid()
      modifies this
      ensures Valid()
      ensures f == Finca(old(nextId), nombre, ubicacion, descripcion, true)
      ensures fincas == old(fincas) + [f] && nextId == old(nextId) + 1
      ensures usuarios == old(usuarios) && supervisores == old(supervisores)
      ensures areas == old(areas) && codigos == old(codigos)
    {
      f := Finca(nextId, nombre, ubicacion, descripcion, true);
      assert FincaIds(fincas + [f]) == FincaIds(fincas) + [nextId];
      fincas := fincas + [f];
      nextId := nextId + 1;
    }

    /** `codigo.area_id = ...` on the row at position `p`; nothing else changes. */
    method SetCodigoArea(p: nat, area: Option<Id>)
      requires Valid() && p < |codigos|
      modifies this
      ensures Valid()
      ensures codigos == old(codigos)[p := old(codigos)[p].(areaId := area)]
      ensures usuarios == old(usuarios) && fincas == old(fincas) && nextId == old(nextId)
      ensures supervisores == old(supervisores) && areas == old(areas)
    {
      var c := codigos[p].(areaId := area);
      assert CodigoIds(codigos[p := c]) == CodigoIds(codigos);
      codigos := codigos[p := c];
    }

    /** `area.supervisor_id = ...` on the row at position `p`; nothing else changes. */
    method SetAreaSupervisor(p: nat, supervisor: Option<Id>)
      requires Valid() && p < |areas|
      modifies this
      ensures Valid()
      ensures areas == old(areas)[p := old(areas)[p].(supervisorId := supervisor)]
      ensures usuarios == old(usuarios) && fincas == old(fincas) && nextId == old(nextId)
      ensures supervisores == old(supervisores) && codigos == old(codigos)
    {
      var a := areas[p].(supervisorId := supervisor);
      assert AreaIds(areas[p := a]) == AreaIds(areas);
      areas := areas[p := a];
    }

    /** `usuario.finca_id = ...` on the row at position `p`; nothing else changes. */
    method SetUsuarioFinca(p: nat, finca: Option<Id>)
      requires Valid() && p < |usuarios|
      modifies this
      ensures Valid()
      ensures usuarios == old(usuarios)[p := old(usuarios)[p].(fincaId := finca)]
      ensures fincas == old(fincas) && areas == old(areas) && nextId == old(nextId)
      ensures supervisores == old(supervisores) && codigos == old(codigos)
    {
      var u := usuarios[p].(fincaId := finca);
      assert UsuarioIds(usuarios[p := u]) == UsuarioIds(usuarios);
      usuarios := usuarios[p := u];
    }
  }
}
