/**
 * app/routes/usuarios.py: the admin-only user listing, user creation and
 * user-to-farm assignment.
 */
module Usuarios {
  import opened Options
  import opened Models
  import opened Access

  /** `listar_usuarios`: every user, for an admin only. */
  function ListarUsuarios(caller: Caller, us: seq<Usuario>): (p: Page<seq<Usuario>>)
    ensures !IsAdmin(caller) <==> p == Refused(Forbidden)
    ensures p.Shown? ==> p.rows == us
  {
    if !IsAdmin(caller) then Refused(Forbidden) else Shown(us)
  }

  /** Some user already has this username or this email. */
  predicate Ocupado(us: seq<Usuario>, username: string, email: string) {
    exists i :: 0 <= i < |us| && (us[i].username == username || us[i].email == email)
  }

  /**
   * `crear_usuario` (POST): an admin adds an active user with no farm. The
   * stored hash is computed outside the model and passed in. A username or
   * email already taken makes the commit fail and nothing is stored.
   */
  method CrearUsuario(db: Store, caller: Caller, username: string, email: string, passwordHash: string,
                      rol: string) returns (out: Outcome)
    requires db.Valid()
    modifies db
    ensures db.Valid()
    ensures db.fincas == old(db.fincas) && db.supervisores == old(db.supervisores)
    ensures db.areas == old(db.areas) && db.codigos == old(db.codigos)
    ensures !IsAdmin(caller) ==> out == Failure(Forbidden)
    ensures out.Failure? ==> db.usuarios == old(db.usuarios) && db.nextId == old(db.nextId)
    ensures IsAdmin(caller) ==>
      if Ocupado(old(db.usuarios), username, email) then out == Failure(DatabaseFault)
      else out == Success(1, 0)
           && db.usuarios == old(db.usuarios) + [Usuario(old(db.nextId), username, email, passwordHash, rol, None, true)]
  {
    if !IsAdmin(caller) {
      return Failure(Forbidden);
    }
    if Ocupado(db.usuarios, username, email) {
      return Failure(DatabaseFault);
    }
    var u := db.AddUsuario(username, email, passwordHash, rol, None);
    return Success(1, 0);
  }

  /** The user of key `id` now has farm `f`; every other user as they were. */
  function ConFinca(us: seq<Usuario>, id: Id, f: Option<Id>): (r: seq<Usuario>)
    ensures |r| == |us|
    ensures forall i :: 0 <= i < |us| ==>
      r[i].id == us[i].id && r[i].username == us[i].username && r[i].email == us[i].email
    ensures forall i :: 0 <= i < |us| && us[i].id == id ==> r[i].fincaId == f && r[i].rol == us[i].rol
    ensures forall i :: 0 <= i < |us| && us[i].id != id ==> r[i] == us[i]
  {
    seq(|us|, i requires 0 <= i < |us| => if us[i].id == id then us[i].(fincaId := f) else us[i])
  }

  /** Assigning a farm twice keeps the last one. */
  lemma ConFincaUltimaGana(us: seq<Usuario>, id: Id, f: Option<Id>, g: Option<Id>)
    ensures ConFinca(ConFinca(us, id, f), id, g) == ConFinca(us, id, g)
  {
  }

  /** Assigning a user the farm they already have changes nothing. */
  lemma ConFincaSinCambio(us: seq<Usuario>, k: nat)
    requires k < |us| && forall i :: 0 <= i < |us| && us[i].id == us[k].id ==> i == k
    ensures ConFinca(us, us[k].id, us[k].fincaId) == us
  {
    var r := ConFinca(us, us[k].id, us[k].fincaId);
    forall i | 0 <= i < |us|
      ensures r[i] == us[i]
    {
      if us[i].id == us[k].id {
        assert i == k;
      }
    }
  }

  /**
   * `asignar_usuario_finca` (POST): an admin sets the user's farm to the
   * submitted one, or clears it when the field is empty (`None` here). An
   * unknown user ends in not-found. Only that user's farm changes.
   */
  method AsignarUsuarioFinca(db: Store, caller: Caller, usuarioId: Id, finca: Option<Id>) returns (out: Outcome)
    requires db.Valid()
    modifies db
    ensures db.Valid()
    ensures db.fincas == old(db.fincas) && db.supervisores == old(db.supervisores) && db.nextId == old(db.nextId)
    ensures db.areas == old(db.areas) && db.codigos == old(db.codigos)
    ensures !IsAdmin(caller) ==> out == Failure(Forbidden)
    ensures out.Failure? ==> db.usuarios == old(db.usuarios)
    ensures IsAdmin(caller) ==>
      if exists i :: 0 <= i < |old(db.usuarios)| && old(db.usuarios)[i].id == usuarioId
      then out == Success(1, 0) && db.usuarios == ConFinca(old(db.usuarios), usuarioId, finca)
      else out == Failure(NotFound)
  {
    if !IsAdmin(caller) {
      return Failure(Forbidden);
    }
    var p := Find(db.usuarios, (u: Usuario) => u.id, usuarioId);
    if p.None? {
      return Failure(NotFound);
    }
    ghost var u0 := db.usuarios;
    assert forall i :: 0 <= i < |u0| ==> UsuarioIds(u0)[i] == u0[i].id;
    db.SetUsuarioFinca(p.value, finca);
    assert forall i :: 0 <= i < |u0| && i != p.value ==> u0[i].id != usuarioId;
    assert db.usuarios == ConFinca(u0, usuarioId, finca);
    return Success(1, 0);
  }
}
