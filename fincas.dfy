/** app/routes/fincas.py: the admin-only farm listing and farm creation. */
module Fincas {
  import opened Options
  import opened Models
  import opened Access

  /** `Finca.query.filter_by(activa=True).all()`. */
  function FincasActivas(fs: seq<Finca>): (r: seq<Finca>)
    ensures forall i :: 0 <= i < |r| ==> r[i] in fs && r[i].activa
    ensures forall i :: 0 <= i < |fs| && fs[i].activa ==> fs[i] in r
  {
    Filter(fs, (f: Finca) => f.activa)
  }

  /** `listar_fincas`: the active farms, for an admin only. */
  function ListarFincas(caller: Caller, fs: seq<Finca>): (p: Page<seq<Finca>>)
    ensures !IsAdmin(caller) <==> p == Refused(Forbidden)
    ensures p.Shown? ==>
      (forall i :: 0 <= i < |p.rows| ==> p.rows[i] in fs && p.rows[i].activa)
      && (forall i :: 0 <= i < |fs| && fs[i].activa ==> fs[i] in p.rows)
  {
    if !IsAdmin(caller) then Refused(Forbidden) else Shown(FincasActivas(fs))
  }

  /**
   * `crear_finca` (POST): an admin adds one active farm with the given name,
   * location and description; nothing else changes.
   */
  method CrearFinca(db: Store, caller: Caller, nombre: string, ubicacion: string, descripcion: string)
    returns (out: Outcome)
    requires db.Valid()
    modifies db
    ensures db.Valid()
    ensures db.usuarios == old(db.usuarios) && db.supervisores == old(db.supervisores)
    ensures db.areas == old(db.areas) && db.codigos == old(db.codigos)
    ensures !IsAdmin(caller) ==> out == Failure(Forbidden) && db.fincas == old(db.fincas) && db.nextId == old(db.nextId)
    ensures IsAdmin(caller) ==>
      out == Success(1, 0) && db.fincas == old(db.fincas) + [Finca(old(db.nextId), nombre, ubicacion, descripcion, true)]
  {
    if !IsAdmin(caller) {
      return Failure(Forbidden);
    }
    var f := db.AddFinca(nombre, ubicacion, descripcion);
    return Success(1, 0);
  }

  /** A farm just created shows in the admin's listing, and no other farm appears or leaves. */
  lemma {:induction false} CreadaEnLista(fs: seq<Finca>, nueva: Finca)
    requires nueva.activa
    ensures FincasActivas(fs + [nueva]) == FincasActivas(fs) + [nueva]
  {
    if fs == [] {
      assert [nueva][1..] == [];
    } else {
      assert (fs + [nueva])[1..] == fs[1..] + [nueva];
      CreadaEnLista(fs[1..], nueva);
    }
  }
}
