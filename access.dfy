/**
 * Who is calling and what a handler answers.
 *
 * A request reaches a handler with the session's role string and the farm
 * of the caller's user record (`Usuario.query.get(session['user_id']).finca_id`).
 * The `flash(message, category)` + `redirect` pair every handler ends with is
 * an `Outcome`: the category, the number the message reports, and for an
 * error the reason it names.
 */
module Access {
  import opened Options
  import opened Models

  const ADMIN: string := "admin"
  const RRHH: string := "rrhh"
  const JEFE_CULTIVO: string := "jefe_cultivo"

  datatype Caller = Caller(rol: string, fincaId: Option<Id>)

  /** `session['rol'] == 'admin'`. */
  predicate IsAdmin(c: Caller) {
    c.rol == ADMIN
  }

  /** `session['rol'] in ['admin', 'rrhh', 'jefe_cultivo']`. */
  predicate CanManage(c: Caller) {
    c.rol == ADMIN || c.rol == RRHH || c.rol == JEFE_CULTIVO
  }

  /** The admin-only gate is the narrower of the two. */
  lemma AdminCanManage(c: Caller)
    ensures IsAdmin(c) ==> CanManage(c)
  {
  }

  /**
   * The cross-farm check of the assignment handlers: a non-admin may only
   * write into an area of their own farm (`area.finca_id != usuario.finca_id`
   * is rejected; a caller without a farm never matches).
   */
  predicate MayWriteInto(c: Caller, a: Area) {
    IsAdmin(c) || c.fincaId == Some(a.fincaId)
  }

  datatype ErrorKind =
    | Forbidden        // "No tienes permisos ..."
    | FarmRequired     // admin did not pick a farm
    | NoAssignedFarm   // non-admin has no farm
    | RangeFormat      // range without '-'
    | RangeNotNumeric  // range whose halves are not numbers
    | DuplicateCode    // single creation of an existing (codigo, finca_id)
    | AreaRequired     // bulk assignment without an area
    | EmptySelection   // bulk assignment with no code selected
    | OtherFarm        // non-admin writing into another farm's area
    | NotFound         // an id that does not resolve
    | DatabaseFault    // the database refuses the write; the transaction rolls back

  datatype Outcome =
    | Success(count: nat, skipped: nat)
    | Warning(count: nat, skipped: nat)
    | Failure(kind: ErrorKind)

  /** What a read-only page answers: the rows it renders, or the error it flashes. */
  datatype Page<T> = Shown(rows: T) | Refused(kind: ErrorKind)
}
