/** The RPC layer's errors and sessions, and the admin gate every
    catalogue mutation passes first. The procedure definitions are not
    part of this model; the gate follows the behaviour the procedure tests
    fix: no session is UNAUTHORIZED, a non-admin session is FORBIDDEN with
    "Admin access required", an admin session passes. */
module Trpc {
  import opened Common
  import opened Schemas

  datatype Code = BAD_REQUEST | UNAUTHORIZED | FORBIDDEN | NOT_FOUND | CONFLICT

  datatype TrpcError = TrpcError(code: Code, message: string)

  datatype Result<T> = Ok(value: T) | Err(error: TrpcError)

  /** The signed-in user the request context carries (`ctx.session.user`). */
  datatype SessionUser = SessionUser(id: string, role: string)

  /** None: no session, or a session without a user. */
  type Session = Option<SessionUser>

  const Unauthorized := TrpcError(UNAUTHORIZED, "UNAUTHORIZED")
  const AdminRequired := TrpcError(FORBIDDEN, "Admin access required")
  /** The schema rejected the input; field-level messages are not modelled. */
  const InvalidInput := TrpcError(BAD_REQUEST, "Invalid input")

  /** Access policy for writes: a session whose user is an admin. */
  predicate CanWrite(session: Session)
  {
    session.Some? && session.value.role == RoleName(ADMIN)
  }

  /** The admin procedure's check; None means the call may proceed. */
  function AdminGate(session: Session): (r: Option<TrpcError>)
    ensures r.None? <==> CanWrite(session)
    ensures session.None? ==> r == Some(Unauthorized)
    ensures session.Some? && !CanWrite(session) ==> r == Some(AdminRequired)
  {
    if session.None? then Some(Unauthorized)
    else if session.value.role != RoleName(ADMIN) then Some(AdminRequired)
    else None
  }

  /** The two refusals are distinguishable, so a caller can tell "sign in"
      from "not allowed". */
  lemma GateRefusalsDiffer(s: SessionUser)
    requires !CanWrite(Some(s))
    ensures AdminGate(None).value.code != AdminGate(Some(s)).value.code
  {
  }
}
