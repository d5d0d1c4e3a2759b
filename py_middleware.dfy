/**
 * The permission decorator and the audit helper of the Flask backend
 * (DECMS_BACKEND/app/middleware.py).
 */
module PyMiddleware {
  import opened Wrappers
  import opened PySession

  /** A row of `roles`; the three permission flags are its boolean columns. */
  datatype RoleRow = RoleRow(role_id: nat, role_name: string, can_manage_users: bool,
                             can_create_cases: bool, can_transfer_evidence: bool)

  /** A row of `users` with its role loaded through the relationship. */
  datatype UserRow = UserRow(user_id: nat, role: RoleRow, first_name: string, last_name: string,
                             email: string, is_active: bool)

  /**
   * `get_current_user()`: the JWT identity, when there is one and it is not
   * falsy, looked up by primary key.
   */
  function CurrentUser(identity: Option<nat>, users: map<nat, UserRow>): (u: Option<UserRow>)
    ensures u.Some? <==> identity.Some? && identity.value != 0 && identity.value in users
    ensures u.Some? ==> u.value == users[identity.value]
  {
    if identity.None? || identity.value == 0 then None
    else if identity.value in users then Some(users[identity.value])
    else None
  }

  /**
   * Python truthiness of `getattr(role, name, False)` for the attributes of
   * a role. `users` is the relationship back to the role's users: it holds
   * the current user, whose role this is, so it is a non-empty, truthy list.
   * Any other name falls back to the default `False`.
   */
  predicate RoleAttribute(role: RoleRow, name: string) {
    match name
    case "role_id" => role.role_id != 0
    case "role_name" => role.role_name != []
    case "can_manage_users" => role.can_manage_users
    case "can_create_cases" => role.can_create_cases
    case "can_transfer_evidence" => role.can_transfer_evidence
    case "users" => true
    case _ => false
  }

  /** What a decorated route answers. */
  datatype Gate<R> =
    | JwtRefused                          // `jwt_required` rejects the request before the wrapper runs
    | Denied(status: nat, msg: string)
    | Ran(result: R)                      // the wrapped view function was called

  /**
   * `permission_required(permission)` wrapped around `fn`, called with `args`.
   * `jwtValid` is false when `jwt_required` finds no valid token; `identity`
   * is the subject of the token.
   */
  function PermissionRequired<A, R>(permission: string, jwtValid: bool, identity: Option<nat>,
                                    users: map<nat, UserRow>, fn: A -> R, args: A): (g: Gate<R>)
    ensures g.JwtRefused? <==> !jwtValid
    ensures g.Ran? <==> jwtValid && CurrentUser(identity, users).Some?
                         && RoleAttribute(CurrentUser(identity, users).value.role, permission)
    ensures g.Ran? ==> g.result == fn(args)
    ensures g.Denied? ==> (g.status == 401 <==> CurrentUser(identity, users).None?)
    ensures g.Denied? ==> g.status in {401, 403}
    ensures g.Denied? && g.status == 401 ==> g.msg == "User not found"
    ensures g.Denied? && g.status == 403 ==> g.msg == "You do not have permission for this action"
  {
    if !jwtValid then JwtRefused
    else
      var current := CurrentUser(identity, users);
      if current.None? then Denied(401, "User not found")
      else if !RoleAttribute(current.value.role, permission) then
        Denied(403, "You do not have permission for this action")
      else Ran(fn(args))
  }

  /**
   * A permission name that is neither a column nor the `users` relationship
   * of `roles` shuts the route for everyone.
   */
  lemma UnknownPermissionDenied<A, R>(permission: string, identity: Option<nat>,
                                      users: map<nat, UserRow>, fn: A -> R, args: A)
    requires permission !in {"role_id", "role_name", "can_manage_users", "can_create_cases", "can_transfer_evidence",
                             "users"}
    ensures !PermissionRequired(permission, true, identity, users, fn, args).Ran?
  {
  }

  /** `permission_required("users")` opens the route to every user that is found. */
  lemma UsersRelationshipAdmits<A, R>(identity: Option<nat>, users: map<nat, UserRow>, fn: A -> R, args: A)
    ensures PermissionRequired("users", true, identity, users, fn, args)
            == if CurrentUser(identity, users).Some? then Ran(fn(args)) else Denied(401, "User not found")
  {
  }

  /** For a flag column, the decision is exactly the current user's role flag. */
  lemma TransferFlagDecides<A, R>(identity: Option<nat>, users: map<nat, UserRow>, fn: A -> R, args: A)
    requires CurrentUser(identity, users).Some?
    ensures PermissionRequired("can_transfer_evidence", true, identity, users, fn, args)
            == if CurrentUser(identity, users).value.role.can_transfer_evidence then Ran(fn(args))
               else Denied(403, "You do not have permission for this action")
  {
  }

  /** The row `log_audit` adds. */
  function AuditEntry(current: Option<UserRow>, action: string, details: string, remoteAddr: string): (a: AuditRow)
    ensures a.user_id.Some? <==> current.Some?
    ensures current.Some? ==> a.user_id.value == current.value.user_id
    ensures a.action == action && a.details == details && a.ip_address == remoteAddr
  {
    AuditRow(if current.Some? then Some(current.value.user_id) else None, action, details, remoteAddr)
  }

  /**
   * `log_audit(action, details, commit_now)`.  When any step fails (`fault`)
   * the exception is swallowed and the WHOLE session is rolled back: the
   * caller's pending, uncommitted changes are discarded with the audit row.
   */
  method LogAudit(s: Session, current: Option<UserRow>, remoteAddr: string, action: string,
                  details: string, commitNow: bool, fault: bool)
    requires s.Valid()
    modifies s`work, s`durable
    ensures s.Valid()
    ensures fault ==> s.work == s.durable == old(s.durable)
    ensures !fault ==> s.work == old(s.work).(audit := old(s.work.audit) + [AuditEntry(current, action, details, remoteAddr)])
    ensures !fault && commitNow ==> s.durable == s.work
    ensures !fault && !commitNow ==> s.durable == old(s.durable)
  {
    if fault {
      s.Rollback();
      return;
    }
    s.AddAudit(AuditEntry(current, action, details, remoteAddr));
    if commitNow {
      var _ := s.Commit(false);
    }
  }

  /**
   * The audit helper as its callers need it: the row is written inside a
   * savepoint, so a failure discards the audit row only and the caller's
   * pending changes survive.
   */
  method LogAuditIsolated(s: Session, current: Option<UserRow>, remoteAddr: string, action: string,
                          details: string, commitNow: bool, fault: bool)
    requires s.Valid()
    modifies s`work, s`durable
    ensures s.Valid()
    ensures fault ==> s.work == old(s.work) && s.durable == old(s.durable)
    ensures !fault ==> s.work == old(s.work).(audit := old(s.work.audit) + [AuditEntry(current, action, details, remoteAddr)])
    ensures !fault && commitNow ==> s.durable == s.work
    ensures !fault && !commitNow ==> s.durable == old(s.durable)
  {
    if fault {
      return;
    }
    s.AddAudit(AuditEntry(current, action, details, remoteAddr));
    if commitNow {
      var _ := s.Commit(false);
    }
  }
}
