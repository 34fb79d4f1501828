/** backend/src/api/middleware/rbacMiddleware.js: the decision the
    middleware returned by `rbacMiddleware(action)` takes for one request.
    The Express objects are not modelled: the request is its `req.user`, and
    the effect is either a status with a JSON body or a call to `next`. */
module RbacMiddleware {
  import opened Wrappers
  import opened Permissions

  /** `req.user`; `role` is `None` when the property is missing. */
  datatype User = User(role: Option<Role>)

  datatype Outcome =
    | Unauthenticated                                    // 401 { error: 'Authentication required' }
    | Forbidden(required: Action, deniedRole: Role)      // 403 { error: 'Insufficient permissions', required, role }
    | Next

  /** `req.user && req.user.role` is truthy: a user with a non-empty role. */
  predicate Authenticated(user: Option<User>)
  {
    user.Some? && user.value.role.Some? && user.value.role.value != ""
  }

  /** Exactly one of 401, 403 and `next` per request: 401 without a user or
      role, 403 for a role the table does not allow, `next` otherwise. */
  function Rbac(action: Action, user: Option<User>): (r: Outcome)
    ensures r.Unauthenticated? <==> !Authenticated(user)
    ensures r.Forbidden? <==> Authenticated(user) && !HasPermission(user.value.role.value, action)
    ensures r.Next? <==> Authenticated(user) && HasPermission(user.value.role.value, action)
    ensures r.Forbidden? ==> r.required == action && r.deniedRole == user.value.role.value
  {
    if user.None? || user.value.role.None? || user.value.role.value == "" then Unauthenticated
    else if !HasPermission(user.value.role.value, action) then Forbidden(action, user.value.role.value)
    else Next
  }

  /** Even the public 'vitals:ingest' needs a user with a role: the 401
      check comes first; with any role it passes. */
  lemma PublicStillNeedsAuthentication(user: Option<User>)
    ensures !Authenticated(user) ==> Rbac("vitals:ingest", user) == Unauthenticated
    ensures Authenticated(user) ==> Rbac("vitals:ingest", user) == Next
  {
    if Authenticated(user) {
      PublicActionAllowed(user.value.role.value);
    }
  }

  /** A doctor may create patients; a viewer asking to create staff gets 403
      naming the action and the role. */
  lemma MiddlewareExamples()
    ensures Rbac("patients:create", Some(User(Some("doctor")))) == Next
    ensures Rbac("staff:create", Some(User(Some("viewer")))) == Forbidden("staff:create", "viewer")
    ensures Rbac("patients:read", Some(User(None))) == Unauthenticated
  {
    PatientPermissionExamples("patients:read", "patients:create");
    StaffPermissionExample("staff:create");
  }
}
