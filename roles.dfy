/** The role gate put in front of the management routes: a request passes when it
    carries an authenticated user whose role name is one of the admitted names. */
module Roles {
  import opened Api

  /** The authenticated user attached to a request, with the name of its role. */
  datatype User = User(id: UserId, roleName: string)

  /** What the gate does with a request: hand it on, or answer with an error. */
  datatype Gate = Pass | Reject(error: Error)

  /** `checkRole(allowedRoles)` applied to the request's user (absent when the
      request is not authenticated). */
  function CheckRole(allowedRoles: seq<string>, user: Option<User>): (g: Gate)
    ensures g == Reject(Unauthenticated) <==> user.None?
    ensures g == Pass <==> user.Some? && user.value.roleName in allowedRoles
    ensures g == Reject(NotPermitted) <==> user.Some? && user.value.roleName !in allowedRoles
  {
    if user.None? then Reject(Unauthenticated)
    else if user.value.roleName !in allowedRoles then Reject(NotPermitted)
    else Pass
  }

  function IsAdmin(user: Option<User>): (g: Gate)
    ensures g == Pass <==> user.Some? && user.value.roleName == "Admin"
  {
    CheckRole(["Admin"], user)
  }

  function IsProductManager(user: Option<User>): (g: Gate)
    ensures g == Pass <==> user.Some? && user.value.roleName == "Product Manager"
  {
    CheckRole(["Product Manager"], user)
  }

  function IsOrderManager(user: Option<User>): (g: Gate)
    ensures g == Pass <==> user.Some? && user.value.roleName == "Order Manager"
  {
    CheckRole(["Order Manager"], user)
  }

  function IsFinanceManager(user: Option<User>): (g: Gate)
    ensures g == Pass <==> user.Some? && user.value.roleName == "Finance Manager"
  {
    CheckRole(["Finance Manager"], user)
  }

  function IsAdminOrProductManager(user: Option<User>): (g: Gate)
    ensures g == Pass <==> user.Some? && (user.value.roleName == "Admin" || user.value.roleName == "Product Manager")
  {
    CheckRole(["Admin", "Product Manager"], user)
  }

  /** Role names are compared as exact strings: a differently cased name is refused. */
  lemma RoleMatchIsExact(id: UserId)
    ensures IsAdmin(Some(User(id, "admin"))) == Reject(NotPermitted)
    ensures IsAdmin(Some(User(id, "Admin "))) == Reject(NotPermitted)
  {
    assert "admin" != "Admin" by { assert "admin"[0] != "Admin"[0]; }
    assert "Admin " != "Admin" by { assert |"Admin "| != |"Admin"|; }
  }

  /** Admitting more role names never turns away a user that was let through. */
  lemma WiderGateAdmitsMore(allowed: seq<string>, wider: seq<string>, user: Option<User>)
    requires forall r :: r in allowed ==> r in wider
    ensures CheckRole(allowed, user) == Pass ==> CheckRole(wider, user) == Pass
    ensures CheckRole(wider, user) == Reject(Unauthenticated) <==> CheckRole(allowed, user) == Reject(Unauthenticated)
  {
  }
}
