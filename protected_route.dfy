/**
 * The guard a layout wraps around its pages: it renders the pages for a
 * permitted user and otherwise sends the visitor elsewhere.
 */
module ProtectedRoute {
  import opened Wrappers
  import opened AuthContext

  /** The target the guard picks for an authenticated user whose role is not allowed. */
  function FallbackRoute(u: User): (r: string)
    ensures r == HomeRoute(u)
  {
    if u.role == 2 then "/employee/store/" + EventIdText(u.eventId)
    else if u.role == 1 then "/admin/events"
    else "/client/events"
  }

  /** The guard's render condition: a user is set and the user's role is among the allowed ones. */
  predicate RendersChildren(user: Option<User>, allowedRoles: seq<UserRole>)
    ensures RendersChildren(user, allowedRoles) <==> user.Some? && user.value.role in allowedRoles
  {
    IsAuthenticated(user) && HasRole(user, allowedRoles)
  }

  /**
   * The redirect the guard's effect issues, if any: none for a permitted
   * user, the login page for a visitor without a user, and the role's home
   * for a user the guard does not admit. A redirect is issued exactly when
   * nothing is rendered.
   */
  function RedirectTarget(user: Option<User>, allowedRoles: seq<UserRole>): (r: Option<string>)
    ensures r.None? <==> RendersChildren(user, allowedRoles)
    ensures !IsAuthenticated(user) ==> r == Some("/")
    ensures IsAuthenticated(user) && !(user.value.role in allowedRoles) ==> r == Some(HomeRoute(user.value))
  {
    if !IsAuthenticated(user) then Some("/")
    else if !HasRole(user, allowedRoles) then Some(FallbackRoute(user.value))
    else None
  }
}
