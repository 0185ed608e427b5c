/**
 * The frontend route guard: a spinner while the session is being restored,
 * the login page (remembering where the user was going) when no one is
 * signed in, an access-denied page for a signed-in user whose role is not
 * among the required ones, and the protected page otherwise.
 */
module ProtectedRoute {
  import opened Wrappers
  import opened Domain
  import opened Http
  import opened AuthMiddleware

  const LOGIN_PATH := "/auth/login"
  const DASHBOARD_PATH := "/dashboard"

  /** What the guard renders. `AccessDenied` carries the `Navigate` it renders inside the message. */
  datatype Guarded =
    | Spinner
    | RedirectToLogin(to: string, from: string)
    | AccessDenied(redirectTo: string)
    | Children

  /**
   * The guard for `useAuth()`'s `isLoading`, `isAuthenticated` and the role
   * of `user` (`None` for a null user), the `requiredRole` prop (`None` when
   * not given; an array, even empty, is truthy) and the current location.
   */
  function Guard(isLoading: bool, isAuthenticated: bool, userRole: Option<string>, requiredRole: Option<seq<string>>,
                 location: string): (g: Guarded)
    ensures isLoading ==> g == Spinner
    ensures !isLoading && !isAuthenticated ==> g == RedirectToLogin(LOGIN_PATH, location)
    ensures g.AccessDenied? <==> !isLoading && isAuthenticated && requiredRole.Some? && userRole.Some? && userRole.value !in requiredRole.value
    ensures g.AccessDenied? ==> g.redirectTo == DASHBOARD_PATH
    ensures g == Children <==> !isLoading && isAuthenticated && (requiredRole.None? || userRole.None? || userRole.value in requiredRole.value)
  {
    if isLoading then Spinner
    else if !isAuthenticated then RedirectToLogin(LOGIN_PATH, location)
    else if requiredRole.Some? && userRole.Some? && userRole.value !in requiredRole.value then AccessDenied(DASHBOARD_PATH)
    else Children
  }

  /** While loading, nothing else is looked at. */
  lemma LoadingIgnoresEverything(a1: bool, r1: Option<string>, q1: Option<seq<string>>, l1: string,
                                 a2: bool, r2: Option<string>, q2: Option<seq<string>>, l2: string)
    ensures Guard(true, a1, r1, q1, l1) == Guard(true, a2, r2, q2, l2)
  {
  }

  /** An empty `requiredRole` list turns away every signed-in user who has a role, and lets through a null user. */
  lemma EmptyRoleListDenies(userRole: Option<string>, location: string)
    ensures Guard(false, true, userRole, Some([]), location) == if userRole.Some? then AccessDenied(DASHBOARD_PATH) else Children
  {
  }

  /**
   * For a signed-in user with a role, the guard with a role list lets
   * through exactly the users the backend's `requireRole` with the same list
   * lets through: the frontend and the backend agree on who may see a page.
   */
  lemma GuardAgreesWithRequireRole(who: Identity, roles: seq<string>, location: string)
    ensures Guard(false, true, Some(RoleName(who.role)), Some(roles), location) == Children <==> RequireRole(roles, Some(who)) == Next
  {
  }

  /** The administration pages guarded for superadmins and centre admins admit exactly the callers `requireAdminCentre` admits. */
  lemma AdminPagesMatchBackend(who: Identity, location: string)
    ensures Guard(false, true, Some(RoleName(who.role)), Some(["SUPERADMIN", "ADMIN_CENTRE"]), location) == Children
        <==> who.role in {SuperAdmin, AdminCentre}
  {
    GuardAgreesWithRequireRole(who, ["SUPERADMIN", "ADMIN_CENTRE"], location);
    RoleGatesNest(Some(who));
  }
}
