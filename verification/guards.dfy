/**
 * `roleGuard`: whether a route may be entered, given the current user and
 * the roles the route lists. Its effects on the router and on the
 * service's `redirectUrl` are returned as values.
 */
module Guards {
  import opened Common
  import opened Auth

  /**
   * `allow` is the guard's answer, `navigateTo` where the router is sent
   * and `redirectUrl` the URL remembered in the service, if any.
   */
  datatype Decision = Decision(allow: bool, navigateTo: Option<string>, redirectUrl: Option<string>)

  /** Some listed role is held by the user (`expectedRoles.some(hasRole)`). */
  predicate SomeRoleHeld(user: Option<AuthUser>, roles: seq<Role>) {
    exists r :: r in roles && UserHasRole(user, r)
  }

  function RoleGuard(user: Option<AuthUser>, expectedRoles: Option<seq<Role>>, url: string): (d: Decision)
    ensures d.allow <==> user.Some? && expectedRoles.Some? && SomeRoleHeld(user, expectedRoles.value)
    ensures d.allow <==> d.navigateTo.None?
    ensures d.redirectUrl.Some? <==> user.None?
    ensures user.None? ==> d.redirectUrl == Some(url) && d.navigateTo == Some("/auth/login")
    ensures user.Some? && (expectedRoles.None? || expectedRoles.value == []) ==> d.navigateTo == Some("/auth/login")
    ensures user.Some? && expectedRoles.Some? && expectedRoles.value != [] && !d.allow ==>
      (user.value.rol == "CLIENTE" ==> d.navigateTo == Some("/cliente")) &&
      (user.value.rol == "EMPLEADO" || user.value.rol == "ADMIN" ==> d.navigateTo == Some("/empleado")) &&
      (!ValidRol(user.value.rol) ==> d.navigateTo == Some("/auth/login"))
  {
    if user.None? then
      Decision(false, Some("/auth/login"), Some(url))
    else if expectedRoles.None? || |expectedRoles.value| == 0 then
      Decision(false, Some("/auth/login"), None)
    else if SomeRoleHeld(user, expectedRoles.value) then
      Decision(true, None, None)
    else if user.value.rol == "CLIENTE" then
      Decision(false, Some("/cliente"), None)
    else if user.value.rol == "EMPLEADO" || user.value.rol == "ADMIN" then
      Decision(false, Some("/empleado"), None)
    else
      Decision(false, Some("/auth/login"), None)
  }

  /** The roles the application's route table gives each dashboard. */
  function DashboardRoles(path: string): Option<seq<Role>> {
    if path == "/cliente" then Some([CLIENTE])
    else if path == "/empleado" then Some([EMPLEADO, ADMIN])
    else None
  }

  /**
   * A user with a known role who is turned away from a route lands on the
   * dashboard of their own role, which the guard lets them into: a denial
   * never bounces between two guarded pages.
   */
  lemma DenialLandsOnOwnDashboard(user: AuthUser, roles: seq<Role>, url: string)
    requires ValidRol(user.rol) && roles != []
    requires !RoleGuard(Some(user), Some(roles), url).allow
    ensures var d := RoleGuard(Some(user), Some(roles), url);
      d.navigateTo.Some? && DashboardRoles(d.navigateTo.value).Some? &&
      RoleGuard(Some(user), DashboardRoles(d.navigateTo.value), d.navigateTo.value).allow
  {
    var d := RoleGuard(Some(user), Some(roles), url);
    if user.rol == "CLIENTE" {
      assert d.navigateTo == Some("/cliente");
      assert CLIENTE in [CLIENTE];
    } else if user.rol == "ADMIN" {
      assert d.navigateTo == Some("/empleado");
      assert ADMIN in [EMPLEADO, ADMIN];
    } else {
      assert d.navigateTo == Some("/empleado");
      assert EMPLEADO in [EMPLEADO, ADMIN];
    }
  }

  /**
   * After a successful login with no remembered URL, the guard of the
   * dashboard chosen by `login` admits the user.
   */
  lemma LoginLandsOnAdmittedDashboard(redirectUrl: Option<string>, user: AuthUser)
    requires ValidRol(user.rol) && !StrTruthy(redirectUrl)
    ensures var url := DestinoTrasLogin(redirectUrl, user);
      DashboardRoles(url).Some? && RoleGuard(Some(user), DashboardRoles(url), url).allow
  {
    var url := DestinoTrasLogin(redirectUrl, user);
    if user.rol == "CLIENTE" {
      assert CLIENTE in [CLIENTE];
    } else if user.rol == "ADMIN" {
      assert url == "/empleado" && ADMIN in [EMPLEADO, ADMIN];
    } else {
      assert url == "/empleado" && EMPLEADO in [EMPLEADO, ADMIN];
    }
  }

  /** An EMPLEADO opening an ADMIN-only route is refused and sent to `/empleado`. */
  lemma EmpleadoOnAdminRoute(user: AuthUser, url: string)
    requires user.rol == "EMPLEADO"
    ensures RoleGuard(Some(user), Some([ADMIN]), url) == Decision(false, Some("/empleado"), None)
  {
    assert !SomeRoleHeld(Some(user), [ADMIN]);
  }
}
