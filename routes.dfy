/** Access to the pages (src/App.jsx): the `ProtectedRoute` decision and
    the role lists of the route table. */
module Routes {
  import opened Wrappers
  import opened Accounts

  datatype Outcome = RedirectToLogin | Render

  /** `ProtectedRoute`: no user goes to the sign-in page; with a role list
      (even an empty one, which is truthy) the user's role must be on it. */
  function ProtectedRoute(user: Option<SessionUser>, allowedRoles: Option<seq<string>>): (o: Outcome)
    ensures o == Render <==> user.Some? && (allowedRoles.None? || user.value.role in allowedRoles.value)
    ensures user.None? ==> o == RedirectToLogin
  {
    if user.None? then RedirectToLogin
    else if allowedRoles.Some? && user.value.role !in allowedRoles.value then RedirectToLogin
    else Render
  }

  datatype Guard = Public | Protected(allowedRoles: Option<seq<string>>)

  const ReporterIncidents := "/reporter/incidents"
  const NotificationsPage := "/notifications"

  /** The `<Routes>` table; `None` for a path with no route. */
  function GuardOf(path: string): Option<Guard>
  {
    if path == "/" || path == "/login" || path == "/register" then Some(Public)
    else if path == ReporterHome || path == ReporterIncidents then Some(Protected(Some([ReporterRole])))
    else if path == AdminHome then Some(Protected(Some([AdminRole])))
    else if path == TechnicianHome then Some(Protected(Some([TechnicianRole])))
    else if path == NotificationsPage then Some(Protected(Some([ReporterRole, AdminRole, TechnicianRole])))
    else None
  }

  /** What visiting `path` does; `None` for a path with no route. */
  function Visit(path: string, user: Option<SessionUser>): Option<Outcome>
  {
    match GuardOf(path)
    case None => None
    case Some(Public) => Some(Render)
    case Some(Protected(roles)) => Some(ProtectedRoute(user, roles))
  }

  /** Each dashboard admits its own role only, the history page only
      reporters, and the feed any of the three roles. */
  lemma RouteTableRoles(user: Option<SessionUser>)
    ensures Visit(ReporterHome, user) == Some(Render) <==> user.Some? && user.value.role == ReporterRole
    ensures Visit(ReporterIncidents, user) == Some(Render) <==> user.Some? && user.value.role == ReporterRole
    ensures Visit(AdminHome, user) == Some(Render) <==> user.Some? && user.value.role == AdminRole
    ensures Visit(TechnicianHome, user) == Some(Render) <==> user.Some? && user.value.role == TechnicianRole
    ensures Visit(NotificationsPage, user) == Some(Render) <==>
      user.Some? && user.value.role in {ReporterRole, AdminRole, TechnicianRole}
    ensures user.None? ==> forall p :: GuardOf(p).Some? && GuardOf(p) != Some(Public) ==> Visit(p, user) == Some(RedirectToLogin)
  {
  }

  /** A user of one of the three roles is let into the page that sign-in
      and registration send them to; a user of any other role is sent on to
      the technician dashboard, which turns them back to the sign-in page. */
  lemma LandingPageAdmits(user: SessionUser)
    ensures user.role in {ReporterRole, AdminRole, TechnicianRole} ==>
      Visit(DashboardFor(user.role), Some(user)) == Some(Render)
    ensures user.role !in {ReporterRole, AdminRole, TechnicianRole} ==>
      Visit(DashboardFor(user.role), Some(user)) == Some(RedirectToLogin)
  {
  }
}
