/** The notification feed (src/pages/Notifications.jsx): which stored
    notifications the signed-in user sees, newest first, and the link back
    to their dashboard. */
module Feed {
  import opened Wrappers
  import opened Seqs
  import opened Records
  import opened Accounts
  import Sorting
  import Reporter

  /** `user?.role`; an absent user has no role, and no target role equals
      the empty string, so `""` stands for `undefined` here. */
  function RoleOf(user: Option<SessionUser>): string
  {
    if user.None? then "" else user.value.role
  }

  function EmailOf(user: Option<SessionUser>): string
  {
    if user.None? then "" else user.value.email
  }

  /** The filter of the effect: a target that is set must be the user's. */
  function KeptFor(user: Option<SessionUser>): Notification -> bool
  {
    (n: Notification) =>
      && (n.targetRole == "" || n.targetRole == RoleOf(user))
      && (n.targetEmail == "" || n.targetEmail == EmailOf(user))
  }

  /** `new Date(b.createdAt) - new Date(a.createdAt)`: newest first. */
  function Newer(): (Notification, Notification) -> bool
  {
    (a: Notification, b: Notification) => a.createdAt >= b.createdAt
  }

  lemma NewerIsConsistent()
    ensures Sorting.TotalPreorder(Newer())
  {
  }

  /** The `mine` list the page shows. */
  method FeedFor(all: seq<Notification>, user: Option<SessionUser>) returns (mine: seq<Notification>)
    ensures multiset(mine) == multiset(Filter(all, KeptFor(user)))
    ensures forall n :: n in mine <==> n in all && KeptFor(user)(n)
    ensures forall j, k :: 0 <= j < k < |mine| ==> mine[j].createdAt >= mine[k].createdAt
  {
    var kept := Filter(all, KeptFor(user));
    NewerIsConsistent();
    mine := Sorting.SortedCopy(kept, Newer());
    FilterSound(all, KeptFor(user));
    forall n | n in all && KeptFor(user)(n) ensures n in mine {
      FilterKeeps(all, KeptFor(user), n);
      assert n in multiset(kept);
    }
    forall n | n in mine ensures n in all && KeptFor(user)(n) {
      assert n in multiset(mine);
    }
    forall j, k | 0 <= j < k < |mine| ensures mine[j].createdAt >= mine[k].createdAt {
      assert Newer()(mine[j], mine[k]);
    }
  }

  /** A notification without targets reaches every user, and one aimed at
      a role and an email reaches exactly the user holding both. */
  lemma Targeting(n: Notification, user: Option<SessionUser>)
    ensures n.targetRole == "" && n.targetEmail == "" ==> KeptFor(user)(n)
    ensures n.targetRole != "" && n.targetEmail != "" ==>
      (KeptFor(user)(n) <==> user.Some? && user.value.role == n.targetRole && user.value.email == n.targetEmail)
  {
  }

  /** Of the notices sent for a new report, the reporter notice reaches the
      reporter who filed it and no other user, the admin notice every admin
      and nobody else, and the technician notice every technician and
      nobody else. */
  lemma ReportNoticesReachTheirAudience(i: Incident, now: int, user: Option<SessionUser>)
    requires i.reporterEmail != ""
    ensures KeptFor(user)(Reporter.ReporterNotice(i, now)) <==>
      user.Some? && user.value.role == ReporterRole && user.value.email == i.reporterEmail
    ensures KeptFor(user)(Reporter.AdminNotice(i, now)) <==> user.Some? && user.value.role == AdminRole
    ensures KeptFor(user)(Reporter.TechnicianNotice(i, now)) <==> user.Some? && user.value.role == TechnicianRole
  {
  }

  /** `backLink`: admins and technicians to their dashboards, everyone
      else to the reporter dashboard. */
  function BackLink(user: Option<SessionUser>): (path: string)
    ensures path == AdminHome <==> user.Some? && user.value.role == AdminRole
    ensures path == TechnicianHome <==> user.Some? && user.value.role == TechnicianRole
    ensures path == ReporterHome <==> RoleOf(user) != AdminRole && RoleOf(user) != TechnicianRole
  {
    if RoleOf(user) == AdminRole then AdminHome
    else if RoleOf(user) == TechnicianRole then TechnicianHome
    else ReporterHome
  }

  /** For the three roles the back link leads where sign-in does; for any
      other role it leads to the reporter dashboard, while sign-in sends
      such a user to the technician dashboard. */
  lemma BackLinkAgreesWithSignIn(user: SessionUser)
    ensures user.role in {ReporterRole, AdminRole, TechnicianRole} ==>
      BackLink(Some(user)) == DashboardFor(user.role)
    ensures user.role !in {ReporterRole, AdminRole, TechnicianRole} ==>
      BackLink(Some(user)) == ReporterHome && DashboardFor(user.role) == TechnicianHome
  {
  }
}
