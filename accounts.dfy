/** The user records of the locally stored account table (the `users_v1`
    list), the session record the pages keep once someone is signed in,
    and the role-based choice of landing page shared by registration and
    sign-in. */
module Accounts {
  import opened Text

  const ReporterRole := "reporter"
  const AdminRole := "admin"
  const TechnicianRole := "technician"

  const ReporterHome := "/reporter/dashboard"
  const AdminHome := "/admin/dashboard"
  const TechnicianHome := "/technician/dashboard"

  /** A stored account; the password is kept in clear, as the demo does. */
  datatype User = User(
    name: string,
    email: string,
    password: string,
    role: string,
    location: string,
    skills: seq<string>)

  /** The record handed to the session: an account without its password. */
  datatype SessionUser = SessionUser(
    name: string,
    email: string,
    role: string,
    location: string,
    skills: seq<string>)

  /** `const { password, ...safeUser } = user`. */
  function Strip(u: User): SessionUser
  {
    SessionUser(u.name, u.email, u.role, u.location, u.skills)
  }

  /** Putting a password back on a session record. */
  function WithPassword(s: SessionUser, password: string): User
  {
    User(s.name, s.email, password, s.role, s.location, s.skills)
  }

  /** Stripping drops the password and nothing else: the account is
      recovered from the session record and its password, and two accounts
      with the same session record differ at most in their passwords. */
  lemma StripDropsOnlyPassword(u: User, v: User)
    ensures WithPassword(Strip(u), u.password) == u
    ensures Strip(u) == Strip(v) <==> u.(password := v.password) == v
  {
  }

  /** Where `navigate` sends a user after registering or signing in:
      reporters and admins to their dashboards, every other role to the
      technician dashboard. */
  function DashboardFor(role: string): (path: string)
    ensures path == ReporterHome <==> role == ReporterRole
    ensures path == AdminHome <==> role == AdminRole
    ensures path == TechnicianHome <==> role != ReporterRole && role != AdminRole
  {
    if role == ReporterRole then ReporterHome
    else if role == AdminRole then AdminHome
    else TechnicianHome
  }

  /** `a.toLowerCase() === b.toLowerCase()`. */
  predicate SameEmail(a: string, b: string)
  {
    Lower(a) == Lower(b)
  }

  /** No two accounts share an email, ignoring case. */
  predicate EmailsUnique(users: seq<User>)
  {
    forall j, k :: 0 <= j < k < |users| ==> !SameEmail(users[j].email, users[k].email)
  }

  /** What a successful registration or sign-in produces. */
  datatype Session = Session(user: SessionUser, redirect: string)
}
