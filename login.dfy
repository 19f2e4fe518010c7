/** Sign-in (src/pages/Login.jsx): the form check, the search for a
    matching account, and the session record and landing page. */
module Login {
  import opened Wrappers
  import opened Seqs
  import opened Accounts
  import Registration

  datatype LoginForm = LoginForm(email: string, password: string, role: string)

  datatype LoginError = MissingCredentials | NoAccount

  /** The `find` predicate: email ignoring case, password and role exactly. */
  function Matches(form: LoginForm): User -> bool
  {
    (u: User) => SameEmail(u.email, form.email) && u.password == form.password && u.role == form.role
  }

  /** `handleSubmit`: the first matching account, without its password,
      and the dashboard of its role. */
  function SignIn(users: seq<User>, form: LoginForm): (r: Result<Session, LoginError>)
    ensures r == Failure(MissingCredentials) <==> form.email == "" || form.password == ""
    ensures r == Failure(NoAccount) <==>
      form.email != "" && form.password != "" && forall u :: u in users ==> !Matches(form)(u)
    ensures r.Success? ==> exists u :: u in users && Matches(form)(u) && r.value == Session(Strip(u), DashboardFor(u.role))
  {
    if form.email == "" || form.password == "" then Failure(MissingCredentials)
    else
      var found := FindFirst(users, Matches(form));
      if found.None? then Failure(NoAccount)
      else Success(Session(Strip(found.value), DashboardFor(found.value.role)))
  }

  /** When several accounts match, the one earliest in the table wins. */
  lemma FirstMatchWins(users: seq<User>, form: LoginForm)
    requires SignIn(users, form).Success?
    ensures exists k :: (0 <= k < |users| && Matches(form)(users[k])
      && (forall j :: 0 <= j < k ==> !Matches(form)(users[j]))
      && SignIn(users, form).value == Session(Strip(users[k]), DashboardFor(users[k].role)))
  {
    FindFirstIsFirst(users, Matches(form));
  }

  /** The landing page is the dashboard of the role asked for: a match has
      that role. */
  lemma SignInLandsOnChosenRole(users: seq<User>, form: LoginForm)
    requires SignIn(users, form).Success?
    ensures SignIn(users, form).value.user.role == form.role
    ensures SignIn(users, form).value.redirect == DashboardFor(form.role)
  {
  }

  /** Finding an element appended after a prefix with no match. */
  lemma {:induction false} FindFirstAfterMiss<T>(s: seq<T>, x: T, p: T -> bool)
    requires forall y :: y in s ==> !p(y)
    requires p(x)
    ensures FindFirst(s + [x], p) == Some(x)
  {
    if s != [] {
      assert (s + [x])[1..] == s[1..] + [x];
      assert s[0] in s;
      FindFirstAfterMiss(s[1..], x, p);
    }
  }

  /** Whoever has just registered can sign in with the same email,
      password and role, and lands where registration sent them. */
  lemma RegisterThenSignIn(users: seq<User>, form: Registration.RegisterForm)
    requires Registration.CheckRegistration(users, form) == None
    ensures SignIn(users + [Registration.UserDataOf(form)], LoginForm(form.email, form.password, form.role))
      == Success(Session(Strip(Registration.UserDataOf(form)), DashboardFor(form.role)))
  {
    var login := LoginForm(form.email, form.password, form.role);
    var u := Registration.UserDataOf(form);
    assert Matches(login)(u);
    FindFirstAfterMiss(users, u, Matches(login));
  }
}
