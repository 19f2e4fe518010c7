/** Registration (src/pages/Register.jsx): the form checks, the
    case-insensitive duplicate-email check, the record that is stored,
    skills parsing, and the append to the account table. */
module Registration {
  import opened Wrappers
  import opened Seqs
  import opened Text
  import opened Accounts

  datatype RegisterForm = RegisterForm(
    name: string,
    email: string,
    password: string,
    role: string,
    location: string,
    skills: string)

  datatype RegisterError = MissingFields | MissingLocation | EmailTaken

  // ---------------------------------------------------------------------
  // Skills

  function TrimAll(parts: seq<string>): (r: seq<string>)
    ensures |r| == |parts|
    ensures forall k :: 0 <= k < |parts| ==> r[k] == Trim(parts[k])
  {
    if parts == [] then [] else [Trim(parts[0])] + TrimAll(parts[1..])
  }

  /** `Boolean` on a string. */
  predicate NonEmpty(s: string)
  {
    s != ""
  }

  /** `raw.split(",").map((s) => s.trim()).filter(Boolean)`. */
  function ParseSkills(raw: string): seq<string>
  {
    Filter(TrimAll(Split(raw, ',')), NonEmpty)
  }

  /** A skill as the parser leaves it: non-empty, without surrounding
      white space, and without a comma. */
  predicate CleanSkill(s: string)
  {
    s != [] && !IsSpace(s[0]) && !IsSpace(s[|s| - 1]) && ',' !in s
  }

  /** Trimming a comma-free piece gives a comma-free piece without
      surrounding white space. */
  lemma TrimmedPiece(piece: string)
    requires ',' !in piece
    ensures Trim(Trim(piece)) == Trim(piece) && ',' !in Trim(piece)
  {
    TrimIdempotent(piece);
    TrimKeepsAbsent(piece, ',');
  }

  /** Every parsed skill is non-empty, has no surrounding white space
      and no comma. */
  lemma ParsedSkillsAreClean(raw: string)
    ensures forall s :: s in ParseSkills(raw) ==> s != "" && Trim(s) == s && ',' !in s
  {
    var pieces := Split(raw, ',');
    var trimmed := TrimAll(pieces);
    FilterSound(trimmed, NonEmpty);
    forall s | s in ParseSkills(raw) ensures s != "" && Trim(s) == s && ',' !in s {
      var k :| 0 <= k < |trimmed| && trimmed[k] == s;
      assert pieces[k] in pieces;
      TrimmedPiece(pieces[k]);
    }
  }

  /** Trimming leaves clean skills alone. */
  lemma TrimAllClean(skills: seq<string>)
    requires forall s :: s in skills ==> CleanSkill(s)
    ensures TrimAll(skills) == skills
  {
    forall k | 0 <= k < |skills| ensures Trim(skills[k]) == skills[k] {
      assert CleanSkill(skills[k]);
      TrimNoop(skills[k]);
    }
  }

  /** A list of clean skills written with commas between them is read
      back unchanged. */
  lemma ParseSkillsOfJoin(skills: seq<string>)
    requires |skills| >= 1
    requires forall s :: s in skills ==> CleanSkill(s)
    ensures ParseSkills(Join(skills, ",")) == skills
  {
    assert Split(Join(skills, ","), ',') == skills by {
      assert forall s :: s in skills ==> ',' !in s;
      SplitJoin(skills, ',');
    }
    TrimAllClean(skills);
    FilterAll(skills, NonEmpty);
  }

  // ---------------------------------------------------------------------
  // The submit handler

  /** `users.find((u) => u.email.toLowerCase() === email.toLowerCase())`. */
  function EmailOwner(users: seq<User>, email: string): Option<User>
  {
    FindFirst(users, (u: User) => SameEmail(u.email, email))
  }

  /** The checks of `handleSubmit`, in their order. */
  function CheckRegistration(users: seq<User>, form: RegisterForm): (r: Option<RegisterError>)
    ensures r == Some(MissingFields) <==> form.name == "" || form.email == "" || form.password == ""
    ensures r == Some(MissingLocation) <==>
      form.name != "" && form.email != "" && form.password != ""
      && form.role == ReporterRole && form.location == ""
    ensures r == Some(EmailTaken) <==>
      form.name != "" && form.email != "" && form.password != ""
      && !(form.role == ReporterRole && form.location == "")
      && exists u :: u in users && SameEmail(u.email, form.email)
    ensures r == None ==> forall u :: u in users ==> !SameEmail(u.email, form.email)
  {
    if form.name == "" || form.email == "" || form.password == "" then Some(MissingFields)
    else if form.role == ReporterRole && form.location == "" then Some(MissingLocation)
    else if EmailOwner(users, form.email).Some? then Some(EmailTaken)
    else None
  }

  /** `userData`: the location only for reporters, the parsed skills only
      for technicians. */
  function UserDataOf(form: RegisterForm): (u: User)
    ensures u.name == form.name && u.role == form.role
    ensures u.role == ReporterRole ==> u.location == form.location
    ensures u.role != ReporterRole ==> u.location == ""
    ensures u.role == TechnicianRole ==> u.skills == ParseSkills(form.skills)
    ensures u.role == TechnicianRole ==> forall s :: s in u.skills ==> s != "" && Trim(s) == s
    ensures u.role != TechnicianRole ==> u.skills == []
    ensures Strip(u).email == form.email && WithPassword(Strip(u), form.password) == u
  {
    ParsedSkillsAreClean(form.skills);
    User(form.name, form.email, form.password, form.role,
      if form.role == ReporterRole then form.location else "",
      if form.role == TechnicianRole then ParseSkills(form.skills) else [])
  }

  /** An accepted registration keeps the emails of the table distinct. */
  lemma AcceptedKeepsEmailsUnique(users: seq<User>, form: RegisterForm)
    requires EmailsUnique(users)
    requires CheckRegistration(users, form) == None
    ensures EmailsUnique(users + [UserDataOf(form)])
  {
    var next := users + [UserDataOf(form)];
    forall j, k | 0 <= j < k < |next| ensures !SameEmail(next[j].email, next[k].email) {
      if k == |users| {
        assert next[j] in users;
      }
    }
  }

  /** The account table; `Register` is `handleSubmit` with `loadUsers` and
      `saveUsers` replaced by this field. */
  class UserTable {
    var users: seq<User>

    predicate Valid()
      reads this
    {
      EmailsUnique(users)
    }

    constructor ()
      ensures users == [] && Valid()
    {
      users := [];
    }

    method Register(form: RegisterForm) returns (r: Result<Session, RegisterError>)
      requires Valid()
      modifies this
      ensures Valid()
      ensures r.Failure? <==> CheckRegistration(old(users), form).Some?
      ensures r.Failure? ==> r.error == CheckRegistration(old(users), form).value && users == old(users)
      ensures r.Success? ==>
        && users == old(users) + [UserDataOf(form)]
        && r.value == Session(Strip(UserDataOf(form)), DashboardFor(form.role))
    {
      var error := CheckRegistration(users, form);
      if error.Some? {
        return Failure(error.value);
      }
      var userData := UserDataOf(form);
      AcceptedKeepsEmailsUnique(users, form);
      users := users + [userData];
      r := Success(Session(Strip(userData), DashboardFor(form.role)));
    }
  }
}
