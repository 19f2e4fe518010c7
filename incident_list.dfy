/** The reporter's incident history (src/pages/IncidentList.jsx): the
    owner filter and the badge colours. The incidents are the list the page
    loads from the browser store `incidents_v1`, given as a parameter. */
module History {
  import opened Wrappers
  import opened Seqs
  import opened Records
  import opened Accounts
  import Reporter

  /** `user?.email || "anonymous"`. */
  function OwnerKey(user: Option<SessionUser>): (key: string)
    ensures key != ""
  {
    if user.None? || user.value.email == "" then "anonymous" else user.value.email
  }

  function OwnedBy(key: string): Incident -> bool
  {
    (i: Incident) => i.reporterEmail == key
  }

  /** `all.filter((i) => i.reporterEmail === (user?.email || "anonymous"))`. */
  function MyIncidents(all: seq<Incident>, user: Option<SessionUser>): seq<Incident>
  {
    Filter(all, OwnedBy(OwnerKey(user)))
  }

  /** The history of a given stored list holds exactly the user's own
      incidents, in their stored order: the history of a list split in two
      is the history of the first part followed by that of the second. */
  lemma MyIncidentsExactly(all: seq<Incident>, more: seq<Incident>, user: Option<SessionUser>)
    ensures forall i :: i in MyIncidents(all, user) <==> i in all && i.reporterEmail == OwnerKey(user)
    ensures MyIncidents(all + more, user) == MyIncidents(all, user) + MyIncidents(more, user)
  {
    FilterSound(all, OwnedBy(OwnerKey(user)));
    forall i | i in all && i.reporterEmail == OwnerKey(user) ensures i in MyIncidents(all, user) {
      FilterKeeps(all, OwnedBy(OwnerKey(user)), i);
    }
    FilterAppend(all, more, OwnedBy(OwnerKey(user)));
  }

  datatype Badge = Badge(bg: string, color: string)

  const RedBadge := Badge("#fee2e2", "#b91c1c")
  const AmberBadge := Badge("#fef3c7", "#92400e")
  const GreenPriorityBadge := Badge("#dcfce7", "#166534")
  const GreenStatusBadge := Badge("#dcfce7", "#15803d")
  const BlueBadge := Badge("#e0f2fe", "#0369a1")
  const GreyBadge := Badge("#f3f4f6", "#374151")

  /** `badgeStyle(type, value)`: any `type` other than "priority" is a
      status badge. */
  function BadgeStyle(kind: string, value: string): (b: Badge)
    ensures kind == "priority" ==>
      && (b == RedBadge <==> value == High)
      && (b == AmberBadge <==> value == Medium)
      && (b == GreenPriorityBadge <==> value != High && value != Medium)
    ensures kind != "priority" ==>
      && (b == GreenStatusBadge <==> value == Resolved)
      && (b == BlueBadge <==> value == InProgress || value == "Assigned")
      && (b == GreyBadge <==> value != Resolved && value != InProgress && value != "Assigned")
  {
    if kind == "priority" then
      if value == High then RedBadge
      else if value == Medium then AmberBadge
      else GreenPriorityBadge
    else if value == Resolved then GreenStatusBadge
    else if value == InProgress || value == "Assigned" then BlueBadge
    else GreyBadge
  }

  /** The badges a record built by the reporter dashboard's submit handler
      would get: its priority badge is red exactly when the dashboard chose
      "High", and its status badge is grey, since it starts as "New". */
  lemma NewReportBadges(incidents: seq<Incident>, f: Reporter.IntakeForm, email: string, now: int)
    requires Reporter.CheckSubmission(incidents, f, email, now).Success?
    ensures var created := Reporter.CheckSubmission(incidents, f, email, now).value;
            && (BadgeStyle("priority", created.priority) == RedBadge <==>
                Reporter.ChoosePriority(f.category, f.description, f.manualPriority) == High)
            && BadgeStyle("status", created.status) == GreyBadge
  {
  }
}
