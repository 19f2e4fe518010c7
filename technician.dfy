/** The technician dashboard (src/pages/DashboardTechnician.jsx): the SLA
    test, the age label, the location line, the workload figures, the
    ordered work queue and the assign / start / resolve / release workflow
    on the incident store. */
module Technician {
  import opened Wrappers
  import opened Seqs
  import opened Text
  import opened Records
  import Sorting

  // ---------------------------------------------------------------------
  // SLA and age

  /** The response-time target, in minutes. */
  const SlaMinutes := 30

  /** `isSlaBreached`: the age in (fractional) minutes exceeds 30. */
  predicate IsSlaBreached(createdAt: Option<int>, now: int)
  {
    createdAt.Some? && (now - createdAt.value) as real / MinuteMs as real > SlaMinutes as real
  }

  /** Breached exactly when more than 30 minutes' worth of milliseconds have
      passed: an incident exactly 30 minutes old is not breached, and one
      without a timestamp never is. */
  lemma SlaBreachedExactly(createdAt: Option<int>, now: int)
    ensures IsSlaBreached(createdAt, now) <==>
      createdAt.Some? && now - createdAt.value > SlaMinutes * MinuteMs
  {
    if createdAt.Some? {
      var d := (now - createdAt.value) as real;
      assert d / 60000.0 > 30.0 <==> d > 1800000.0;
    }
  }

  /** `Math.max(0, Math.round((now - ts) / 60000))`: `Math.round` rounds
      half-way cases up, which on a whole number of milliseconds is
      `floor((d + 30000) / 60000)`. */
  function AgeMinutes(ts: int, now: int): nat
  {
    var m := (now - ts + MinuteMs / 2) / MinuteMs;
    if m < 0 then 0 else m
  }

  /** The rounded age is the whole number of minutes nearest to the age
      (half-way ages round up), and 0 for a timestamp in the future. */
  lemma AgeMinutesIsNearest(ts: int, now: int)
    ensures now - ts >= -MinuteMs / 2 ==>
      AgeMinutes(ts, now) * MinuteMs - MinuteMs / 2 <= now - ts < AgeMinutes(ts, now) * MinuteMs + MinuteMs / 2
    ensures now - ts < -MinuteMs / 2 ==> AgeMinutes(ts, now) == 0
  {
  }

  /** What `formatAge` shows: `"-"`, `"<n> min"`, or (from 60 minutes on)
      an hour or day figure whose decimal rendering is not modelled. */
  datatype AgeLabel = NoAge | Minutes(minutes: nat) | HoursOrDays(minutes: nat)

  function FormatAge(createdAt: Option<int>, now: int): (r: AgeLabel)
    ensures createdAt.None? <==> r == NoAge
    ensures r.Minutes? ==> r.minutes < 60
    ensures r.HoursOrDays? ==> r.minutes >= 60
    ensures createdAt.Some? ==>
      r.minutes == AgeMinutes(createdAt.value, now)
  {
    if createdAt.None? then NoAge
    else
      var m := AgeMinutes(createdAt.value, now);
      if m < 60 then Minutes(m) else HoursOrDays(m)
  }

  /** The minute label and the SLA test agree away from the boundary: a
      label under 30 minutes is never breached, and one over 30 minutes
      always is. */
  lemma MinuteLabelAndSla(createdAt: Option<int>, now: int)
    requires FormatAge(createdAt, now).Minutes?
    ensures FormatAge(createdAt, now).minutes < SlaMinutes ==> !IsSlaBreached(createdAt, now)
    ensures FormatAge(createdAt, now).minutes > SlaMinutes ==> IsSlaBreached(createdAt, now)
  {
    SlaBreachedExactly(createdAt, now);
    AgeMinutesIsNearest(createdAt.value, now);
  }

  // ---------------------------------------------------------------------
  // Location line

  /** `renderLocationDisplay`. */
  function RenderLocationDisplay(i: Incident): string
  {
    if i.location != "" then i.location
    else
      var parts := (if i.hostel != "" then [i.hostel] else []) + (if i.room != "" then ["Room " + i.room] else []);
      var joined := Join(parts, " - ");
      if joined == "" then "Unknown location" else joined
  }

  /** The line is never blank, shows a stored location as it is, and
      otherwise shows hostel and room in the format the reporter dashboard
      stores as the location. */
  lemma LocationDisplayCases(i: Incident)
    ensures RenderLocationDisplay(i) != ""
    ensures i.location != "" ==> RenderLocationDisplay(i) == i.location
    ensures i.location == "" && i.hostel != "" && i.room != "" ==>
      RenderLocationDisplay(i) == i.hostel + " - Room " + i.room
    ensures i.location == "" && i.hostel != "" && i.room == "" ==> RenderLocationDisplay(i) == i.hostel
    ensures i.location == "" && i.hostel == "" && i.room != "" ==> RenderLocationDisplay(i) == "Room " + i.room
    ensures i.location == "" && i.hostel == "" && i.room == "" ==> RenderLocationDisplay(i) == "Unknown location"
  {
    if i.location == "" && i.hostel != "" && i.room != "" {
      var parts := [i.hostel, "Room " + i.room];
      assert parts[1..] == ["Room " + i.room];
      assert Join(parts, " - ") == i.hostel + " - " + ("Room " + i.room);
    }
    if i.location == "" && i.hostel != "" && i.room == "" {
      assert [i.hostel] + [] == [i.hostel];
    }
    if i.location == "" && i.hostel == "" && i.room != "" {
      assert [] + ["Room " + i.room] == ["Room " + i.room];
    }
  }

  // ---------------------------------------------------------------------
  // Workload figures

  /** `user?.email || "tech"`. */
  function TechnicianId(userEmail: string): string
  {
    if userEmail == "" then "tech" else userEmail
  }

  /** Assigned to `tech` and not resolved. */
  function ActiveFor(tech: string): Incident -> bool
  {
    (i: Incident) => i.assignedTo == tech && IsOpen(i)
  }

  function IsInProgress(i: Incident): bool
  {
    i.status == InProgress
  }

  function BreachedAt(now: int): Incident -> bool
  {
    (i: Incident) => IsSlaBreached(i.createdAt, now)
  }

  datatype Metrics = Metrics(assignedCount: nat, inProgressCount: nat, slaRiskCount: nat)

  /** `metrics`: the technician's active incidents, those of them in
      progress, and those of them past the SLA. */
  function WorkloadMetrics(incidents: seq<Incident>, tech: string, now: int): (m: Metrics)
    ensures m.assignedCount == Count(incidents, ActiveFor(tech))
    ensures m.inProgressCount <= m.assignedCount && m.slaRiskCount <= m.assignedCount
    ensures m.assignedCount <= |incidents|
  {
    var mine := Filter(incidents, ActiveFor(tech));
    Metrics(|mine|, Count(mine, IsInProgress), Count(mine, BreachedAt(now)))
  }

  /** The in-progress figure counts exactly the technician's incidents in
      progress, and the SLA figure exactly the technician's active breached
      ones. */
  lemma MetricsCountTheRightIncidents(incidents: seq<Incident>, tech: string, now: int)
    ensures WorkloadMetrics(incidents, tech, now).inProgressCount ==
      Count(incidents, (i: Incident) => i.assignedTo == tech && i.status == InProgress)
    ensures WorkloadMetrics(incidents, tech, now).slaRiskCount ==
      Count(incidents, (i: Incident) => i.assignedTo == tech && IsOpen(i) && IsSlaBreached(i.createdAt, now))
  {
    FilterOfFilter(incidents, ActiveFor(tech), IsInProgress,
      (i: Incident) => i.assignedTo == tech && i.status == InProgress);
    FilterOfFilter(incidents, ActiveFor(tech), BreachedAt(now),
      (i: Incident) => i.assignedTo == tech && IsOpen(i) && IsSlaBreached(i.createdAt, now));
  }

  // ---------------------------------------------------------------------
  // Work queue

  /** `priorityOrder[p] ?? 3`. */
  function Rank(priority: string): (r: nat)
    ensures r <= 3
    ensures r == 0 <==> priority == High
    ensures r == 1 <==> priority == Medium
    ensures r == 2 <==> priority == Low
  {
    if priority == High then 0 else if priority == Medium then 1 else if priority == Low then 2 else 3
  }

  /** The value the page's comparator gives `Array.prototype.sort`: negative
      when `a` goes first. The last step subtracts two `getTime()` values;
      for a missing timestamp that is `NaN`, which the sort reads as 0
      (section 23.1.3.30.2 of ECMA-262, SortCompare). */
  function QueueCompare(a: Incident, b: Incident, now: int): int
  {
    var aSla, bSla := IsSlaBreached(a.createdAt, now), IsSlaBreached(b.createdAt, now);
    if aSla && !bSla then -1
    else if !aSla && bSla then 1
    else if Rank(a.priority) != Rank(b.priority) then Rank(a.priority) - Rank(b.priority)
    else if a.createdAt.Some? && b.createdAt.Some? then b.createdAt.value - a.createdAt.value
    else 0
  }

  /** The queue order the model sorts by: breached first, then by rank,
      then newest first, and incidents without a timestamp last within
      their rank. It refines the comparator, which on its own is not a
      consistent order once timestamps are missing. */
  predicate InQueueOrder(a: Incident, b: Incident, now: int)
  {
    var aSla, bSla := IsSlaBreached(a.createdAt, now), IsSlaBreached(b.createdAt, now);
    if aSla != bSla then aSla
    else if Rank(a.priority) != Rank(b.priority) then Rank(a.priority) < Rank(b.priority)
    else if a.createdAt.Some? && b.createdAt.Some? then a.createdAt.value >= b.createdAt.value
    else b.createdAt.None?
  }

  function QueueBefore(now: int): (Incident, Incident) -> bool
  {
    (a: Incident, b: Incident) => InQueueOrder(a, b, now)
  }

  lemma QueueBeforeIsConsistent(now: int)
    ensures Sorting.TotalPreorder(QueueBefore(now))
  {
  }

  /** The order agrees with the page's comparator in both directions: it
      never puts `a` first where the comparator puts `b` first, and where
      the comparator puts `a` strictly first, so does the order. */
  lemma QueueBeforeMatchesComparator(a: Incident, b: Incident, now: int)
    ensures QueueBefore(now)(a, b) ==> QueueCompare(a, b, now) <= 0
    ensures QueueCompare(a, b, now) < 0 ==> QueueBefore(now)(a, b) && !QueueBefore(now)(b, a)
  {
  }

  /** `incidents.filter(open)`, then by priority unless the filter is "all". */
  function Kept(incidents: seq<Incident>, filterPriority: string): seq<Incident>
  {
    var open := Filter(incidents, IsOpen);
    if filterPriority == "all" then open else Filter(open, (i: Incident) => i.priority == filterPriority)
  }

  /** The queue keeps exactly the unresolved incidents of the chosen
      priority. */
  lemma KeptExactly(incidents: seq<Incident>, filterPriority: string, x: Incident)
    ensures x in Kept(incidents, filterPriority) <==>
      x in incidents && IsOpen(x) && (filterPriority == "all" || x.priority == filterPriority)
  {
    var open := Filter(incidents, IsOpen);
    FilterSound(incidents, IsOpen);
    var byPriority := (i: Incident) => i.priority == filterPriority;
    FilterSound(open, byPriority);
    if x in incidents && IsOpen(x) {
      FilterKeeps(incidents, IsOpen, x);
      if filterPriority != "all" && x.priority == filterPriority {
        FilterKeeps(open, byPriority, x);
      }
    }
  }

  /** `visibleIncidents`: the kept incidents sorted into queue order. */
  method VisibleIncidents(incidents: seq<Incident>, filterPriority: string, now: int)
    returns (queue: seq<Incident>)
    ensures multiset(queue) == multiset(Kept(incidents, filterPriority))
    ensures forall x :: x in queue <==>
      x in incidents && IsOpen(x) && (filterPriority == "all" || x.priority == filterPriority)
    ensures Sorting.SortedBy(queue, QueueBefore(now))
    ensures forall j, k :: 0 <= j < k < |queue| ==> QueueCompare(queue[j], queue[k], now) <= 0
    ensures forall j, k :: 0 <= j < k < |queue| && IsSlaBreached(queue[k].createdAt, now) ==>
      IsSlaBreached(queue[j].createdAt, now)
  {
    var list := Filter(incidents, IsOpen);
    if filterPriority != "all" {
      list := Filter(list, (i: Incident) => i.priority == filterPriority);
    }
    QueueBeforeIsConsistent(now);
    queue := Sorting.SortedCopy(list, QueueBefore(now));
    forall x ensures x in queue <==>
      x in incidents && IsOpen(x) && (filterPriority == "all" || x.priority == filterPriority)
    {
      KeptExactly(incidents, filterPriority, x);
      assert x in queue <==> x in multiset(list);
    }
    forall j, k | 0 <= j < k < |queue| ensures QueueCompare(queue[j], queue[k], now) <= 0 {
      QueueBeforeMatchesComparator(queue[j], queue[k], now);
    }
  }

  // ---------------------------------------------------------------------
  // Workflow

  datatype ActionResult =
    | Done
    | NotOffered     // the card shows no button for this action
    | HasAssignment  // "You already have an assigned incident. ..."
    | Failed         // the backend update failed

  /** `assignedName: user?.name || "Technician"`. */
  function TechnicianName(userName: string): string
  {
    if userName == "" then "Technician" else userName
  }

  /** The "Assign to me" button: an unassigned incident in the queue. */
  predicate CanAssign(i: Incident)
  {
    i.assignedTo == "" && IsOpen(i)
  }

  /** "Start work" and the first "Release": mine and "New". */
  predicate CanStart(i: Incident, tech: string)
  {
    i.assignedTo == tech && i.status == StatusNew
  }

  /** "Resolve" and the second "Release": mine and "In Progress". */
  predicate CanResolve(i: Incident, tech: string)
  {
    i.assignedTo == tech && i.status == InProgress
  }

  function AssignedTo(i: Incident, tech: string, name: string, now: int): Incident
  {
    i.(assignedTo := tech, assignedName := name, assignedAt := Some(now))
  }

  function Started(i: Incident, now: int): Incident
  {
    i.(status := InProgress, startedAt := Some(now))
  }

  function ResolvedNow(i: Incident, now: int): Incident
  {
    i.(status := Resolved, resolvedAt := Some(now))
  }

  function ReleasedNow(i: Incident): Incident
  {
    i.(assignedTo := "", assignedName := "", assignedAt := None, startedAt := None, status := StatusNew)
  }

  /** Release undoes an assignment: an unassigned "New" incident that is
      assigned (and possibly started) and then released is back where it
      began, apart from the time stamps it never had. */
  lemma ReleaseUndoesAssign(i: Incident, tech: string, name: string, now: int, later: int)
    requires CanAssign(i) && i.status == StatusNew && i.assignedName == "" && i.assignedAt.None? && i.startedAt.None?
    ensures ReleasedNow(AssignedTo(i, tech, name, now)) == i
    ensures ReleasedNow(Started(AssignedTo(i, tech, name, now), later)) == i
  {
  }

  /** The incidents, as the technician's page holds them after a reload,
      with the signed-in technician. Each action's `backendOk` says whether
      its `updateIncident` call succeeds; a successful action is modelled
      with the reload that follows it succeeding too, so that the list is
      the one the backend now holds. */
  class Workbench {
    var incidents: seq<Incident>
    const tech: string
    const techName: string

    constructor (incidents: seq<Incident>, userEmail: string, userName: string)
      ensures this.incidents == incidents
      ensures tech == TechnicianId(userEmail) && techName == TechnicianName(userName)
      ensures tech != ""
    {
      this.incidents := incidents;
      tech := TechnicianId(userEmail);
      techName := TechnicianName(userName);
    }

    /** `metrics.assignedCount`. */
    function ActiveCount(): nat
      reads this
    {
      Count(incidents, ActiveFor(tech))
    }

    /** `handleAssignToMe` on the card of incident `k`. */
    method AssignToMe(k: nat, now: int, backendOk: bool) returns (r: ActionResult)
      requires k < |incidents|
      modifies this
      ensures !CanAssign(old(incidents[k])) ==> r == NotOffered
      ensures CanAssign(old(incidents[k])) && old(ActiveCount()) >= 1 ==> r == HasAssignment
      ensures CanAssign(old(incidents[k])) && old(ActiveCount()) == 0 ==>
        r == if backendOk then Done else Failed
      ensures r == Done ==> incidents == old(incidents)[k := AssignedTo(old(incidents[k]), tech, techName, now)]
      ensures r != Done ==> incidents == old(incidents)
      ensures r == Done ==> ActiveCount() == 1
      ensures old(ActiveCount()) <= 1 ==> ActiveCount() <= 1
    {
      var i := incidents[k];
      if !CanAssign(i) {
        return NotOffered;
      }
      if ActiveFor(tech)(i) {
        FilterKeeps(incidents, ActiveFor(tech), i);
      }
      if ActiveCount() >= 1 {
        return HasAssignment;
      }
      if !backendOk {
        return Failed;
      }
      var updated := AssignedTo(i, tech, techName, now);
      CountUpdate(incidents, k, updated, ActiveFor(tech));
      incidents := incidents[k := updated];
      r := Done;
    }

    /** `handleStartWork` on the card of incident `k`. */
    method StartWork(k: nat, now: int, backendOk: bool) returns (r: ActionResult)
      requires k < |incidents|
      modifies this
      ensures r == (if !CanStart(old(incidents[k]), tech) then NotOffered else if backendOk then Done else Failed)
      ensures r == Done ==> incidents == old(incidents)[k := Started(old(incidents[k]), now)]
      ensures r != Done ==> incidents == old(incidents)
      ensures ActiveCount() == old(ActiveCount())
    {
      var i := incidents[k];
      if !CanStart(i, tech) {
        return NotOffered;
      }
      if !backendOk {
        return Failed;
      }
      var updated := Started(i, now);
      CountUpdate(incidents, k, updated, ActiveFor(tech));
      incidents := incidents[k := updated];
      r := Done;
    }

    /** `handleResolve` on the card of incident `k`: resolving frees the
      technician for the next assignment. */
    method Resolve(k: nat, now: int, backendOk: bool) returns (r: ActionResult)
      requires k < |incidents|
      modifies this
      ensures r == (if !CanResolve(old(incidents[k]), tech) then NotOffered else if backendOk then Done else Failed)
      ensures r == Done ==> incidents == old(incidents)[k := ResolvedNow(old(incidents[k]), now)]
      ensures r != Done ==> incidents == old(incidents)
      ensures r == Done ==> ActiveCount() == old(ActiveCount()) - 1
      ensures ActiveCount() <= old(ActiveCount())
    {
      var i := incidents[k];
      if !CanResolve(i, tech) {
        return NotOffered;
      }
      if !backendOk {
        return Failed;
      }
      var updated := ResolvedNow(i, now);
      CountUpdate(incidents, k, updated, ActiveFor(tech));
      incidents := incidents[k := updated];
      r := Done;
    }

    /** `handleRelease` on the card of incident `k`, offered while it is
      mine and "New" or "In Progress". */
    method Release(k: nat, backendOk: bool) returns (r: ActionResult)
      requires k < |incidents|
      modifies this
      ensures r == (if !(CanStart(old(incidents[k]), tech) || CanResolve(old(incidents[k]), tech)) then NotOffered
                    else if backendOk then Done else Failed)
      ensures r == Done ==> incidents == old(incidents)[k := ReleasedNow(old(incidents[k]))]
      ensures r != Done ==> incidents == old(incidents)
      ensures r == Done && tech != "" ==> ActiveCount() == old(ActiveCount()) - 1
      ensures tech != "" ==> ActiveCount() <= old(ActiveCount())
    {
      var i := incidents[k];
      if !(CanStart(i, tech) || CanResolve(i, tech)) {
        return NotOffered;
      }
      if !backendOk {
        return Failed;
      }
      var updated := ReleasedNow(i);
      CountUpdate(incidents, k, updated, ActiveFor(tech));
      incidents := incidents[k := updated];
      r := Done;
    }
  }
}
