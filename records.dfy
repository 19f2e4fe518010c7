/** The records the pages exchange: incidents (fetched from the backend or
    read from local storage) and feed notifications. A string field that
    JavaScript may leave `null`, `undefined` or empty is `""` here; every time
    field is a millisecond timestamp, `None` when it is absent. */
module Records {
  import opened Wrappers

  const High := "High"
  const Medium := "Medium"
  const Low := "Low"

  const StatusNew := "New"
  const InProgress := "In Progress"
  const Resolved := "Resolved"

  /** A rounded probability in percent. */
  type Percent = p: int | 0 <= p <= 100

  const MinuteMs := 60 * 1000
  const DayMs := 24 * 60 * 60 * 1000

  datatype Incident = Incident(
    title: string,
    category: string,
    description: string,
    hostel: string,
    room: string,
    location: string,
    imageUrl: string,
    priority: string,
    status: string,
    reporterEmail: string,
    createdAt: Option<int>,
    assignedTo: string,
    assignedName: string,
    assignedAt: Option<int>,
    startedAt: Option<int>,
    resolvedAt: Option<int>)

  /** An incident with every field absent. */
  const Blank := Incident("", "", "", "", "", "", "", "", "", "", None, "", "", None, None, None)

  /** `i.status !== "Resolved"`. */
  predicate IsOpen(i: Incident)
  {
    i.status != Resolved
  }

  /** `i.status === "Resolved"`. */
  predicate IsResolved(i: Incident)
  {
    i.status == Resolved
  }

  /** `i.priority === "High"`. */
  predicate IsHigh(i: Incident)
  {
    i.priority == High
  }

  /** A feed entry, as `pushNotification` stores it: a notification with an
      empty `targetRole` (or `targetEmail`) is meant for every role (email). */
  datatype Notification = Notification(
    id: int,
    targetRole: string,
    targetEmail: string,
    title: string,
    message: string,
    createdAt: int)
}
