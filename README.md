# Campus incident tracker — a Dafny model of its rules

The tracker is a single-page React application. Reporters file incidents
about hostels and rooms, technicians take them through a small workflow,
and admins see campus-wide figures and a risk ranking. All of its rules sit
inside the page components. This project restates those rules in Dafny and
proves what the pages promise about them:

- the reporter dashboard: the keyword priority classifier, the submission
  guards (required fields, at most five unresolved reports, no open
  duplicate), the notification fan-out, the repeat-pattern alerts, and the
  per hostel and category risk buckets with the hotspot list for the
  hostel being typed;
- the technician dashboard: the 30-minute SLA test, the age label, the
  location line, the workload figures, the sorted work queue, and the
  assign / start / resolve / release workflow on the incident list,
  limited to one active assignment per technician;
- the admin dashboard: the headline counts, the per-location heatmap and
  its scale, the (location, category) buckets with their last timestamp,
  the ranking by probability, the top three, and the red / amber / green
  bands;
- registration and sign-in: the form checks, email uniqueness ignoring
  case over an append-only account table, skills parsing, the first
  matching account, password stripping, and the landing page of each role;
- the notification feed (role and email targeting, newest first), the
  reporter's history filter and badge colours, and the route guard with
  the roles of each page.

Layout: `wrappers.dfy` (Option, Result), `seqs.dfy` (filter, count,
grouping by key in first-seen order, find-first), `text.dfy` (JavaScript
`toLowerCase` on ASCII, `trim`, `includes`, `split`, `join`), `sorting.dfy`
(`Array.prototype.sort` with a comparator, as an in-place insertion sort
on an array), `records.dfy` (the incident and notification records), and
one module per page: `reporter.dfy`, `technician.dfy`, `admin.dfy`,
`accounts.dfy` with `registration.dfy` and `login.dfy`,
`notifications.dfy`, `incident_list.dfy` and `routes.dfy`.

Conventions. A string field that JavaScript may leave `null`, `undefined`
or empty is `""`. A time is a whole number of milliseconds, and `None` when
it is absent. The current time is a parameter `now`. The rounded logistic
"probability" of a bucket is a parameter `probability: real -> Percent`
(an integer from 0 to 100) applied to the weighted raw score. Each write to
the backend (`createIncident`, `updateIncident`) is paired with a parameter
`backendOk` saying whether that call succeeded. The
stored lists (incidents, users, notifications) are plain sequences or
class fields.

## Model

| member | source | states |
|---|---|---|
| Reporter.AutoPriority | src/pages/DashboardReporter.jsx:32-48 | the result is one of High, Medium, Low; High exactly when the lowered "category description" text contains a danger word or the category lowers to "electricity"; Low exactly when it is not High and the text contains "slow", "minor" or "low" |
| Reporter.DangerWordInDescription | src/pages/DashboardReporter.jsx:33-42 | a danger word in the description makes the report High whatever the category and whatever minor words it also holds |
| Reporter.ElectricityIsHigh | src/pages/DashboardReporter.jsx:40-42 | the electricity category is High in any letter case |
| Reporter.ChoosePriority | src/pages/DashboardReporter.jsx:180-183 | the filed priority is one of the three levels unless the "Other" category carries a manual value outside them |
| Reporter.CheckSubmission | src/pages/DashboardReporter.jsx:142-202 | the guards in their order, each as an if-and-only-if: missing title, description, hostel or room; five or more unresolved reports by the same reporter; an open duplicate; on success the record has status "New", location "hostel - Room room", the chosen priority, the reporter email or "anonymous", the current time and no assignee |
| Reporter.RepeatSubmissionRefused | src/pages/DashboardReporter.jsx:160-178 | submitting the same form again once its incident is in the list is refused as a duplicate or for the limit |
| Reporter.AcceptedStaysWithinLimit | src/pages/DashboardReporter.jsx:149-158 | an accepted report never takes its reporter beyond five unresolved incidents |
| Reporter.ResolvedNeverBlocks | src/pages/DashboardReporter.jsx:149-171 | adding a resolved incident to the list never changes the verdict: it neither counts towards the limit nor blocks as a duplicate |
| Reporter.NotificationLog.Push | src/pages/DashboardReporter.jsx:25-29 | the new notification is put at the front and the rest keep their order |
| Reporter.Submit | src/pages/DashboardReporter.jsx:137-249 | a refused report or a failed backend call pushes nothing; an accepted one pushes the reporter notice, then the admin notice, then the technician notice only for High |
| Reporter.CountByFreqKey | src/pages/DashboardReporter.jsx:253-258 | the loop builds one count per (category, place) key, keys in first-seen order, each count the number of incidents with that key |
| Reporter.CountStep | src/pages/DashboardReporter.jsx:257 | one increment keeps every count equal to the size of its key group |
| Reporter.FrequencyAlerts | src/pages/DashboardReporter.jsx:252-266 | every alert is for a key reported at least three times and carries its true count; every such key has its alert; no alert is repeated |
| Reporter.AlertsForSound | src/pages/DashboardReporter.jsx:259-266 | the alert pass over distinct keys raises exactly one alert per key at the threshold, with that key's count |
| Reporter.RecentOwn | src/pages/DashboardReporter.jsx:268-270 | exactly the first min(4, n) of the reporter's own incidents in list order, where n is how many they have |
| Reporter.OldestTsIsMinimum | src/pages/DashboardReporter.jsx:307-313 | the corrected fold gives no timestamp exactly when no member has one, and otherwise a member's timestamp no later than any other |
| Reporter.OldestTsAsWrittenSkipsEpoch | src/pages/DashboardReporter.jsx:310 | for an epoch-stamped incident followed by a later one, the update as written (the fold Reporter.OldestTsAsWritten) keeps the later timestamp while the minimum is 0 |
| Reporter.OldestTsAsWrittenAgrees | src/pages/DashboardReporter.jsx:310 | the update as written equals the minimum whenever no timestamp is 0 |
| Reporter.OldestOpenStep | src/pages/DashboardReporter.jsx:307-313 | one loop step updates the oldest unresolved timestamp of the grown group |
| Reporter.CountersStep | src/pages/DashboardReporter.jsx:300-308 | one loop step adds one to the high, last-24-hours and unresolved counters exactly when the incident qualifies |
| Reporter.TallyStep | src/pages/DashboardReporter.jsx:287-314 | the in-place bucket update (created on first sight, then incremented) computes the bucket of the grown group |
| Reporter.BucketsStep | src/pages/DashboardReporter.jsx:281-315 | one pass keeps the bucket keys and every bucket's value in step with the incidents read so far |
| Reporter.BucketsLoopStep | src/pages/DashboardReporter.jsx:281-315 | the same, stated for the loop's prefix of the incident list |
| Reporter.HostelCategoryBuckets | src/pages/DashboardReporter.jsx:279-315 | the loop yields one bucket per (lowered trimmed hostel, category) key, keys in first-seen order, each bucket the tally of exactly the incidents with its key |
| Reporter.Tally | src/pages/DashboardReporter.jsx:287-314 | a bucket's total is the size of its group, and its high, last-24-hour and unresolved counts each lie within that total |
| Reporter.BucketsDescribeKeys | src/pages/DashboardReporter.jsx:281-297 | every bucket is non-empty, its hostel lowers to its key's hostel and its category is its key's; the bucket totals add up to the number of incidents |
| Reporter.AgingScore | src/pages/DashboardReporter.jsx:320-329 | the aging score lies in [0, 1], is 0 without unresolved reports or age, and is 1 from 48 hours on |
| Reporter.MoreReportsMoreRisk | src/pages/DashboardReporter.jsx:300-336 | one more report raises a bucket's raw score by at least 0.35 |
| Reporter.MoreReportsNeverLowerProbability | src/pages/DashboardReporter.jsx:331-339 | under an increasing score-to-percent map one more report never lowers the probability |
| Reporter.RiskPairOfKey | src/pages/DashboardReporter.jsx:317-350 | each risk entry of Reporter.RiskPairs is the entry of the bucket keyed by its own lowered hostel and category |
| Reporter.MoreProbableIsConsistent | src/pages/DashboardReporter.jsx:352 | the probability comparator is a consistent (total, transitive) order |
| Reporter.TopForHostel | src/pages/DashboardReporter.jsx:359-362 | the first three entries of the typed hostel are sorted, belong to that hostel, repeat no entry beyond its multiplicity in the unsorted list, and leave out only entries no more probable than all three |
| Reporter.AdvancedPrediction | src/pages/DashboardReporter.jsx:273-369 | nothing without incidents or a typed hostel; otherwise at most three entries of the typed hostel, a sub-multiset of the risk entries (so no bucket twice), highest probability first, nothing more probable left out; the current pair is the first of them with the typed category, and it is the entry of that hostel and category's bucket |
| Technician.SlaBreachedExactly | src/pages/DashboardTechnician.jsx:22-28 | Technician.IsSlaBreached holds exactly when a timestamp exists and more than 30 minutes of milliseconds have passed, so exactly 30 minutes is not breached |
| Technician.AgeMinutesIsNearest | src/pages/DashboardTechnician.jsx:14 | the minute count is the nearest whole minute (half-way rounds up) and 0 for a time in the future |
| Technician.FormatAge | src/pages/DashboardTechnician.jsx:10-19 | "-" exactly without a timestamp; the minute label only under 60 minutes; the label carries the clamped rounded minute age |
| Technician.MinuteLabelAndSla | src/pages/DashboardTechnician.jsx:10-28 | a minute label under 30 is never breached and one over 30 always is |
| Technician.LocationDisplayCases | src/pages/DashboardTechnician.jsx:160-166 | Technician.RenderLocationDisplay is never blank; a stored location as it is; otherwise "hostel - Room room", the hostel alone, "Room room" alone, or "Unknown location" |
| Technician.WorkloadMetrics | src/pages/DashboardTechnician.jsx:55-66 | the assigned figure counts the technician's unresolved incidents; the in-progress and SLA figures never exceed it |
| Technician.MetricsCountTheRightIncidents | src/pages/DashboardTechnician.jsx:56-60 | the in-progress figure counts exactly the technician's in-progress incidents, and the SLA figure exactly their unresolved breached ones |
| Technician.Rank | src/pages/DashboardTechnician.jsx:74-81 | High 0, Medium 1, Low 2 (each if and only if) and 3 for anything else |
| Technician.QueueBeforeIsConsistent | src/pages/DashboardTechnician.jsx:75-84 | the queue order is total and transitive, so the sort is well defined |
| Technician.QueueBeforeMatchesComparator | src/pages/DashboardTechnician.jsx:75-84 | the queue order never puts an incident first where the page's comparator Technician.QueueCompare puts the other first, and follows every strict preference of that comparator |
| Technician.KeptExactly | src/pages/DashboardTechnician.jsx:69-72 | the queue keeps exactly the unresolved incidents, of the chosen priority unless the filter is "all" |
| Technician.VisibleIncidents | src/pages/DashboardTechnician.jsx:68-85 | the queue is a permutation of the kept incidents, sorted by the queue order, never against the comparator, with every breached incident before every non-breached one |
| Technician.ReleaseUndoesAssign | src/pages/DashboardTechnician.jsx:89-158 | releasing a freshly assigned (and possibly started) incident restores it |
| Technician.Workbench.AssignToMe | src/pages/DashboardTechnician.jsx:89-110 | offered only for an unassigned incident; refused with nothing changed when the technician already has an active incident; on success only that incident changes, and the technician then has exactly one active incident |
| Technician.Workbench.StartWork | src/pages/DashboardTechnician.jsx:112-125 | offered only on the technician's own "New" incident; on success it becomes "In Progress" with a start time and nothing else changes |
| Technician.Workbench.Resolve | src/pages/DashboardTechnician.jsx:127-140 | offered only on the technician's own "In Progress" incident; on success it becomes "Resolved" and the active count drops by one |
| Technician.Workbench.Release | src/pages/DashboardTechnician.jsx:142-158 | offered on the technician's own "New" or "In Progress" incident; on success it is back to "New" with assignee, name, assignment and start times cleared, and the active count drops by one |
| Admin.StatCounts | src/pages/DashboardAdmin.jsx:26-37 | open plus resolved is the total, the high count is within the total, and the SLA count is within the open count |
| Admin.SlaCountAgreesWithTechnician | src/pages/DashboardAdmin.jsx:33-37 | the admin SLA count is the number of unresolved incidents the technician dashboard's SLA test flags, with a stored `null` time read as absent (the admin page itself reads it as the epoch, see "## Left out") |
| Admin.HeatOfGroup | src/pages/DashboardAdmin.jsx:49-53 | a location's high count never exceeds its total |
| Admin.HeatStep | src/pages/DashboardAdmin.jsx:48-53 | one pass keeps the locations and every heatmap cell in step with the incidents read so far |
| Admin.HeatTotalIsGroupSizes | src/pages/DashboardAdmin.jsx:79-83 | the heatmap totals add up to the sizes of the location groups |
| Admin.HeatmapPartitions | src/pages/DashboardAdmin.jsx:45-83 | Admin.Heatmap has one entry per distinct location (default "Unknown"), every incident's location has an entry, each entry is non-empty with high within total, and the totals add up to the number of incidents |
| Admin.MaxTotal | src/pages/DashboardAdmin.jsx:85-88 | the scale is at least every total, 0 for an empty heatmap, and otherwise attained by an entry |
| Admin.LastTsIsMaximum | src/pages/DashboardAdmin.jsx:64-72 | the Math.max fold Admin.LastTs is a number exactly when every member has a timestamp, and then it is the largest of 0 and the timestamps |
| Admin.RiskOfGroup | src/pages/DashboardAdmin.jsx:57-77 | a bucket's high and last-24-hours counts never exceed its total |
| Admin.RiskGroupStep | src/pages/DashboardAdmin.jsx:57-77 | the in-place bucket update computes the bucket of the grown group |
| Admin.RiskStep | src/pages/DashboardAdmin.jsx:55-77 | one pass keeps the bucket keys and every bucket in step with the incidents read so far |
| Admin.AggregateStep | src/pages/DashboardAdmin.jsx:44-77 | one pass of the loop, both dictionaries, stated for the loop's prefix of the incident list |
| Admin.Aggregate | src/pages/DashboardAdmin.jsx:40-77 | the loop yields the locations and the (location, category) keys in first-seen order, each cell and bucket computed from exactly its group |
| Admin.RiskBucketsPartition | src/pages/DashboardAdmin.jsx:55-69 | every bucket is non-empty and the bucket totals add up to the number of incidents |
| Admin.RecencyBoostBounds | src/pages/DashboardAdmin.jsx:92-100 | the recency boost lies in [0, 1] for a last incident not in the future |
| Admin.MoreProbableIsConsistent | src/pages/DashboardAdmin.jsx:123 | the probability comparator is a consistent order |
| Admin.ComputeStats | src/pages/DashboardAdmin.jsx:25-135 | the counts, the heatmap and its scale as specified; the risk list is a permutation of the bucket entries in non-increasing probability |
| Admin.TopRisks | src/pages/DashboardAdmin.jsx:137 | the first min(3, length) entries of the ranked list |
| Admin.TopRisksAreTheMostProbable | src/pages/DashboardAdmin.jsx:123-137 | nothing left out of the top three is more probable than anything in it |
| Admin.BandOf | src/pages/DashboardAdmin.jsx:319-323 | red exactly from 75, amber exactly from 50 below 75, green exactly below 50; the three cases are disjoint and cover everything |
| Admin.BandsFollowRanking | src/pages/DashboardAdmin.jsx:344-349 | down the ranked list the band never becomes more severe |
| Admin.EmptyDashboard | src/pages/DashboardAdmin.jsx:25-137 | no incidents give all counts 0, an empty heatmap with scale 0, and empty risk lists |
| Accounts.StripDropsOnlyPassword | src/pages/Register.jsx:77-79 | stripping drops the password and nothing else: the account is recovered from the session record and its password |
| Accounts.DashboardFor | src/pages/Register.jsx:81-83 | reporter and admin go to their dashboards, every other role to the technician dashboard, each as an if-and-only-if |
| Registration.TrimAll | src/pages/Register.jsx:69 | every piece is trimmed, in place |
| Registration.TrimmedPiece | src/pages/Register.jsx:68-69 | a trimmed comma-free piece is comma-free and trimming it again changes nothing |
| Registration.ParsedSkillsAreClean | src/pages/Register.jsx:65-71 | every skill Registration.ParseSkills returns is non-empty, has no surrounding white space and no comma |
| Registration.TrimAllClean | src/pages/Register.jsx:69 | trimming leaves clean skills alone |
| Registration.ParseSkillsOfJoin | src/pages/Register.jsx:65-71 | clean skills written with commas between them are read back unchanged |
| Registration.CheckRegistration | src/pages/Register.jsx:41-57 | the checks in their order, each as an if-and-only-if: missing name, email or password; a reporter without location; an email already present ignoring case |
| Registration.UserDataOf | src/pages/Register.jsx:59-72 | the record keeps the form's name, email, password and role; the location only for reporters; for technicians the skills are the parsed skills of the form (so non-empty and trimmed), for every other role none |
| Registration.AcceptedKeepsEmailsUnique | src/pages/Register.jsx:50-75 | an accepted registration keeps the table's emails distinct ignoring case |
| Registration.UserTable.Register | src/pages/Register.jsx:37-84 | a refused registration leaves the table as it was; an accepted one appends exactly the new record, keeps emails unique, and returns the record without its password and the role's landing page |
| Login.SignIn | src/pages/Login.jsx:30-58 | missing email or password is refused, no match is refused, and otherwise the session is a matching account without its password with its role's landing page |
| Login.FirstMatchWins | src/pages/Login.jsx:40-45 | when several accounts match, the first in the table is chosen |
| Login.SignInLandsOnChosenRole | src/pages/Login.jsx:44-57 | the signed-in account has the role picked on the form and lands on that role's page |
| Login.RegisterThenSignIn | src/pages/Login.jsx:40-57 | after an accepted registration the same email, password and role sign in, landing where registration sent the user |
| Feed.NewerIsConsistent | src/pages/Notifications.jsx:27-30 | the newest-first comparator is a consistent order |
| Feed.FeedFor | src/pages/Notifications.jsx:21-31 | the feed is a permutation of the kept notifications, holds exactly the stored ones meant for the user, and runs newest first |
| Feed.Targeting | src/pages/Notifications.jsx:22-26 | a notification with neither target reaches everyone; one with both reaches exactly the user with that role and email |
| Feed.ReportNoticesReachTheirAudience | src/pages/Notifications.jsx:22-26 | of a new report's notices, the reporter notice reaches only the reporter who filed it, the admin notice exactly the admins, the technician notice exactly the technicians |
| Feed.BackLink | src/pages/Notifications.jsx:34-39 | admin and technician go to their dashboards, everyone else to the reporter dashboard, each as an if-and-only-if |
| Feed.BackLinkAgreesWithSignIn | src/pages/Notifications.jsx:34-39 | for the three roles the back link is the sign-in landing page; for any other role the two differ |
| History.OwnerKey | src/pages/IncidentList.jsx:42 | the owner key is never empty |
| History.MyIncidentsExactly | src/pages/IncidentList.jsx:40-44 | the history of a given stored list holds exactly the user's incidents (or "anonymous"'s) and keeps their stored order |
| History.BadgeStyle | src/pages/IncidentList.jsx:16-33 | priority badges: red exactly for High, amber exactly for Medium, green otherwise; status badges: green exactly for Resolved, blue exactly for "In Progress" or "Assigned", grey otherwise |
| History.NewReportBadges | src/pages/IncidentList.jsx:16-33 | a record built by the reporter dashboard's submit handler would get a red priority badge exactly when its priority is High, and a grey status badge |
| Routes.ProtectedRoute | src/App.jsx:12-24 | renders exactly when a user is signed in and the role list is absent or holds the user's role; no user always goes to /login |
| Routes.RouteTableRoles | src/App.jsx:136-184 | the reporter pages admit only reporters, the admin page only admins, the technician page only technicians, the feed all three roles, and with no user every protected page redirects |
| Routes.LandingPageAdmits | src/App.jsx:136-184 | the landing page chosen by role admits a user of each of the three roles and turns back any other role |

## Left out

- Network calls (`createIncident`, `updateIncident`, `fetchIncidents`) are not modelled; their success is the parameter `backendOk`, and a reload is modelled as the list the next call receives.
- Local storage and JSON parsing are not modelled; the stored lists are sequences or class fields.
- `Date.now()` is the parameter `now`, and times are whole milliseconds. Date strings that do not parse (which JavaScript turns into `NaN`) are not modelled; a stored `null` time, which `new Date(null)` reads as the epoch, is treated as absent.
- Admin.SlaCountAgreesWithTechnician: the agreement holds under that reading of `null`. On a stored `null` time the two pages differ: the admin page computes `new Date(null)`, the epoch, and counts the unresolved incident as breached, while the technician page's `!createdAt` test does not.
- Floating point is not modelled. The raw scores are exact reals with the page's weights. `sigmoid`, `Math.exp` and `Math.round(… * 100)` are the parameter `probability`.
- Reporter.AgingScore: the hour and day ages are exact reals, not doubles.
- Technician.FormatAge: the hour and day labels (`toFixed(1)`) are kept only as the minute count behind them, because their decimal rendering is floating point.
- `widthPct` on the heatmap is floating-point layout and is left out.
- Text.Lower lowers ASCII letters only. JavaScript's `toLowerCase` also covers the rest of Unicode.
- Dictionary keys are modelled as pairs. The page builds them as strings joined by `__`, so two different pairs could collide; that is not modelled.
- `Object.entries` and `Object.values` are modelled in first-insertion order. JavaScript moves integer-like keys to the front, which is not modelled.
- Technician.VisibleIncidents: the sort uses a consistent refinement of the page's comparator, which puts incidents without a timestamp last within their rank. The page's comparator subtracts `NaN` there, which the sort reads as "equal"; the order it then produces depends on the engine. The model proves it never contradicts the comparator.
- Sort stability is not modelled. The sorts are specified by their order and by being permutations.
- GPS capture (`navigator.geolocation`) and the latitude and longitude fields are not modelled.
- Rendering, styles, the landing page and the build configuration are not modelled.
- The authentication context is not modelled. It only wraps React state and local storage; the session record is the value returned by registration and sign-in.
- Reporter.Submit and Technician.Workbench: `backendOk` stands for the write call only. The reloads catch their own errors, so after a successful write a failed reload leaves the page's list stale; that case is not modelled. In it the technician page still shows an active count of 0 after an assignment, so a second "Assign to me" gets through the one-assignment guard, and the reporter page still pushes its notices.
- The history page and the admin dashboard read their incidents from the browser store `incidents_v1`, which no page of the application writes: new reports go to the backend, and the technician dashboard reads the backend. The model takes the list those two pages load as a parameter and does not relate it to the reports the reporter dashboard submits.
- Concurrent assignment by two technicians and the order of asynchronous reloads are not modelled.
- Incidents are addressed by their index in the list rather than by a backend id.

## Findings

| source | as written | input that shows it | evidently intended | confidence | as-written member | corrected member |
|---|---|---|---|---|---|---|
| src/pages/DashboardReporter.jsx:310 | the test `!bucket.oldestOpenTs` also holds for a stored oldest timestamp of 0, because 0 is falsy, so that timestamp is replaced | two unresolved incidents of one bucket, stamped at 0 (the epoch) and then 1000 ms: the bucket's oldest open time becomes 1000 | the earliest timestamp, 0 | not executed | Reporter.OldestTsAsWritten, Reporter.OldestTsAsWrittenSkipsEpoch | Reporter.OldestTs, Reporter.OldestTsIsMinimum |
