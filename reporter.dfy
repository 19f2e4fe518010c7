/** The reporter dashboard (src/pages/DashboardReporter.jsx): the keyword
    priority classifier, the guards a new report must pass, the notifications
    a report fans out, the repeat-pattern alerts and the per hostel and
    category risk buckets with the hotspot list for the hostel being typed. */
module Reporter {
  import opened Wrappers
  import opened Seqs
  import opened Text
  import opened Records
  import Sorting

  // ---------------------------------------------------------------------
  // Priority

  const HighWords: seq<string> := ["fire", "shock", "leak", "burst", "short circuit"]
  const LowWords: seq<string> := ["slow", "minor", "low"]

  /** Some word of `words` occurs in `text`. */
  predicate MentionsAny(text: string, words: seq<string>)
  {
    exists w :: w in words && Contains(text, w)
  }

  /** The text the classifier searches: category and description, lowered. */
  function PriorityText(category: string, description: string): string
  {
    Lower(category + " " + description)
  }

  /** `autoPriority`: "High" for a danger word or the electricity category,
      otherwise "Low" for a minor-issue word, otherwise "Medium". */
  function AutoPriority(category: string, description: string): (r: string)
    ensures r == High || r == Medium || r == Low
    ensures r == High <==>
      MentionsAny(PriorityText(category, description), HighWords) || Lower(category) == "electricity"
    ensures r == Low <==>
      !MentionsAny(PriorityText(category, description), HighWords) && Lower(category) != "electricity"
      && MentionsAny(PriorityText(category, description), LowWords)
  {
    var text := Lower(category + " " + description);
    if || Contains(text, "fire") || Contains(text, "shock") || Contains(text, "leak")
       || Contains(text, "burst") || Contains(text, "short circuit")
       || Lower(category) == "electricity"
    then High
    else if Contains(text, "slow") || Contains(text, "minor") || Contains(text, "low") then Low
    else Medium
  }

  /** A danger word anywhere in the description makes the report "High",
      whatever the category and whatever minor-issue words it also holds. */
  lemma DangerWordInDescription(category: string, description: string, w: string)
    requires w in HighWords && Contains(Lower(description), w)
    ensures AutoPriority(category, description) == High
  {
    LowerAppend(category + " ", description);
    ContainsAppend(Lower(category + " "), Lower(description), w);
  }

  /** The electricity category is "High" in any spelling of its case. */
  lemma ElectricityIsHigh(category: string, description: string)
    requires Lower(category) == "electricity"
    ensures AutoPriority(category, description) == High
  {
  }

  /** The priority a report is filed with: the form's manual choice (or
      "Medium") for the "Other" category, the classifier for every other. */
  function ChoosePriority(category: string, description: string, manualPriority: string): (r: string)
    ensures category != "Other" || manualPriority in {"", High, Medium, Low} ==> r in {High, Medium, Low}
  {
    if category == "Other" then (if manualPriority == "" then Medium else manualPriority)
    else AutoPriority(category, description)
  }

  // ---------------------------------------------------------------------
  // Submission guards

  datatype IntakeForm = IntakeForm(
    title: string,
    category: string,
    description: string,
    hostel: string,
    room: string,
    imageUrl: string,
    manualPriority: string)

  datatype SubmitError = MissingFields | TooManyOpen | DuplicateOpen | BackendFailed

  /** The anti-spam limit on a reporter's unresolved incidents. */
  const MaxOpenPerReporter := 5

  /** `user?.email || "anonymous"`. */
  function ReporterEmail(userEmail: string): string
  {
    if userEmail == "" then "anonymous" else userEmail
  }

  predicate MissingRequired(f: IntakeForm)
  {
    f.title == "" || f.description == "" || f.hostel == "" || f.room == ""
  }

  /** "Reported by `email` and not yet resolved". */
  function OwnOpen(email: string): Incident -> bool
  {
    (i: Incident) => i.reporterEmail == email && IsOpen(i)
  }

  /** The duplicate test: an unresolved incident with the same category
      (ignoring case) in the same hostel and room (ignoring case and
      surrounding white space). */
  predicate SameProblem(i: Incident, f: IntakeForm)
  {
    && Lower(i.category) == Lower(f.category)
    && Lower(Trim(i.hostel)) == Lower(Trim(f.hostel))
    && Lower(Trim(i.room)) == Lower(Trim(f.room))
    && IsOpen(i)
  }

  predicate HasDuplicate(incidents: seq<Incident>, f: IntakeForm)
  {
    exists i :: i in incidents && SameProblem(i, f)
  }

  /** The guards of `handleSubmit`, in their order, and the record it sends
      to the backend when they pass. */
  function CheckSubmission(incidents: seq<Incident>, f: IntakeForm, userEmail: string, now: int)
    : (r: Result<Incident, SubmitError>)
    ensures r == Failure(MissingFields) <==> MissingRequired(f)
    ensures r == Failure(TooManyOpen) <==>
      !MissingRequired(f) && Count(incidents, OwnOpen(ReporterEmail(userEmail))) >= MaxOpenPerReporter
    ensures r == Failure(DuplicateOpen) <==>
      && !MissingRequired(f)
      && Count(incidents, OwnOpen(ReporterEmail(userEmail))) < MaxOpenPerReporter
      && HasDuplicate(incidents, f)
    ensures r.Failure? ==> r.error != BackendFailed
    ensures r.Success? ==>
      && r.value.status == StatusNew
      && r.value.location == f.hostel + " - Room " + f.room
      && r.value.priority == ChoosePriority(f.category, f.description, f.manualPriority)
      && r.value.reporterEmail == ReporterEmail(userEmail)
      && r.value.createdAt == Some(now)
      && r.value.title == f.title && r.value.category == f.category
      && r.value.description == f.description && r.value.hostel == f.hostel
      && r.value.room == f.room && r.value.imageUrl == f.imageUrl
      && r.value.assignedTo == ""
  {
    var email := ReporterEmail(userEmail);
    if MissingRequired(f) then Failure(MissingFields)
    else if Count(incidents, OwnOpen(email)) >= MaxOpenPerReporter then Failure(TooManyOpen)
    else if HasDuplicate(incidents, f) then Failure(DuplicateOpen)
    else
      Success(Blank.(
        title := f.title, category := f.category, description := f.description,
        hostel := f.hostel, room := f.room, location := f.hostel + " - Room " + f.room,
        imageUrl := f.imageUrl, priority := ChoosePriority(f.category, f.description, f.manualPriority),
        status := StatusNew, reporterEmail := email, createdAt := Some(now)))
  }

  /** Sending the same form again, once its incident is in the list, is
      refused: the new incident is itself an open duplicate. */
  lemma RepeatSubmissionRefused(incidents: seq<Incident>, f: IntakeForm, userEmail: string, now: int, later: int)
    requires CheckSubmission(incidents, f, userEmail, now).Success?
    ensures var again := CheckSubmission(incidents + [CheckSubmission(incidents, f, userEmail, now).value], f, userEmail, later);
            again == Failure(DuplicateOpen) || again == Failure(TooManyOpen)
  {
    var created := CheckSubmission(incidents, f, userEmail, now).value;
    assert created in incidents + [created];
    assert SameProblem(created, f);
  }

  /** An accepted report never takes its reporter past the limit of 5
      unresolved incidents. */
  lemma AcceptedStaysWithinLimit(incidents: seq<Incident>, f: IntakeForm, userEmail: string, now: int)
    requires CheckSubmission(incidents, f, userEmail, now).Success?
    ensures Count(incidents + [CheckSubmission(incidents, f, userEmail, now).value],
                  OwnOpen(ReporterEmail(userEmail))) <= MaxOpenPerReporter
  {
    FilterSnoc(incidents, CheckSubmission(incidents, f, userEmail, now).value, OwnOpen(ReporterEmail(userEmail)));
  }

  /** A resolved incident neither counts towards the limit nor blocks a
      report as a duplicate: adding one never changes the verdict. */
  lemma ResolvedNeverBlocks(incidents: seq<Incident>, done: Incident, f: IntakeForm, userEmail: string, now: int)
    requires IsResolved(done)
    ensures CheckSubmission(incidents + [done], f, userEmail, now) == CheckSubmission(incidents, f, userEmail, now)
  {
    FilterSnoc(incidents, done, OwnOpen(ReporterEmail(userEmail)));
    assert HasDuplicate(incidents + [done], f) == HasDuplicate(incidents, f);
  }

  // ---------------------------------------------------------------------
  // Notification fan-out

  function ReporterNotice(i: Incident, now: int): Notification
  {
    Notification(now + 1, "reporter", i.reporterEmail, "Incident recorded",
      "Your " + i.priority + " priority " + i.category + " issue in " + i.location + " has been logged.", now)
  }

  function AdminNotice(i: Incident, now: int): Notification
  {
    Notification(now + 2, "admin", "", "New campus incident",
      i.priority + " priority " + i.category + " issue reported in " + i.location + ".", now)
  }

  function TechnicianNotice(i: Incident, now: int): Notification
  {
    Notification(now + 3, "technician", "", "High priority incident",
      "High priority " + i.category + " issue in " + i.location + " requires quick attention.", now)
  }

  /** The locally stored feed; `pushNotification` puts the newest entry at
      the front. */
  class NotificationLog {
    var items: seq<Notification>

    constructor (items: seq<Notification>)
      ensures this.items == items
    {
      this.items := items;
    }

    /** `all.unshift(n)`. */
    method Push(n: Notification)
      modifies this
      ensures items == [n] + old(items)
    {
      items := [n] + items;
    }
  }

  /** `handleSubmit`: run the guards; on success hand the incident to the
      backend (`backendOk` says whether `createIncident` succeeds; the
      reload that follows is not part of this model) and then push the reporter's and the admins' notices, and the
      technicians' notice for a "High" incident. A refused or failed report
      pushes nothing. */
  method Submit(log: NotificationLog, incidents: seq<Incident>, f: IntakeForm, userEmail: string,
                now: int, backendOk: bool) returns (r: Result<Incident, SubmitError>)
    modifies log
    ensures CheckSubmission(incidents, f, userEmail, now).Failure? ==>
      r == CheckSubmission(incidents, f, userEmail, now)
    ensures CheckSubmission(incidents, f, userEmail, now).Success? ==>
      r == if backendOk then CheckSubmission(incidents, f, userEmail, now) else Failure(BackendFailed)
    ensures r.Failure? ==> log.items == old(log.items)
    ensures r.Success? ==>
      log.items == (if r.value.priority == High then [TechnicianNotice(r.value, now)] else [])
                   + [AdminNotice(r.value, now), ReporterNotice(r.value, now)] + old(log.items)
  {
    r := CheckSubmission(incidents, f, userEmail, now);
    if r.Failure? {
      return;
    }
    if !backendOk {
      r := Failure(BackendFailed);
      return;
    }
    var created := r.value;
    log.Push(ReporterNotice(created, now));
    log.Push(AdminNotice(created, now));
    if created.priority == High {
      log.Push(TechnicianNotice(created, now));
    }
  }

  // ---------------------------------------------------------------------
  // Repeat-pattern alerts (`freqMap`)

  datatype FreqKey = FreqKey(category: string, place: string)

  /** `i.hostel || i.location || "Unknown"`. */
  function PlaceOf(i: Incident): string
  {
    if i.hostel != "" then i.hostel else if i.location != "" then i.location else "Unknown"
  }

  function FreqKeyOf(i: Incident): FreqKey
  {
    FreqKey(i.category, PlaceOf(i))
  }

  /** "High chance of more <category> issues in <place> (reported <count> times)." */
  datatype FrequencyAlert = FrequencyAlert(category: string, place: string, count: nat)

  /** The number of times a (category, place) pair is reported needed for an alert. */
  const AlertThreshold := 3

  /** The `freqMap` loop: the number of incidents per (category, place),
      with the keys in first-seen order. */
  method CountByFreqKey(incidents: seq<Incident>) returns (keys: seq<FreqKey>, counts: map<FreqKey, nat>)
    ensures keys == KeysInOrder(incidents, FreqKeyOf)
    ensures forall k :: k in counts <==> k in keys
    ensures forall k :: k in counts ==> counts[k] == Count(incidents, KeyIs(FreqKeyOf, k))
  {
    keys, counts := [], map[];
    var n := 0;
    while n < |incidents|
      invariant 0 <= n <= |incidents|
      invariant keys == KeysInOrder(incidents[..n], FreqKeyOf)
      invariant forall k :: k in counts <==> k in keys
      invariant forall k :: k in counts ==> counts[k] == Count(incidents[..n], KeyIs(FreqKeyOf, k))
    {
      var x := incidents[n];
      var k := FreqKeyOf(x);
      PrefixSnoc(incidents, n);
      KeysInOrderSnoc(incidents[..n], x, FreqKeyOf);
      CountStep(incidents[..n], x, counts);
      if k !in counts {
        keys := keys + [k];
      }
      counts := counts[k := (if k in counts then counts[k] else 0) + 1];
      n := n + 1;
    }
    assert incidents[..n] == incidents;
  }

  /** One pass of the `freqMap` loop keeps every count equal to the size of
      its group. */
  lemma CountStep(s: seq<Incident>, x: Incident, counts: map<FreqKey, nat>)
    requires forall k :: k in counts <==> k in KeysInOrder(s, FreqKeyOf)
    requires forall k :: k in counts ==> counts[k] == Count(s, KeyIs(FreqKeyOf, k))
    ensures var k := FreqKeyOf(x);
            var next := counts[k := (if k in counts then counts[k] else 0) + 1];
            forall k' :: k' in next ==> next[k'] == Count(s + [x], KeyIs(FreqKeyOf, k'))
  {
    var k := FreqKeyOf(x);
    if k !in counts {
      AbsentKeyGroup(s, FreqKeyOf, k);
    }
    var next := counts[k := (if k in counts then counts[k] else 0) + 1];
    forall k' | k' in next ensures next[k'] == Count(s + [x], KeyIs(FreqKeyOf, k')) {
      FilterSnoc(s, x, KeyIs(FreqKeyOf, k'));
    }
  }

  /** Count the incidents per (category, place) and raise one alert, in
      first-seen order, for every pair reported at least three times. */
  method FrequencyAlerts(incidents: seq<Incident>) returns (alerts: seq<FrequencyAlert>)
    ensures forall a :: a in alerts ==>
      && a.count >= AlertThreshold
      && a.count == Count(incidents, KeyIs(FreqKeyOf, FreqKey(a.category, a.place)))
    ensures forall k ::
      (k in KeysInOrder(incidents, FreqKeyOf) && Count(incidents, KeyIs(FreqKeyOf, k)) >= AlertThreshold) ==>
      FrequencyAlert(k.category, k.place, Count(incidents, KeyIs(FreqKeyOf, k))) in alerts
    ensures Distinct(alerts)
  {
    var keys, counts := CountByFreqKey(incidents);
    alerts := [];
    var j := 0;
    while j < |keys|
      invariant 0 <= j <= |keys|
      invariant alerts == AlertsFor(keys[..j], counts)
    {
      var k := keys[j];
      assert keys[..j + 1] == keys[..j] + [k];
      if counts[k] >= AlertThreshold {
        alerts := alerts + [FrequencyAlert(k.category, k.place, counts[k])];
      }
      j := j + 1;
    }
    assert keys[..j] == keys;
    KeysInOrderSound(incidents, FreqKeyOf);
    AlertsForSound(keys, counts);
  }

  /** The alerts the `Object.entries(freqMap)` loop raises for `keys`, in
      their order. */
  function AlertsFor(keys: seq<FreqKey>, counts: map<FreqKey, nat>): seq<FrequencyAlert>
    requires forall k :: k in keys ==> k in counts
  {
    if keys == [] then []
    else
      var k := keys[|keys| - 1];
      AlertsFor(keys[..|keys| - 1], counts)
      + (if counts[k] >= AlertThreshold then [FrequencyAlert(k.category, k.place, counts[k])] else [])
  }

  /** Every alert is for one of the keys and carries its count, which is at
      least the threshold; every key at the threshold has its alert; and no
      alert is raised twice when the keys are distinct. */
  lemma {:induction false} AlertsForSound(keys: seq<FreqKey>, counts: map<FreqKey, nat>)
    requires forall k :: k in keys ==> k in counts
    requires Distinct(keys)
    ensures forall a :: a in AlertsFor(keys, counts) ==>
      && FreqKey(a.category, a.place) in keys
      && a.count >= AlertThreshold && a.count == counts[FreqKey(a.category, a.place)]
    ensures forall k :: k in keys && counts[k] >= AlertThreshold ==>
      FrequencyAlert(k.category, k.place, counts[k]) in AlertsFor(keys, counts)
    ensures Distinct(AlertsFor(keys, counts))
  {
    if keys != [] {
      var init, k := keys[..|keys| - 1], keys[|keys| - 1];
      assert keys == init + [k];
      assert Distinct(init);
      AlertsForSound(init, counts);
      assert k !in init;
    }
  }

  /** `incidents.filter(own).slice(0, 4)`: the reporter's first four
      incidents in list order. */
  function RecentOwn(incidents: seq<Incident>, userEmail: string): (r: seq<Incident>)
    ensures |r| <= 4
    ensures forall i :: i in r ==> i in incidents && i.reporterEmail == ReporterEmail(userEmail)
    ensures |r| == if Count(incidents, OwnReport(ReporterEmail(userEmail))) < 4
                   then Count(incidents, OwnReport(ReporterEmail(userEmail))) else 4
    ensures r == Filter(incidents, OwnReport(ReporterEmail(userEmail)))[..|r|]
  {
    var own := Filter(incidents, OwnReport(ReporterEmail(userEmail)));
    var r := Take(own, 4);
    FilterSound(incidents, OwnReport(ReporterEmail(userEmail)));
    assert forall i :: i in r ==> i in own;
    r
  }

  function OwnReport(email: string): Incident -> bool
  {
    (i: Incident) => i.reporterEmail == email
  }

  // ---------------------------------------------------------------------
  // Per hostel and category buckets (`byHostelCat`)

  /** `(i.hostel || i.location || "Unknown").trim()`. */
  function HostelOf(i: Incident): string
  {
    Trim(PlaceOf(i))
  }

  /** `i.category || "Other"`. */
  function CategoryOf(i: Incident): string
  {
    if i.category == "" then "Other" else i.category
  }

  /** The bucket key: the hostel in lower case, and the category. */
  datatype BucketKey = BucketKey(hostel: string, category: string)

  function BucketKeyOf(i: Incident): BucketKey
  {
    BucketKey(Lower(HostelOf(i)), CategoryOf(i))
  }

  datatype HostelBucket = HostelBucket(
    hostel: string,
    category: string,
    total: nat,
    high: nat,
    recent24h: nat,
    openCount: nat,
    oldestOpenTs: Option<int>)

  /** Created at most 24 hours before `now`. */
  function RecentAt(now: int): Incident -> bool
  {
    (i: Incident) => i.createdAt.Some? && now - i.createdAt.value <= DayMs
  }

  /** The earliest timestamp in `s`, `None` when no element has one. */
  function OldestTs(s: seq<Incident>): Option<int>
  {
    if s == [] then None
    else
      var m := OldestTs(s[..|s| - 1]);
      var x := s[|s| - 1];
      if x.createdAt.None? then m
      else if m.None? || x.createdAt.value < m.value then x.createdAt
      else m
  }

  /** The update of `oldestOpenTs` as the page writes it: `!bucket.oldestOpenTs`
      also holds for a stored timestamp of 0, which is then overwritten. */
  function OldestTsAsWritten(s: seq<Incident>): Option<int>
  {
    if s == [] then None
    else
      var m := OldestTsAsWritten(s[..|s| - 1]);
      var x := s[|s| - 1];
      if x.createdAt.None? then m
      else if m.None? || m.value == 0 || x.createdAt.value < m.value then x.createdAt
      else m
  }

  /** `OldestTs` is the minimum: `None` exactly when no element has a
      timestamp, and otherwise a timestamp of some element that is no later
      than any other. */
  lemma {:induction false} OldestTsIsMinimum(s: seq<Incident>)
    ensures OldestTs(s).None? <==> forall i :: i in s ==> i.createdAt.None?
    ensures OldestTs(s).Some? ==>
      && (exists i :: i in s && i.createdAt == OldestTs(s))
      && forall i :: i in s && i.createdAt.Some? ==> OldestTs(s).value <= i.createdAt.value
  {
    if s != [] {
      var init, x := s[..|s| - 1], s[|s| - 1];
      assert s == init + [x];
      OldestTsIsMinimum(init);
      if OldestTs(s).Some? && OldestTs(s) == OldestTs(init) {
        var w :| w in init && w.createdAt == OldestTs(init);
        assert w in s;
      }
    }
  }

  /** An incident stamped at the epoch (timestamp 0) followed by a later
      one: the page records the later one as the oldest. */
  lemma OldestTsAsWrittenSkipsEpoch()
    ensures var s := [Blank.(createdAt := Some(0)), Blank.(createdAt := Some(1000))];
            OldestTsAsWritten(s) == Some(1000) && OldestTs(s) == Some(0)
  {
    var a, b := Blank.(createdAt := Some(0)), Blank.(createdAt := Some(1000));
    assert [a, b][..1] == [a];
    assert [a][..0] == [];
    assert OldestTs([a]) == Some(0);
    assert OldestTsAsWritten([a]) == Some(0);
  }

  /** The two updates agree unless some timestamp is exactly 0. */
  lemma {:induction false} OldestTsAsWrittenAgrees(s: seq<Incident>)
    requires forall i :: i in s ==> i.createdAt != Some(0)
    ensures OldestTsAsWritten(s) == OldestTs(s)
  {
    if s != [] {
      var init := s[..|s| - 1];
      assert s == init + [s[|s| - 1]];
      OldestTsAsWrittenAgrees(init);
      OldestTsIsMinimum(init);
      if OldestTs(init).Some? {
        var w :| w in init && w.createdAt == OldestTs(init);
      }
    }
  }

  /** The bucket the page builds from the incidents `g` of one key, in list
      order: hostel and category of the first, the counts, and the
      earliest timestamp among the unresolved ones. */
  function Tally(g: seq<Incident>, now: int): (b: HostelBucket)
    ensures b.total == |g|
    ensures b.high <= b.total && b.recent24h <= b.total && b.openCount <= b.total
  {
    HostelBucket(
      if g == [] then "" else HostelOf(g[0]),
      if g == [] then "" else CategoryOf(g[0]),
      |g|, Count(g, IsHigh), Count(g, RecentAt(now)), Count(g, IsOpen), OldestTs(Filter(g, IsOpen)))
  }

  /** The bucket of key `k` once every incident has been added. */
  function BucketOf(incidents: seq<Incident>, k: BucketKey, now: int): HostelBucket
  {
    Tally(Filter(incidents, KeyIs(BucketKeyOf, k)), now)
  }

  /** A bucket as the loop creates it for the first incident of a key. */
  function FreshBucket(x: Incident): HostelBucket
  {
    HostelBucket(HostelOf(x), CategoryOf(x), 0, 0, 0, 0, None)
  }

  /** The body of the `byHostelCat` loop on the bucket of `x`'s key, with
      the corrected `oldestOpenTs` update: a missing earliest timestamp is
      `None`, so a stored 0 is kept (`OldestTsAsWritten` is the update as
      written, which lets a later timestamp replace a 0). */
  function AddToBucket(b: HostelBucket, x: Incident, now: int): HostelBucket
  {
    var ts := x.createdAt;
    b.(total := b.total + 1,
       high := if IsHigh(x) then b.high + 1 else b.high,
       recent24h := if ts.Some? && now - ts.value <= DayMs then b.recent24h + 1 else b.recent24h,
       openCount := if IsOpen(x) then b.openCount + 1 else b.openCount,
       oldestOpenTs :=
         if IsOpen(x) && ts.Some? && (b.oldestOpenTs.None? || ts.value < b.oldestOpenTs.value) then ts
         else b.oldestOpenTs)
  }

  /** The earliest unresolved timestamp of a grown group, as the loop
      updates it. */
  lemma OldestOpenStep(g: seq<Incident>, x: Incident)
    ensures var m := OldestTs(Filter(g, IsOpen));
      OldestTs(Filter(g + [x], IsOpen)) ==
        if IsOpen(x) && x.createdAt.Some? && (m.None? || x.createdAt.value < m.value) then x.createdAt else m
  {
    FilterSnoc(g, x, IsOpen);
    var o := Filter(g, IsOpen);
    if IsOpen(x) {
      assert (o + [x])[..|o|] == o;
    }
  }

  /** The three counters of a grown group, as the loop updates them. */
  lemma CountersStep(g: seq<Incident>, x: Incident, now: int)
    ensures Count(g + [x], IsHigh) == Count(g, IsHigh) + (if IsHigh(x) then 1 else 0)
    ensures Count(g + [x], RecentAt(now)) == Count(g, RecentAt(now)) + (if RecentAt(now)(x) then 1 else 0)
    ensures Count(g + [x], IsOpen) == Count(g, IsOpen) + (if IsOpen(x) then 1 else 0)
  {
    FilterSnoc(g, x, IsHigh);
    FilterSnoc(g, x, RecentAt(now));
    FilterSnoc(g, x, IsOpen);
  }

  /** The incremental update computes the bucket of the grown group. */
  lemma TallyStep(g: seq<Incident>, x: Incident, now: int)
    ensures Tally(g + [x], now) == AddToBucket(if g == [] then FreshBucket(x) else Tally(g, now), x, now)
  {
    CountersStep(g, x, now);
    OldestOpenStep(g, x);
    if g == [] {
      assert Filter(g, IsOpen) == [];
    } else {
      assert (g + [x])[0] == g[0];
    }
  }

  /** One pass of the `byHostelCat` loop keeps every bucket equal to the
      bucket of its group. */
  lemma BucketsStep(s: seq<Incident>, x: Incident, now: int, buckets: map<BucketKey, HostelBucket>)
    requires forall k :: k in buckets <==> k in KeysInOrder(s, BucketKeyOf)
    requires forall k :: k in buckets ==> buckets[k] == BucketOf(s, k, now)
    ensures var k := BucketKeyOf(x);
            var next := buckets[k := AddToBucket(if k in buckets then buckets[k] else FreshBucket(x), x, now)];
            && (forall k' :: k' in next <==> k' in KeysInOrder(s + [x], BucketKeyOf))
            && (forall k' :: k' in next ==> next[k'] == BucketOf(s + [x], k', now))
  {
    var k := BucketKeyOf(x);
    var g := Filter(s, KeyIs(BucketKeyOf, k));
    KeysInOrderSnoc(s, x, BucketKeyOf);
    if k !in buckets {
      AbsentKeyGroup(s, BucketKeyOf, k);
    } else {
      PresentKeyGroup(s, BucketKeyOf, k);
    }
    FilterSnoc(s, x, KeyIs(BucketKeyOf, k));
    TallyStep(g, x, now);
    var next := buckets[k := AddToBucket(if k in buckets then buckets[k] else FreshBucket(x), x, now)];
    forall k' | k' in next ensures next[k'] == BucketOf(s + [x], k', now) {
      FilterSnoc(s, x, KeyIs(BucketKeyOf, k'));
    }
  }

  /** One pass of the `byHostelCat` loop, stated on the prefix of the
      input the loop has read. */
  lemma BucketsLoopStep(incidents: seq<Incident>, n: nat, now: int,
                        keys: seq<BucketKey>, buckets: map<BucketKey, HostelBucket>)
    requires n < |incidents|
    requires keys == KeysInOrder(incidents[..n], BucketKeyOf)
    requires forall k :: k in buckets <==> k in keys
    requires forall k :: k in buckets ==> buckets[k] == BucketOf(incidents[..n], k, now)
    ensures var x := incidents[n];
            var k := BucketKeyOf(x);
            var keys' := if k in buckets then keys else keys + [k];
            var next := buckets[k := AddToBucket(if k in buckets then buckets[k] else FreshBucket(x), x, now)];
            && keys' == KeysInOrder(incidents[..n + 1], BucketKeyOf)
            && (forall k' :: k' in next <==> k' in keys')
            && (forall k' :: k' in next ==> next[k'] == BucketOf(incidents[..n + 1], k', now))
  {
    PrefixSnoc(incidents, n);
    KeysInOrderSnoc(incidents[..n], incidents[n], BucketKeyOf);
    BucketsStep(incidents[..n], incidents[n], now, buckets);
  }

  /** The `byHostelCat` loop: one bucket per key, with the keys in
      first-seen order (the order of `Object.values`). */
  method HostelCategoryBuckets(incidents: seq<Incident>, now: int)
    returns (keys: seq<BucketKey>, buckets: map<BucketKey, HostelBucket>)
    ensures keys == KeysInOrder(incidents, BucketKeyOf)
    ensures forall k :: k in buckets <==> k in keys
    ensures forall k :: k in buckets ==> buckets[k] == BucketOf(incidents, k, now)
  {
    keys, buckets := [], map[];
    var n := 0;
    while n < |incidents|
      invariant 0 <= n <= |incidents|
      invariant keys == KeysInOrder(incidents[..n], BucketKeyOf)
      invariant forall k :: k in buckets <==> k in keys
      invariant forall k :: k in buckets ==> buckets[k] == BucketOf(incidents[..n], k, now)
    {
      BucketsLoopStep(incidents, n, now, keys, buckets);
      var x := incidents[n];
      var k := BucketKeyOf(x);
      var b := if k in buckets then buckets[k] else FreshBucket(x);
      if k !in buckets {
        keys := keys + [k];
      }
      buckets := buckets[k := AddToBucket(b, x, now)];
      n := n + 1;
    }
    assert incidents[..n] == incidents;
  }


  /** A bucket describes its key: its hostel lowers to the key's hostel and
      its category is the key's category; and the bucket totals over all
      keys add up to the number of incidents. */
  lemma BucketsDescribeKeys(incidents: seq<Incident>, now: int)
    ensures forall k :: k in KeysInOrder(incidents, BucketKeyOf) ==>
      && BucketOf(incidents, k, now).total >= 1
      && Lower(BucketOf(incidents, k, now).hostel) == k.hostel
      && BucketOf(incidents, k, now).category == k.category
    ensures GroupSizes(incidents, BucketKeyOf, KeysInOrder(incidents, BucketKeyOf)) == |incidents|
  {
    KeysInOrderSound(incidents, BucketKeyOf);
    GroupSizesPartition(incidents, BucketKeyOf, KeysInOrder(incidents, BucketKeyOf));
    forall k | k in KeysInOrder(incidents, BucketKeyOf)
      ensures && BucketOf(incidents, k, now).total >= 1
              && Lower(BucketOf(incidents, k, now).hostel) == k.hostel
              && BucketOf(incidents, k, now).category == k.category
    {
      var g := Filter(incidents, KeyIs(BucketKeyOf, k));
      PresentKeyGroup(incidents, BucketKeyOf, k);
      FilterSound(incidents, KeyIs(BucketKeyOf, k));
      assert g[0] in g;
    }
  }

  // ---------------------------------------------------------------------
  // Risk scores and the hotspots of the hostel being typed

  /** A bucket with its rounded probability, as `riskPairs` holds it. */
  datatype RiskPair = RiskPair(
    hostel: string,
    category: string,
    total: nat,
    high: nat,
    recent24h: nat,
    openCount: nat,
    probability: Percent)

  const HourMs := 60 * 60 * 1000

  /** `oldestAgeHours`: hours since the oldest unresolved report, 0 when
      the bucket has none. */
  function OldestAgeHours(b: HostelBucket, now: int): real
  {
    if b.oldestOpenTs.Some? then (now - b.oldestOpenTs.value) as real / HourMs as real else 0.0
  }

  /** `agingScore`: the age of the oldest unresolved report, capped at 48
      hours, as a fraction of 48 hours. */
  function AgingScore(b: HostelBucket, now: int): (r: real)
    ensures 0.0 <= r <= 1.0
    ensures b.openCount == 0 || OldestAgeHours(b, now) <= 0.0 ==> r == 0.0
    ensures b.openCount > 0 && OldestAgeHours(b, now) >= 48.0 ==> r == 1.0
  {
    var age := OldestAgeHours(b, now);
    if b.openCount > 0 && age > 0.0 then (if age < 48.0 then age else 48.0) / 48.0 else 0.0
  }

  /** `rawScore`, the weighted sum fed to the logistic function. */
  function RawScore(b: HostelBucket, now: int): real
  {
    0.35 * b.total as real + 0.8 * b.high as real + 1.1 * b.recent24h as real
    + 0.9 * b.openCount as real + 1.1 * AgingScore(b, now)
  }

  /** The entry of `riskPairs` for a bucket; `probability` stands for
      `x => Math.round(sigmoid(x / 3.5) * 100)`. */
  function RiskOf(b: HostelBucket, now: int, probability: real -> Percent): RiskPair
  {
    RiskPair(b.hostel, b.category, b.total, b.high, b.recent24h, b.openCount, probability(RawScore(b, now)))
  }

  /** One more report in a bucket raises its raw score by at least the
      weight of a report: none of the terms can fall. */
  lemma MoreReportsMoreRisk(b: HostelBucket, x: Incident, now: int)
    ensures RawScore(AddToBucket(b, x, now), now) >= RawScore(b, now) + 0.35
  {
    var b' := AddToBucket(b, x, now);
    assert AgingScore(b', now) >= AgingScore(b, now) by {
      if b.openCount > 0 && OldestAgeHours(b, now) > 0.0 {
        assert OldestAgeHours(b', now) >= OldestAgeHours(b, now);
      }
    }
  }

  /** Under an increasing score-to-percent map, an extra report never lowers
      a bucket's probability. */
  lemma MoreReportsNeverLowerProbability(b: HostelBucket, x: Incident, now: int, probability: real -> Percent)
    requires forall u, v :: u <= v ==> probability(u) <= probability(v)
    ensures RiskOf(AddToBucket(b, x, now), now, probability).probability >= RiskOf(b, now, probability).probability
  {
    MoreReportsMoreRisk(b, x, now);
  }

  /** `riskPairs` before sorting: one entry per bucket, in key order. */
  function RiskPairs(incidents: seq<Incident>, now: int, probability: real -> Percent): seq<RiskPair>
  {
    var ks := KeysInOrder(incidents, BucketKeyOf);
    seq(|ks|, i requires 0 <= i < |ks| => RiskOf(BucketOf(incidents, ks[i], now), now, probability))
  }

  /** Each entry is the entry of the bucket named by its own lowered hostel
      and category: two entries never share both. */
  lemma RiskPairOfKey(incidents: seq<Incident>, now: int, probability: real -> Percent, r: RiskPair)
    requires r in RiskPairs(incidents, now, probability)
    ensures r == RiskOf(BucketOf(incidents, BucketKey(Lower(r.hostel), r.category), now), now, probability)
  {
    var ks := KeysInOrder(incidents, BucketKeyOf);
    var i :| 0 <= i < |ks| && RiskPairs(incidents, now, probability)[i] == r;
    BucketsDescribeKeys(incidents, now);
    assert ks[i] in ks;
    assert BucketKey(Lower(r.hostel), r.category) == ks[i];
  }

  /** `(a, b) => b.probability - a.probability`: higher probability first. */
  function MoreProbable(): (RiskPair, RiskPair) -> bool
  {
    (a: RiskPair, b: RiskPair) => a.probability >= b.probability
  }

  lemma MoreProbableIsConsistent()
    ensures Sorting.TotalPreorder(MoreProbable())
  {
  }

  /** `r.hostel.toLowerCase() === base`. */
  function HostelIs(base: string): RiskPair -> bool
  {
    (r: RiskPair) => Lower(r.hostel) == base
  }

  /** `r.category === category`. */
  function CategoryIs(category: string): RiskPair -> bool
  {
    (r: RiskPair) => r.category == category
  }

  /** The first three entries of the sorted list that belong to hostel
      `base` are sorted, belong to `base`, and leave out only entries of
      `base` that are no more probable than all three. */
  lemma TopForHostel(pairs: seq<RiskPair>, sorted: seq<RiskPair>, base: string)
    requires Sorting.SortedBy(sorted, MoreProbable()) && multiset(sorted) == multiset(pairs)
    ensures var top := Take(Filter(sorted, HostelIs(base)), 3);
      && Sorting.SortedBy(top, MoreProbable())
      && (forall r :: r in top ==> r in pairs && Lower(r.hostel) == base)
      && multiset(top) <= multiset(pairs)
      && forall r :: r in pairs && Lower(r.hostel) == base && r !in top ==>
           |top| == 3 && forall t :: t in top ==> t.probability >= r.probability
  {
    var kept := Filter(sorted, HostelIs(base));
    var top := Take(kept, 3);
    FilterSound(sorted, HostelIs(base));
    assert multiset(top) <= multiset(kept) by {
      assert kept == top + kept[|top|..];
    }
    Sorting.FilterSorted(sorted, MoreProbable(), HostelIs(base));
    forall r | r in pairs && Lower(r.hostel) == base && r !in top
      ensures |top| == 3 && forall t :: t in top ==> t.probability >= r.probability
    {
      assert r in multiset(sorted);
      Sorting.TopOfFiltered(sorted, MoreProbable(), HostelIs(base), 3, r);
    }
    forall r | r in top ensures r in pairs && Lower(r.hostel) == base {
      assert r in Filter(sorted, HostelIs(base));
      assert r in multiset(sorted);
    }
  }

  datatype Prediction = Prediction(currentPair: Option<RiskPair>, topForHostel: seq<RiskPair>)

  /** `advancedPrediction`: nothing without incidents or without a hostel
      in the form; otherwise the (at most) three most probable buckets of the
      typed hostel, highest first, and among them the one of the typed
      category. */
  method AdvancedPrediction(incidents: seq<Incident>, form: IntakeForm, now: int, probability: real -> Percent)
    returns (p: Prediction)
    ensures incidents == [] || Lower(Trim(form.hostel)) == "" ==> p == Prediction(None, [])
    ensures var base := Lower(Trim(form.hostel));
      var pairs := RiskPairs(incidents, now, probability);
      var top := p.topForHostel;
      && |top| <= 3
      && Sorting.SortedBy(top, MoreProbable())
      && (forall r :: r in top ==> r in pairs && Lower(r.hostel) == base)
      && multiset(top) <= multiset(pairs)
      && (incidents != [] && base != "" ==>
            forall r :: r in pairs && Lower(r.hostel) == base && r !in top ==>
              |top| == 3 && forall t :: t in top ==> t.probability >= r.probability)
    ensures p.currentPair == FindFirst(p.topForHostel, CategoryIs(form.category))
    ensures p.currentPair.Some? ==>
      p.currentPair.value ==
        RiskOf(BucketOf(incidents, BucketKey(Lower(Trim(form.hostel)), form.category), now), now, probability)
  {
    if |incidents| == 0 {
      return Prediction(None, []);
    }
    var keys, buckets := HostelCategoryBuckets(incidents, now);
    var pairs := seq(|keys|, i requires 0 <= i < |keys| => RiskOf(buckets[keys[i]], now, probability));
    assert pairs == RiskPairs(incidents, now, probability);
    MoreProbableIsConsistent();
    var sorted := Sorting.SortedCopy(pairs, MoreProbable());
    var base := Lower(Trim(form.hostel));
    if base == "" {
      return Prediction(None, []);
    }
    var top := Take(Filter(sorted, HostelIs(base)), 3);
    p := Prediction(FindFirst(top, CategoryIs(form.category)), top);
    TopForHostel(pairs, sorted, base);
    if p.currentPair.Some? {
      RiskPairOfKey(incidents, now, probability, p.currentPair.value);
    }
  }
}
