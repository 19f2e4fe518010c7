/** The admin dashboard (src/pages/DashboardAdmin.jsx): the headline
    counts, the per-location heatmap and its scale, the (location, category)
    risk buckets, their ranking and the colour bands of the risk panel. The
    incidents are the list the page loads from the browser store
    `incidents_v1`, given as a parameter. */
module Admin {
  import opened Wrappers
  import opened Seqs
  import opened Records
  import Sorting
  import Technician

  // ---------------------------------------------------------------------
  // Headline counts

  /** `now - new Date(i.createdAt).getTime() > thirtyMin` on an unresolved
      incident; with no timestamp the difference is `NaN` and the test fails. */
  function LateAt(now: int): Incident -> bool
  {
    (i: Incident) => IsOpen(i) && i.createdAt.Some? && now - i.createdAt.value > 30 * MinuteMs
  }

  datatype Counts = Counts(total: nat, open: nat, resolved: nat, highPriority: nat, slaBreached: nat)

  /** The counts of `stats`. */
  function StatCounts(incidents: seq<Incident>, now: int): (c: Counts)
    ensures c.total == |incidents|
    ensures c.open + c.resolved == c.total
    ensures c.highPriority <= c.total
    ensures c.slaBreached <= c.open
  {
    CountSplit(incidents, IsOpen, IsResolved);
    CountMono(incidents, LateAt(now), IsOpen);
    Counts(|incidents|, Count(incidents, IsOpen), Count(incidents, IsResolved),
           Count(incidents, IsHigh), Count(incidents, LateAt(now)))
  }

  /** The admin SLA figure counts the same incidents as the technician
      dashboard's `isSlaBreached`, restricted to unresolved ones. This rests
      on a stored `null` time being absent (`None`): the admin page reads
      `new Date(null)` as the epoch and would count such an incident as
      breached, while the technician page's `!createdAt` test does not. */
  lemma SlaCountAgreesWithTechnician(incidents: seq<Incident>, now: int)
    ensures StatCounts(incidents, now).slaBreached ==
      Count(incidents, (i: Incident) => IsOpen(i) && Technician.IsSlaBreached(i.createdAt, now))
  {
    forall i: Incident
      ensures LateAt(now)(i) == (IsOpen(i) && Technician.IsSlaBreached(i.createdAt, now))
    {
      Technician.SlaBreachedExactly(i.createdAt, now);
    }
    FilterCongruent(incidents, LateAt(now), (i: Incident) => IsOpen(i) && Technician.IsSlaBreached(i.createdAt, now));
  }

  // ---------------------------------------------------------------------
  // Heatmap (`byLocation`)

  /** `i.location || "Unknown"`. */
  function LocationOf(i: Incident): string
  {
    if i.location == "" then "Unknown" else i.location
  }

  /** `i.category || "Other"`. */
  function CategoryOf(i: Incident): string
  {
    if i.category == "" then "Other" else i.category
  }

  datatype HeatCell = HeatCell(total: nat, high: nat)

  /** The cell of a location's incidents `g`. */
  function HeatOfGroup(g: seq<Incident>): (c: HeatCell)
    ensures c.high <= c.total
  {
    HeatCell(|g|, Count(g, IsHigh))
  }

  /** The cell of location `loc` once every incident has been added. */
  function HeatOf(incidents: seq<Incident>, loc: string): HeatCell
  {
    HeatOfGroup(Filter(incidents, KeyIs(LocationOf, loc)))
  }

  /** The heatmap part of the loop body. */
  function AddToHeat(c: HeatCell, x: Incident): HeatCell
  {
    c.(total := c.total + 1, high := if IsHigh(x) then c.high + 1 else c.high)
  }

  /** One pass of the loop keeps every cell equal to the cell of its group. */
  lemma HeatStep(s: seq<Incident>, x: Incident, heat: map<string, HeatCell>)
    requires forall l :: l in heat <==> l in KeysInOrder(s, LocationOf)
    requires forall l :: l in heat ==> heat[l] == HeatOf(s, l)
    ensures var l := LocationOf(x);
            var next := heat[l := AddToHeat(if l in heat then heat[l] else HeatCell(0, 0), x)];
            && (forall l' :: l' in next <==> l' in KeysInOrder(s + [x], LocationOf))
            && (forall l' :: l' in next ==> next[l'] == HeatOf(s + [x], l'))
  {
    var l := LocationOf(x);
    KeysInOrderSnoc(s, x, LocationOf);
    if l !in heat {
      AbsentKeyGroup(s, LocationOf, l);
    }
    var g := Filter(s, KeyIs(LocationOf, l));
    FilterSnoc(s, x, KeyIs(LocationOf, l));
    FilterSnoc(g, x, IsHigh);
    var next := heat[l := AddToHeat(if l in heat then heat[l] else HeatCell(0, 0), x)];
    forall l' | l' in next ensures next[l'] == HeatOf(s + [x], l') {
      FilterSnoc(s, x, KeyIs(LocationOf, l'));
    }
  }

  /** An entry of `heatmap`. */
  datatype HeatEntry = HeatEntry(location: string, total: nat, high: nat)

  /** `heatmap`: one entry per location, in first-seen order. */
  function Heatmap(incidents: seq<Incident>): seq<HeatEntry>
  {
    var locs := KeysInOrder(incidents, LocationOf);
    seq(|locs|, k requires 0 <= k < |locs| =>
      HeatEntry(locs[k], HeatOf(incidents, locs[k]).total, HeatOf(incidents, locs[k]).high))
  }

  /** The sum of the heatmap totals. */
  function HeatTotal(h: seq<HeatEntry>): nat
  {
    if h == [] then 0 else h[0].total + HeatTotal(h[1..])
  }

  lemma {:induction false} HeatTotalIsGroupSizes(incidents: seq<Incident>, locs: seq<string>)
    ensures HeatTotal(seq(|locs|, k requires 0 <= k < |locs| =>
      HeatEntry(locs[k], HeatOf(incidents, locs[k]).total, HeatOf(incidents, locs[k]).high)))
      == GroupSizes(incidents, LocationOf, locs)
  {
    var h := seq(|locs|, k requires 0 <= k < |locs| =>
      HeatEntry(locs[k], HeatOf(incidents, locs[k]).total, HeatOf(incidents, locs[k]).high));
    if locs != [] {
      var rest := locs[1..];
      HeatTotalIsGroupSizes(incidents, rest);
      assert h[1..] == seq(|rest|, k requires 0 <= k < |rest| =>
        HeatEntry(rest[k], HeatOf(incidents, rest[k]).total, HeatOf(incidents, rest[k]).high));
    }
  }

  /** Every location has exactly one entry, whose high count is within its
      total, and the totals add up to the number of incidents. */
  lemma HeatmapPartitions(incidents: seq<Incident>)
    ensures forall k, m :: 0 <= k < m < |Heatmap(incidents)| ==>
      Heatmap(incidents)[k].location != Heatmap(incidents)[m].location
    ensures forall i :: i in incidents ==>
      exists e :: e in Heatmap(incidents) && e.location == LocationOf(i)
    ensures forall e :: e in Heatmap(incidents) ==> 1 <= e.total && e.high <= e.total
    ensures HeatTotal(Heatmap(incidents)) == |incidents|
  {
    var locs := KeysInOrder(incidents, LocationOf);
    KeysInOrderSound(incidents, LocationOf);
    GroupSizesPartition(incidents, LocationOf, locs);
    HeatTotalIsGroupSizes(incidents, locs);
    var h := Heatmap(incidents);
    forall i | i in incidents ensures exists e :: e in h && e.location == LocationOf(i) {
      var k :| 0 <= k < |locs| && locs[k] == LocationOf(i);
      assert h[k] in h;
    }
    forall e | e in h ensures 1 <= e.total && e.high <= e.total {
      var k :| 0 <= k < |h| && h[k] == e;
      assert locs[k] in locs;
      PresentKeyGroup(incidents, LocationOf, locs[k]);
    }
  }

  /** `maxTotal`: `heatmap.reduce((max, item) => item.total > max ? item.total : max, 0)`. */
  function MaxTotal(h: seq<HeatEntry>): (m: nat)
    ensures forall e :: e in h ==> e.total <= m
    ensures h == [] ==> m == 0
    ensures h != [] ==> exists e :: e in h && e.total == m
  {
    if h == [] then 0
    else
      var init, last := h[..|h| - 1], h[|h| - 1];
      var m := MaxTotal(init);
      assert forall e :: e in h ==> e in init || e == last;
      if last.total > m then last.total else m
  }

  // ---------------------------------------------------------------------
  // Risk buckets (`byLocCat`)

  datatype LocCat = LocCat(location: string, category: string)

  function LocCatOf(i: Incident): LocCat
  {
    LocCat(LocationOf(i), CategoryOf(i))
  }

  /** A `byLocCat` bucket. `lastIncidentTs` is `None` where the page holds
      `NaN`: `Math.max` with a missing timestamp gives `NaN`, and every later
      `Math.max` keeps it. */
  datatype RiskBucket = RiskBucket(
    location: string,
    category: string,
    total: nat,
    high: nat,
    recent24h: nat,
    lastIncidentTs: Option<int>)

  /** `now - ts <= 24h`, inclusive; false for a missing timestamp. */
  function RecentAt(now: int): Incident -> bool
  {
    (i: Incident) => i.createdAt.Some? && now - i.createdAt.value <= DayMs
  }

  /** The `Math.max` fold over the timestamps of `g`, from the initial 0. */
  function LastTs(g: seq<Incident>): Option<int>
  {
    if g == [] then Some(0)
    else
      var m := LastTs(g[..|g| - 1]);
      var ts := g[|g| - 1].createdAt;
      if m.None? || ts.None? then None
      else Some(if ts.value > m.value then ts.value else m.value)
  }

  /** The fold is a number exactly when every member has a timestamp, and
      then it is the largest of 0 and the members' timestamps. */
  lemma {:induction false} LastTsIsMaximum(g: seq<Incident>)
    ensures LastTs(g).Some? <==> forall i :: i in g ==> i.createdAt.Some?
    ensures LastTs(g).Some? ==>
      && LastTs(g).value >= 0
      && (forall i :: i in g ==> i.createdAt.value <= LastTs(g).value)
      && (LastTs(g).value == 0 || exists i :: i in g && i.createdAt == LastTs(g))
  {
    if g != [] {
      var init, x := g[..|g| - 1], g[|g| - 1];
      assert g == init + [x];
      LastTsIsMaximum(init);
      if LastTs(g).Some? && LastTs(g) == LastTs(init) && LastTs(g).value != 0 {
        var w :| w in init && w.createdAt == LastTs(init);
        assert w in g;
      }
    }
  }

  /** The bucket of key `k` for its incidents `g`. */
  function RiskOfGroup(k: LocCat, g: seq<Incident>, now: int): (b: RiskBucket)
    ensures b.high <= b.total && b.recent24h <= b.total
  {
    RiskBucket(k.location, k.category, |g|, Count(g, IsHigh), Count(g, RecentAt(now)), LastTs(g))
  }

  function RiskBucketOf(incidents: seq<Incident>, k: LocCat, now: int): RiskBucket
  {
    RiskOfGroup(k, Filter(incidents, KeyIs(LocCatOf, k)), now)
  }

  /** A bucket as the loop creates it. */
  function FreshRisk(k: LocCat): RiskBucket
  {
    RiskBucket(k.location, k.category, 0, 0, 0, Some(0))
  }

  /** The bucket part of the loop body. */
  function AddToRisk(b: RiskBucket, x: Incident, now: int): RiskBucket
  {
    var ts := x.createdAt;
    b.(total := b.total + 1,
       high := if IsHigh(x) then b.high + 1 else b.high,
       lastIncidentTs :=
         if b.lastIncidentTs.None? || ts.None? then None
         else Some(if ts.value > b.lastIncidentTs.value then ts.value else b.lastIncidentTs.value),
       recent24h := if ts.Some? && now - ts.value <= DayMs then b.recent24h + 1 else b.recent24h)
  }

  lemma RiskGroupStep(k: LocCat, g: seq<Incident>, x: Incident, now: int)
    ensures RiskOfGroup(k, g + [x], now) == AddToRisk(if g == [] then FreshRisk(k) else RiskOfGroup(k, g, now), x, now)
  {
    var b := if g == [] then FreshRisk(k) else RiskOfGroup(k, g, now);
    var t, u := RiskOfGroup(k, g + [x], now), AddToRisk(b, x, now);
    assert t.high == u.high by {
      FilterSnoc(g, x, IsHigh);
    }
    assert t.recent24h == u.recent24h by {
      FilterSnoc(g, x, RecentAt(now));
    }
    assert b.lastIncidentTs == LastTs(g);
    assert t.lastIncidentTs == u.lastIncidentTs by {
      assert (g + [x])[..|g|] == g;
      assert (g + [x])[|g|] == x;
      var m := LastTs(g);
      assert LastTs(g + [x]) ==
        if m.None? || x.createdAt.None? then None
        else Some(if x.createdAt.value > m.value then x.createdAt.value else m.value);
    }
  }

  /** One pass of the loop keeps every bucket equal to the bucket of its
      group. */
  lemma RiskStep(s: seq<Incident>, x: Incident, now: int, risk: map<LocCat, RiskBucket>)
    requires forall k :: k in risk <==> k in KeysInOrder(s, LocCatOf)
    requires forall k :: k in risk ==> risk[k] == RiskBucketOf(s, k, now)
    ensures var k := LocCatOf(x);
            var next := risk[k := AddToRisk(if k in risk then risk[k] else FreshRisk(k), x, now)];
            && (forall k' :: k' in next <==> k' in KeysInOrder(s + [x], LocCatOf))
            && (forall k' :: k' in next ==> next[k'] == RiskBucketOf(s + [x], k', now))
  {
    var k := LocCatOf(x);
    KeysInOrderSnoc(s, x, LocCatOf);
    var g := Filter(s, KeyIs(LocCatOf, k));
    if k !in risk {
      AbsentKeyGroup(s, LocCatOf, k);
    } else {
      PresentKeyGroup(s, LocCatOf, k);
    }
    FilterSnoc(s, x, KeyIs(LocCatOf, k));
    RiskGroupStep(k, g, x, now);
    var next := risk[k := AddToRisk(if k in risk then risk[k] else FreshRisk(k), x, now)];
    forall k' | k' in next ensures next[k'] == RiskBucketOf(s + [x], k', now) {
      FilterSnoc(s, x, KeyIs(LocCatOf, k'));
    }
  }

  /** One pass of the `forEach` loop of `stats`, stated on the prefix of
      the input the loop has read. */
  lemma AggregateStep(incidents: seq<Incident>, n: nat, now: int,
                      locs: seq<string>, heat: map<string, HeatCell>, keys: seq<LocCat>, risk: map<LocCat, RiskBucket>)
    requires n < |incidents|
    requires locs == KeysInOrder(incidents[..n], LocationOf)
    requires forall l :: l in heat <==> l in locs
    requires forall l :: l in heat ==> heat[l] == HeatOf(incidents[..n], l)
    requires keys == KeysInOrder(incidents[..n], LocCatOf)
    requires forall k :: k in risk <==> k in keys
    requires forall k :: k in risk ==> risk[k] == RiskBucketOf(incidents[..n], k, now)
    ensures var x := incidents[n];
            var l, k := LocationOf(x), LocCatOf(x);
            var locs' := if l in heat then locs else locs + [l];
            var heat' := heat[l := AddToHeat(if l in heat then heat[l] else HeatCell(0, 0), x)];
            var keys' := if k in risk then keys else keys + [k];
            var risk' := risk[k := AddToRisk(if k in risk then risk[k] else FreshRisk(k), x, now)];
            && locs' == KeysInOrder(incidents[..n + 1], LocationOf)
            && (forall l' :: l' in heat' <==> l' in locs')
            && (forall l' :: l' in heat' ==> heat'[l'] == HeatOf(incidents[..n + 1], l'))
            && keys' == KeysInOrder(incidents[..n + 1], LocCatOf)
            && (forall k' :: k' in risk' <==> k' in keys')
            && (forall k' :: k' in risk' ==> risk'[k'] == RiskBucketOf(incidents[..n + 1], k', now))
  {
    var x := incidents[n];
    PrefixSnoc(incidents, n);
    KeysInOrderSnoc(incidents[..n], x, LocationOf);
    KeysInOrderSnoc(incidents[..n], x, LocCatOf);
    HeatStep(incidents[..n], x, heat);
    RiskStep(incidents[..n], x, now, risk);
  }

  /** The `forEach` loop of `stats`, filling `byLocation` and `byLocCat`
      together, each with its keys in first-seen order. */
  method Aggregate(incidents: seq<Incident>, now: int)
    returns (locs: seq<string>, heat: map<string, HeatCell>, keys: seq<LocCat>, risk: map<LocCat, RiskBucket>)
    ensures locs == KeysInOrder(incidents, LocationOf)
    ensures forall l :: l in heat <==> l in locs
    ensures forall l :: l in heat ==> heat[l] == HeatOf(incidents, l)
    ensures keys == KeysInOrder(incidents, LocCatOf)
    ensures forall k :: k in risk <==> k in keys
    ensures forall k :: k in risk ==> risk[k] == RiskBucketOf(incidents, k, now)
  {
    locs, heat, keys, risk := [], map[], [], map[];
    var n := 0;
    while n < |incidents|
      invariant 0 <= n <= |incidents|
      invariant locs == KeysInOrder(incidents[..n], LocationOf)
      invariant forall l :: l in heat <==> l in locs
      invariant forall l :: l in heat ==> heat[l] == HeatOf(incidents[..n], l)
      invariant keys == KeysInOrder(incidents[..n], LocCatOf)
      invariant forall k :: k in risk <==> k in keys
      invariant forall k :: k in risk ==> risk[k] == RiskBucketOf(incidents[..n], k, now)
    {
      AggregateStep(incidents, n, now, locs, heat, keys, risk);
      var x := incidents[n];
      var loc := LocationOf(x);
      if loc !in heat {
        locs := locs + [loc];
      }
      heat := heat[loc := AddToHeat(if loc in heat then heat[loc] else HeatCell(0, 0), x)];
      var key := LocCatOf(x);
      if key !in risk {
        keys := keys + [key];
      }
      risk := risk[key := AddToRisk(if key in risk then risk[key] else FreshRisk(key), x, now)];
      n := n + 1;
    }
    assert incidents[..n] == incidents;
  }


  /** Every incident lands in exactly one bucket: the bucket totals add up
      to the number of incidents, and each bucket is non-empty. */
  lemma RiskBucketsPartition(incidents: seq<Incident>, now: int)
    ensures GroupSizes(incidents, LocCatOf, KeysInOrder(incidents, LocCatOf)) == |incidents|
    ensures forall k :: k in KeysInOrder(incidents, LocCatOf) ==> RiskBucketOf(incidents, k, now).total >= 1
  {
    KeysInOrderSound(incidents, LocCatOf);
    GroupSizesPartition(incidents, LocCatOf, KeysInOrder(incidents, LocCatOf));
    forall k | k in KeysInOrder(incidents, LocCatOf) ensures RiskBucketOf(incidents, k, now).total >= 1 {
      PresentKeyGroup(incidents, LocCatOf, k);
    }
  }

  // ---------------------------------------------------------------------
  // Ranking and bands

  const HourMs := 60 * 60 * 1000

  /** `recencyBoost`: 1 for a bucket whose last incident is now, falling
      to 0 at 72 hours; 0 when `lastIncidentTs` is 0 or `NaN`. */
  function RecencyBoost(b: RiskBucket, now: int): real
  {
    if b.lastIncidentTs.None? || b.lastIncidentTs.value == 0 then 0.0
    else
      var hours := (now - b.lastIncidentTs.value) as real / HourMs as real;
      1.0 - (if hours < 72.0 then hours else 72.0) / 72.0
  }

  /** `rawScore`. */
  function AdminRawScore(b: RiskBucket, now: int): real
  {
    0.4 * b.total as real + 0.8 * b.high as real + 1.0 * b.recent24h as real + 1.2 * RecencyBoost(b, now)
  }

  /** The boost lies in [0, 1] for a last incident that is not in the
      future. */
  lemma RecencyBoostBounds(b: RiskBucket, now: int)
    requires b.lastIncidentTs.Some? ==> b.lastIncidentTs.value <= now
    ensures 0.0 <= RecencyBoost(b, now) <= 1.0
  {
  }

  /** An entry of `riskPairs`. */
  datatype RiskItem = RiskItem(
    location: string,
    category: string,
    total: nat,
    high: nat,
    recent24h: nat,
    riskScore: real,
    probability: Percent)

  /** The entry for a bucket; `probability` stands for
      `x => Math.round(sigmoid(x / 3) * 100)`. */
  function ItemOf(b: RiskBucket, now: int, probability: real -> Percent): RiskItem
  {
    var raw := AdminRawScore(b, now);
    RiskItem(b.location, b.category, b.total, b.high, b.recent24h, raw, probability(raw))
  }

  /** `Object.values(byLocCat).map(...)`, before sorting. */
  function RiskItems(incidents: seq<Incident>, now: int, probability: real -> Percent): seq<RiskItem>
  {
    var ks := KeysInOrder(incidents, LocCatOf);
    seq(|ks|, k requires 0 <= k < |ks| => ItemOf(RiskBucketOf(incidents, ks[k], now), now, probability))
  }

  /** `(a, b) => b.probability - a.probability`. */
  function MoreProbable(): (RiskItem, RiskItem) -> bool
  {
    (a: RiskItem, b: RiskItem) => a.probability >= b.probability
  }

  lemma MoreProbableIsConsistent()
    ensures Sorting.TotalPreorder(MoreProbable())
  {
  }

  datatype Stats = Stats(counts: Counts, heatmap: seq<HeatEntry>, maxTotal: nat, riskPairs: seq<RiskItem>)

  /** `stats`. */
  method ComputeStats(incidents: seq<Incident>, now: int, probability: real -> Percent) returns (s: Stats)
    ensures s.counts == StatCounts(incidents, now)
    ensures s.heatmap == Heatmap(incidents)
    ensures s.maxTotal == MaxTotal(Heatmap(incidents))
    ensures multiset(s.riskPairs) == multiset(RiskItems(incidents, now, probability))
    ensures Sorting.SortedBy(s.riskPairs, MoreProbable())
  {
    var locs, heat, keys, risk := Aggregate(incidents, now);
    var heatmap := seq(|locs|, k requires 0 <= k < |locs| => HeatEntry(locs[k], heat[locs[k]].total, heat[locs[k]].high));
    assert heatmap == Heatmap(incidents);
    var items := seq(|keys|, k requires 0 <= k < |keys| => ItemOf(risk[keys[k]], now, probability));
    assert items == RiskItems(incidents, now, probability);
    MoreProbableIsConsistent();
    var ranked := Sorting.SortedCopy(items, MoreProbable());
    s := Stats(StatCounts(incidents, now), heatmap, MaxTotal(heatmap), ranked);
  }

  /** `topRisks`: the first three of the ranked list. */
  function TopRisks(riskPairs: seq<RiskItem>): (r: seq<RiskItem>)
    ensures |r| == if |riskPairs| < 3 then |riskPairs| else 3
    ensures r == riskPairs[..|r|]
  {
    Take(riskPairs, 3)
  }

  /** On a ranked list the panel shows the three most probable entries:
      nothing left out is more probable than anything shown. */
  lemma TopRisksAreTheMostProbable(riskPairs: seq<RiskItem>)
    requires Sorting.SortedBy(riskPairs, MoreProbable())
    ensures forall t, r :: t in TopRisks(riskPairs) && r in riskPairs[|TopRisks(riskPairs)|..] ==>
      t.probability >= r.probability
  {
    Sorting.SortedPrefix(riskPairs, MoreProbable(), |TopRisks(riskPairs)|);
  }

  datatype Band = Red | Amber | Green

  /** The colour of a probability: red from 75, amber from 50. */
  function BandOf(p: Percent): (b: Band)
    ensures b == Red <==> 75 <= p
    ensures b == Amber <==> 50 <= p < 75
    ensures b == Green <==> p < 50
  {
    if p >= 75 then Red else if p >= 50 then Amber else Green
  }

  /** Severity of a band, red highest. */
  function Severity(b: Band): nat
  {
    match b
    case Red => 2
    case Amber => 1
    case Green => 0
  }

  /** Down a ranked list the bands never become more severe. */
  lemma BandsFollowRanking(riskPairs: seq<RiskItem>)
    requires Sorting.SortedBy(riskPairs, MoreProbable())
    ensures forall j, k :: 0 <= j < k < |riskPairs| ==>
      Severity(BandOf(riskPairs[j].probability)) >= Severity(BandOf(riskPairs[k].probability))
  {
    forall j, k | 0 <= j < k < |riskPairs|
      ensures Severity(BandOf(riskPairs[j].probability)) >= Severity(BandOf(riskPairs[k].probability))
    {
      assert MoreProbable()(riskPairs[j], riskPairs[k]);
    }
  }

  /** With no incidents every count is 0 and the heatmap and both risk
      lists are empty. */
  lemma EmptyDashboard(now: int, probability: real -> Percent)
    ensures StatCounts([], now) == Counts(0, 0, 0, 0, 0)
    ensures Heatmap([]) == [] && MaxTotal(Heatmap([])) == 0
    ensures RiskItems([], now, probability) == [] && TopRisks([]) == []
  {
  }
}
