/** The evidence model that tells a blocked endpoint from failing nodes, and the sentinels it is run on first. */
module EndpointBlockage {
  import opened Results
  import opened Ordering
  import opened ProbeEvidence
  import opened ProbeSharding

  // ----- counters that add up -----

  /** The sum of the counts whose key satisfies `p`. */
  ghost function SumWhere(m: Outcomes, p: string -> bool): nat
    decreases |m|
  {
    if m == map[] then 0
    else
      var k :| k in m;
      (if p(k) then m[k] else 0) + SumWhere(m - {k}, p)
  }

  lemma {:induction false} SumWithout(m: Outcomes, p: string -> bool, k: string)
    requires k in m
    ensures SumWhere(m, p) == (if p(k) then m[k] else 0) + SumWhere(m - {k}, p)
    decreases |m|
  {
    var x :| x in m && SumWhere(m, p) == (if p(x) then m[x] else 0) + SumWhere(m - {x}, p);
    if x != k {
      SumWithout(m - {x}, p, k);
      SumWithout(m - {k}, p, x);
      assert m - {x} - {k} == m - {k} - {x};
    }
  }

  lemma JoinWithout(a: Outcomes, b: Outcomes, k: string)
    ensures JoinCounts(a, b) - {k} == JoinCounts(a - {k}, b - {k})
  {
  }

  lemma SumAway(a: Outcomes, p: string -> bool, k: string)
    ensures SumWhere(a, p) == SumWhere(a - {k}, p) + if k in a && p(k) then a[k] else 0
  {
    if k in a { SumWithout(a, p, k); } else { assert a - {k} == a; }
  }

  lemma {:induction false} SumJoin(a: Outcomes, b: Outcomes, p: string -> bool)
    ensures SumWhere(JoinCounts(a, b), p) == SumWhere(a, p) + SumWhere(b, p)
    decreases |b|
  {
    if b == map[] {
      assert JoinCounts(a, b) == a;
    } else {
      var k :| k in b;
      JoinWithout(a, b, k);
      SumAway(a, p, k);
      SumAway(b, p, k);
      SumAway(JoinCounts(a, b), p, k);
      SumJoin(a - {k}, b - {k}, p);
    }
  }

  function Network(outcome: string): bool { !IsStatus(outcome) }

  function Answered(outcome: string): bool { IsStatus(outcome) }

  /** The counters of one endpoint agree with each other and with its outcomes, and no outcome is listed without being seen. */
  ghost predicate Consistent(s: Stats) {
    && s.probed == s.passed + s.failed && s.probed == s.reached + s.networkFailure
    && SumWhere(s.outcomes, Answered) == s.reached && SumWhere(s.outcomes, Network) == s.networkFailure
    && forall o :: o in s.outcomes ==> s.outcomes[o] > 0
  }

  lemma OneCounted(o: string, p: string -> bool)
    ensures SumWhere(map[o := 1], p) == if p(o) then 1 else 0
  {
    var m: Outcomes := map[o := 1];
    SumWithout(m, p, o);
    assert m - {o} == map[];
  }

  lemma ResultConsistent(r: ProbeResult)
    ensures Consistent(ResultStats(r)) && ResultStats(r).probed == 1
  {
    OneCounted(r.outcome, Answered);
    OneCounted(r.outcome, Network);
  }

  /** Adding keeps counters consistent. */
  lemma AddConsistent(a: Stats, b: Stats)
    requires Consistent(a) && Consistent(b)
    ensures Consistent(AddStats(a, b))
  {
    SumJoin(a.outcomes, b.outcomes, Answered);
    SumJoin(a.outcomes, b.outcomes, Network);
  }

  ghost predicate EndpointsConsistent(m: map<string, Stats>) { forall e :: e in m ==> Consistent(m[e]) }

  ghost predicate RegionsConsistent(m: map<string, Row>) { forall r :: r in m ==> EndpointsConsistent(m[r].endpoints) }

  lemma JoinEndpointsConsistent(a: map<string, Stats>, b: map<string, Stats>)
    requires EndpointsConsistent(a) && EndpointsConsistent(b)
    ensures EndpointsConsistent(JoinStats(a, b))
  {
    forall e | e in JoinStats(a, b) ensures Consistent(JoinStats(a, b)[e]) {
      if e in a && e in b { AddConsistent(a[e], b[e]); }
    }
  }

  lemma JoinRegionsConsistent(a: map<string, Row>, b: map<string, Row>)
    requires RegionsConsistent(a) && RegionsConsistent(b)
    ensures RegionsConsistent(JoinRows(a, b))
  {
    forall r | r in JoinRows(a, b) ensures EndpointsConsistent(JoinRows(a, b)[r].endpoints) {
      if r in a && r in b { JoinEndpointsConsistent(a[r].endpoints, b[r].endpoints); }
    }
  }

  lemma {:induction false} ResultsConsistent(results: seq<ProbeResult>)
    ensures EndpointsConsistent(EndpointsOf(results))
  {
    if results != [] {
      var k := |results| - 1;
      ResultsConsistent(results[..k]);
      ResultConsistent(results[k]);
      JoinEndpointsConsistent(EndpointsOf(results[..k]), map[results[k].probe := ResultStats(results[k])]);
    }
  }

  lemma {:induction false} TotalConsistent(entries: seq<Entry>, node: Oracle)
    ensures RegionsConsistent(Total(entries, node).regions)
  {
    if entries != [] {
      var k := |entries| - 1;
      TotalConsistent(entries[..k], node);
      var e := entries[k];
      ResultsConsistent(ResultsOf(node(e.name)));
      JoinRegionsConsistent(Total(entries[..k], node).regions, map[e.region := NodeRow(node(e.name))]);
    }
  }

  /** Whatever is probed in whatever shards: probed = passed + failed = reached + network failures = sum of outcomes, per region and endpoint. */
  lemma AggregateConsistent(names: set<string>, shards: seq<Shard>, node: Oracle)
    ensures RegionsConsistent(Aggregate(names, shards, node).regions)
  {
    TotalConsistent(AllEntries(shards), node);
    JoinRegionsConsistent(map[], Total(AllEntries(shards), node).regions);
  }

  // ----- the verdict -----

  const MIN_REGIONS: nat := 2

  /** Region, then endpoint. */
  type RegionStats = map<string, map<string, Stats>>

  predicate ProbedIn(stats: RegionStats, region: string, endpoint: string) {
    region in stats && endpoint in stats[region] && stats[region][endpoint].probed >= 1
  }

  function ProbedRegions(stats: RegionStats, endpoint: string): set<string> {
    set r | r in stats && ProbedIn(stats, r, endpoint)
  }

  /** No probe reached the endpoint, two regions at least probed it, and the control worked in every one of them. */
  ghost predicate Blocked(stats: RegionStats, endpoint: string, control: set<string>) {
    && (forall r :: r in ProbedRegions(stats, endpoint) ==> stats[r][endpoint].reached == 0)
    && |ProbedRegions(stats, endpoint)| >= MIN_REGIONS
    && ProbedRegions(stats, endpoint) <= control
  }

  ghost predicate StatsConsistent(stats: RegionStats) { forall r :: r in stats ==> EndpointsConsistent(stats[r]) }

  /** What the scan of one endpoint has counted. */
  datatype Scan = Scan(failing: set<string>, reached: nat, probed: nat)

  function SeenIn(stats: RegionStats, endpoint: string, regions: seq<string>): set<string> {
    set r | r in regions && ProbedIn(stats, r, endpoint)
  }

  function FailingIn(stats: RegionStats, endpoint: string, regions: seq<string>): set<string> {
    set r | r in regions && ProbedIn(stats, r, endpoint) && stats[r][endpoint].networkFailure > 0
  }

  ghost predicate Unreached(stats: RegionStats, endpoint: string, regions: seq<string>) {
    forall r :: r in regions && ProbedIn(stats, r, endpoint) ==> stats[r][endpoint].reached == 0
  }

  ghost predicate Scanned(stats: RegionStats, endpoint: string, regions: seq<string>, s: Scan) {
    && s.probed == |SeenIn(stats, endpoint, regions)|
    && (s.reached == 0 <==> Unreached(stats, endpoint, regions))
    && s.failing == FailingIn(stats, endpoint, regions)
  }

  lemma SeenStep(stats: RegionStats, endpoint: string, regions: seq<string>, k: nat)
    requires k < |regions| && NoDuplicates(regions)
    ensures |SeenIn(stats, endpoint, regions[..k + 1])| == |SeenIn(stats, endpoint, regions[..k])| + if ProbedIn(stats, regions[k], endpoint) then 1 else 0
  {
    TakeStep(regions, k);
    var r := regions[k];
    assert r !in regions[..k];
    assert SeenIn(stats, endpoint, regions[..k + 1]) == SeenIn(stats, endpoint, regions[..k]) + if ProbedIn(stats, r, endpoint) then {r} else {};
  }

  lemma FailingStep(stats: RegionStats, endpoint: string, regions: seq<string>, k: nat)
    requires k < |regions|
    ensures FailingIn(stats, endpoint, regions[..k + 1]) == FailingIn(stats, endpoint, regions[..k])
            + if ProbedIn(stats, regions[k], endpoint) && stats[regions[k]][endpoint].networkFailure > 0 then {regions[k]} else {}
  {
    TakeStep(regions, k);
  }

  lemma UnreachedStep(stats: RegionStats, endpoint: string, regions: seq<string>, k: nat)
    requires k < |regions|
    ensures Unreached(stats, endpoint, regions[..k + 1]) <==>
            Unreached(stats, endpoint, regions[..k]) && (ProbedIn(stats, regions[k], endpoint) ==> stats[regions[k]][endpoint].reached == 0)
  {
    TakeStep(regions, k);
    assert regions[k] in regions[..k + 1];
    assert forall r :: r in regions[..k + 1] <==> r in regions[..k] || r == regions[k];
  }

  method ScanEndpoint(stats: RegionStats, endpoint: string, regions: seq<string>) returns (s: Scan)
    requires NoDuplicates(regions) && forall r :: r in regions ==> r in stats
    ensures Scanned(stats, endpoint, regions, s)
  {
    s := Scan({}, 0, 0);
    for k := 0 to |regions|
      invariant Scanned(stats, endpoint, regions[..k], s)
    {
      SeenStep(stats, endpoint, regions, k);
      FailingStep(stats, endpoint, regions, k);
      UnreachedStep(stats, endpoint, regions, k);
      var region := regions[k];
      if endpoint in stats[region] && stats[region][endpoint].probed >= 1 {
        var row := stats[region][endpoint];
        s := Scan(if row.networkFailure > 0 then s.failing + {region} else s.failing, s.reached + row.reached, s.probed + 1);
      }
    }
    assert regions[..|regions|] == regions;
  }

  /** The five guards of the verdict, in the order they are tried. */
  predicate Verdict(s: Scan, control: set<string>) {
    s.reached == 0 && s.probed >= MIN_REGIONS && |s.failing| >= MIN_REGIONS && s.failing <= control && |control| >= MIN_REGIONS
  }

  lemma Subset(a: set<string>, b: set<string>)
    requires a <= b
    ensures |a| <= |b|
  {
    assert b == a + (b - a);
  }

  /** The guards as they read on any counters: failing regions need not be the probed ones. */
  ghost predicate Flagged(stats: RegionStats, endpoint: string, control: set<string>) {
    var regions := Sorted(stats.Keys);
    && Unreached(stats, endpoint, regions) && |ProbedRegions(stats, endpoint)| >= MIN_REGIONS
    && |FailingIn(stats, endpoint, regions)| >= MIN_REGIONS && FailingIn(stats, endpoint, regions) <= control && |control| >= MIN_REGIONS
  }

  lemma VerdictFlags(stats: RegionStats, endpoint: string, s: Scan, control: set<string>)
    requires Scanned(stats, endpoint, Sorted(stats.Keys), s)
    ensures Verdict(s, control) <==> Flagged(stats, endpoint, control)
  {
    assert SeenIn(stats, endpoint, Sorted(stats.Keys)) == ProbedRegions(stats, endpoint);
  }

  /** On consistent counters the guards come to `Blocked`; two of them are then implied by the others. */
  lemma VerdictMeaning(stats: RegionStats, endpoint: string, control: set<string>)
    requires StatsConsistent(stats)
    ensures Flagged(stats, endpoint, control) <==> Blocked(stats, endpoint, control)
  {
    var regions := Sorted(stats.Keys);
    var failing := FailingIn(stats, endpoint, regions);
    if Unreached(stats, endpoint, regions) {
      forall r | r in ProbedRegions(stats, endpoint) ensures stats[r][endpoint].networkFailure > 0 {
        assert r in regions;
        assert Consistent(stats[r][endpoint]);
      }
      assert failing == ProbedRegions(stats, endpoint);
      if failing <= control { Subset(failing, control); }
    }
  }

  // ----- the dominant outcome -----

  function NetworkOnly(m: Outcomes): Outcomes { map o | o in m && Network(o) :: m[o] }

  function OutcomesIn(stats: RegionStats, region: string, endpoint: string): Outcomes {
    if region in stats && endpoint in stats[region] then NetworkOnly(stats[region][endpoint].outcomes) else map[]
  }

  /** The network outcomes of the endpoint over all regions. */
  function OutcomesOver(stats: RegionStats, regions: seq<string>, endpoint: string): Outcomes {
    if regions == [] then map[]
    else JoinCounts(OutcomesOver(stats, regions[..|regions| - 1], endpoint), OutcomesIn(stats, regions[|regions| - 1], endpoint))
  }

  function NetworkCounts(stats: RegionStats, regions: seq<string>, endpoints: seq<string>): Outcomes {
    if endpoints == [] then map[]
    else JoinCounts(NetworkCounts(stats, regions, endpoints[..|endpoints| - 1]), OutcomesOver(stats, regions, endpoints[|endpoints| - 1]))
  }

  method CountNetwork(stats: RegionStats, endpoints: seq<string>) returns (counts: Outcomes)
    ensures counts == NetworkCounts(stats, Sorted(stats.Keys), endpoints)
  {
    counts := map[];
    var regions := Sorted(stats.Keys);
    assert endpoints[..0] == [];
    for i := 0 to |endpoints|
      invariant counts == NetworkCounts(stats, regions, endpoints[..i])
    {
      TakeStep(endpoints, i);
      counts := CountEndpoint(stats, regions, endpoints[i], counts);
    }
    assert endpoints[..|endpoints|] == endpoints;
  }

  method CountEndpoint(stats: RegionStats, regions: seq<string>, endpoint: string, start: Outcomes) returns (counts: Outcomes)
    ensures counts == JoinCounts(start, OutcomesOver(stats, regions, endpoint))
  {
    counts := start;
    assert regions[..0] == [];
    assert JoinCounts(start, map[]) == start;
    for k := 0 to |regions|
      invariant counts == JoinCounts(start, OutcomesOver(stats, regions[..k], endpoint))
    {
      TakeStep(regions, k);
      JoinCountsAssociates(start, OutcomesOver(stats, regions[..k], endpoint), OutcomesIn(stats, regions[k], endpoint));
      counts := MergeTable(counts, OutcomesIn(stats, regions[k], endpoint), Plus);
    }
    assert regions[..|regions|] == regions;
  }

  lemma {:induction false} OverIsNetwork(stats: RegionStats, regions: seq<string>, endpoint: string)
    ensures forall o :: o in OutcomesOver(stats, regions, endpoint) ==> Network(o)
  {
    if regions != [] { OverIsNetwork(stats, regions[..|regions| - 1], endpoint); }
  }

  lemma {:induction false} CountsAreNetwork(stats: RegionStats, regions: seq<string>, endpoints: seq<string>)
    ensures forall o :: o in NetworkCounts(stats, regions, endpoints) ==> Network(o)
  {
    if endpoints != [] {
      CountsAreNetwork(stats, regions, endpoints[..|endpoints| - 1]);
      OverIsNetwork(stats, regions, endpoints[|endpoints| - 1]);
    }
  }

  lemma {:induction false} OverHas(stats: RegionStats, regions: seq<string>, endpoint: string, region: string, o: string)
    requires region in regions && o in OutcomesIn(stats, region, endpoint)
    ensures o in OutcomesOver(stats, regions, endpoint)
    ensures OutcomesOver(stats, regions, endpoint)[o] >= OutcomesIn(stats, region, endpoint)[o]
  {
    var k := |regions| - 1;
    if region != regions[k] {
      assert regions == regions[..k] + [regions[k]];
      OverHas(stats, regions[..k], endpoint, region, o);
    }
  }

  lemma {:induction false} CountsHave(stats: RegionStats, regions: seq<string>, endpoints: seq<string>, endpoint: string, o: string)
    requires endpoint in endpoints && o in OutcomesOver(stats, regions, endpoint)
    ensures o in NetworkCounts(stats, regions, endpoints)
    ensures NetworkCounts(stats, regions, endpoints)[o] >= OutcomesOver(stats, regions, endpoint)[o]
  {
    var k := |endpoints| - 1;
    if endpoint != endpoints[k] {
      assert endpoints == endpoints[..k] + [endpoints[k]];
      CountsHave(stats, regions, endpoints[..k], endpoint, o);
    }
  }

  /** Highest count first, then the least name: `min(counts, key=(-count, name))`. */
  ghost predicate IsDominant(counts: Outcomes, o: string) {
    o in counts && forall x :: x in counts ==> counts[x] < counts[o] || (counts[x] == counts[o] && Leq(o, x))
  }

  method Dominant(counts: Outcomes) returns (best: Option<string>)
    ensures best.Some? <==> counts != map[]
    ensures best.Some? ==> IsDominant(counts, best.value)
  {
    best := None;
    var names := Sorted(counts.Keys);
    for k := 0 to |names|
      invariant best.None? <==> k == 0
      invariant best.Some? ==> best.value in names[..k] && forall x :: x in names[..k] ==>
                  counts[x] < counts[best.value] || (counts[x] == counts[best.value] && Leq(best.value, x))
    {
      TakeStep(names, k);
      var name := names[k];
      SortedAscends(counts.Keys);
      LeqTotal(name, name);
      if best.None? || counts[name] > counts[best.value] { best := Some(name); }
    }
    assert names[..|names|] == names;
    if counts != map[] {
      var o :| o in counts;
      assert o in names;
    }
  }

  datatype Blockage = Blockage(systemic: bool, blocked: seq<string>, dominant: Option<string>)

  /** The flagged endpoints, in the order given. */
  ghost function FlaggedOf(critical: seq<string>, stats: RegionStats, control: set<string>): (r: seq<string>)
    ensures forall e :: e in r <==> e in critical && Flagged(stats, e, control)
  {
    if critical == [] then []
    else
      var k := |critical| - 1;
      assert critical == critical[..k] + [critical[k]];
      FlaggedOf(critical[..k], stats, control) + if Flagged(stats, critical[k], control) then [critical[k]] else []
  }

  method BlockedEndpoints(critical: seq<string>, stats: RegionStats, control: set<string>) returns (blocked: seq<string>)
    ensures blocked == FlaggedOf(critical, stats, control)
  {
    blocked := [];
    assert critical[..0] == [];
    for k := 0 to |critical|
      invariant blocked == FlaggedOf(critical[..k], stats, control)
    {
      var s := ScanEndpoint(stats, critical[k], Sorted(stats.Keys));
      VerdictFlags(stats, critical[k], s, control);
      TakeStep(critical, k);
      if Verdict(s, control) { blocked := blocked + [critical[k]]; }
    }
    assert critical[..|critical|] == critical;
  }

  /** `evaluate_endpoint_blockage`: the flagged endpoints, and the dominant network outcome among them. */
  method EvaluateEndpointBlockage(critical: seq<string>, stats: RegionStats, control: set<string>) returns (v: Blockage)
    ensures v.blocked == FlaggedOf(critical, stats, control)
    ensures v.systemic <==> exists e :: e in critical && Flagged(stats, e, control)
    ensures v.dominant.Some? <==> v.systemic && NetworkCounts(stats, Sorted(stats.Keys), v.blocked) != map[]
    ensures v.dominant.Some? ==> Network(v.dominant.value) && IsDominant(NetworkCounts(stats, Sorted(stats.Keys), v.blocked), v.dominant.value)
    ensures StatsConsistent(stats) ==> (v.dominant.Some? <==> v.systemic)
    ensures StatsConsistent(stats) ==> forall e :: e in v.blocked <==> e in critical && Blocked(stats, e, control)
  {
    var blocked := BlockedEndpoints(critical, stats, control);
    var counts: Outcomes := map[];
    if blocked != [] {
      counts := CountNetwork(stats, blocked);
      CountsAreNetwork(stats, Sorted(stats.Keys), blocked);
      assert blocked[0] in blocked;
    }
    ConsistentVerdict(critical, stats, control);
    var dominant := Dominant(counts);
    v := Blockage(blocked != [], blocked, dominant);
  }

  lemma ConsistentVerdict(critical: seq<string>, stats: RegionStats, control: set<string>)
    ensures StatsConsistent(stats) ==>
              var blocked := FlaggedOf(critical, stats, control);
              && (forall e :: e in blocked <==> e in critical && Blocked(stats, e, control))
              && (blocked != [] ==> NetworkCounts(stats, Sorted(stats.Keys), blocked) != map[])
  {
    if StatsConsistent(stats) {
      forall e ensures Flagged(stats, e, control) <==> Blocked(stats, e, control) { VerdictMeaning(stats, e, control); }
      var blocked := FlaggedOf(critical, stats, control);
      if blocked != [] {
        assert blocked[0] in blocked;
        BlockedIsCounted(stats, blocked, blocked[0], control);
      }
    }
  }

  lemma SomeKey(m: Outcomes, p: string -> bool) returns (o: string)
    requires SumWhere(m, p) > 0
    ensures o in m && p(o) && m[o] > 0
    decreases |m|
  {
    var k :| k in m;
    SumWithout(m, p, k);
    if p(k) && m[k] > 0 { o := k; } else { o := SomeKey(m - {k}, p); }
  }

  /** A blocked endpoint has network outcomes to count. */
  lemma BlockedIsCounted(stats: RegionStats, endpoints: seq<string>, e: string, control: set<string>)
    requires StatsConsistent(stats) && e in endpoints && Blocked(stats, e, control)
    ensures NetworkCounts(stats, Sorted(stats.Keys), endpoints) != map[]
  {
    var region :| region in ProbedRegions(stats, e);
    var row := stats[region][e];
    assert Consistent(row);
    var o := SomeKey(row.outcomes, Network);
    OverHas(stats, Sorted(stats.Keys), e, region, o);
    CountsHave(stats, Sorted(stats.Keys), endpoints, e, o);
  }

  // ----- sentinels -----

  ghost predicate Firsts(nodeRegions: map<string, string>, names: seq<string>, firsts: map<string, string>)
    requires forall n :: n in names ==> n in nodeRegions
  {
    && (forall r :: r in firsts ==> firsts[r] in names && nodeRegions[firsts[r]] == r)
    && (forall n :: n in names ==> nodeRegions[n] in firsts && Leq(firsts[nodeRegions[n]], n))
  }

  ghost predicate Ascending(names: seq<string>) { forall i, j :: 0 <= i < j < |names| ==> Leq(names[i], names[j]) }

  lemma SortedAscending(s: set<string>)
    ensures Ascending(Sorted(s))
  {
    SortedAscends(s);
  }

  /** The first of the sorted names of every region. */
  method FirstNames(nodeRegions: map<string, string>, names: seq<string>) returns (firsts: map<string, string>)
    requires forall n :: n in names ==> n in nodeRegions
    requires Ascending(names)
    ensures Firsts(nodeRegions, names, firsts)
  {
    firsts := map[];
    for k := 0 to |names|
      invariant forall n :: n in names[..k] ==> n in nodeRegions
      invariant Firsts(nodeRegions, names[..k], firsts)
    {
      TakeStep(names, k);
      FirstsStep(nodeRegions, names, k, firsts);
      if nodeRegions[names[k]] !in firsts { firsts := firsts[nodeRegions[names[k]] := names[k]]; }
    }
    assert names[..|names|] == names;
  }

  lemma FirstsStep(nodeRegions: map<string, string>, names: seq<string>, k: nat, firsts: map<string, string>)
    requires k < |names| && forall n :: n in names ==> n in nodeRegions
    requires Ascending(names)
    requires Firsts(nodeRegions, names[..k], firsts)
    ensures Firsts(nodeRegions, names[..k + 1], if nodeRegions[names[k]] !in firsts then firsts[nodeRegions[names[k]] := names[k]] else firsts)
  {
    TakeStep(names, k);
    LeqTotal(names[k], names[k]);
    var r := nodeRegions[names[k]];
    if r in firsts {
      var i :| 0 <= i < k && names[i] == firsts[r];
      assert Leq(names[i], names[k]);
    }
  }

  /** `select_sentinels`: for every region, in order, the first of its nodes. */
  method SelectSentinels(nodeRegions: map<string, string>) returns (sentinels: seq<string>)
    ensures |sentinels| == |nodeRegions.Values|
    ensures forall i :: 0 <= i < |sentinels| ==> IsFirstOf(nodeRegions, sentinels[i], Sorted(nodeRegions.Values)[i])
  {
    SortedAscending(nodeRegions.Keys);
    var firsts := FirstNames(nodeRegions, Sorted(nodeRegions.Keys));
    var regions := Sorted(nodeRegions.Values);
    forall i | 0 <= i < |regions| ensures regions[i] in firsts && IsFirstOf(nodeRegions, firsts[regions[i]], regions[i]) {
      assert regions[i] in regions;
      FirstIs(nodeRegions, firsts, regions[i]);
    }
    sentinels := InOrder(firsts, regions);
  }

  method InOrder(firsts: map<string, string>, regions: seq<string>) returns (r: seq<string>)
    requires forall i :: 0 <= i < |regions| ==> regions[i] in firsts
    ensures |r| == |regions| && forall i :: 0 <= i < |r| ==> r[i] == firsts[regions[i]]
  {
    r := [];
    for k := 0 to |regions|
      invariant |r| == k && forall i :: 0 <= i < k ==> r[i] == firsts[regions[i]]
    {
      r := r + [firsts[regions[k]]];
    }
  }

  lemma FirstIs(nodeRegions: map<string, string>, firsts: map<string, string>, region: string)
    requires Firsts(nodeRegions, Sorted(nodeRegions.Keys), firsts) && region in nodeRegions.Values
    ensures region in firsts && IsFirstOf(nodeRegions, firsts[region], region)
  {
    var n :| n in nodeRegions && nodeRegions[n] == region;
    assert n in Sorted(nodeRegions.Keys);
  }

  ghost predicate IsFirstOf(nodeRegions: map<string, string>, name: string, region: string) {
    name in nodeRegions && nodeRegions[name] == region && forall n :: n in nodeRegions && nodeRegions[n] == region ==> Leq(name, n)
  }
}
