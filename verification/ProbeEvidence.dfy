/** Counters of AI probe evidence: recording a node, and merging one diagnostics object into another. */
module ProbeEvidence {
  import opened Ordering

  // ----- keyed sums -----

  /** Adds two keyed tables, key by key. */
  function Join<V(!new)>(m: map<string, V>, n: map<string, V>, add: (V, V) -> V): map<string, V> {
    map k | k in m.Keys + n.Keys :: if k !in m then n[k] else if k !in n then m[k] else add(m[k], n[k])
  }

  ghost predicate Commutes<V(!new)>(add: (V, V) -> V) { forall a, b :: add(a, b) == add(b, a) }

  ghost predicate Associates<V(!new)>(add: (V, V) -> V) { forall a, b, c :: add(add(a, b), c) == add(a, add(b, c)) }

  lemma JoinCommutes<V(!new)>(m: map<string, V>, n: map<string, V>, add: (V, V) -> V)
    requires Commutes(add)
    ensures Join(m, n, add) == Join(n, m, add)
  {
  }

  lemma JoinAssociates<V(!new)>(a: map<string, V>, b: map<string, V>, c: map<string, V>, add: (V, V) -> V)
    requires Associates(add)
    ensures Join(Join(a, b, add), c, add) == Join(a, Join(b, c, add), add)
  {
    var l, r := Join(Join(a, b, add), c, add), Join(a, Join(b, c, add), add);
    assert l.Keys == r.Keys;
    forall k | k in l ensures l[k] == r[k] {}
  }

  // ----- counters -----

  type Outcomes = map<string, nat>

  function Plus(a: nat, b: nat): nat { a + b }

  function JoinCounts(m: map<string, nat>, n: map<string, nat>): map<string, nat> { Join(m, n, Plus) }

  lemma JoinCountsCommutes(m: map<string, nat>, n: map<string, nat>)
    ensures JoinCounts(m, n) == JoinCounts(n, m)
  {
    JoinCommutes(m, n, Plus);
  }

  lemma JoinCountsAssociates(a: map<string, nat>, b: map<string, nat>, c: map<string, nat>)
    ensures JoinCounts(JoinCounts(a, b), c) == JoinCounts(a, JoinCounts(b, c))
  {
    JoinAssociates(a, b, c, Plus);
  }

  datatype Stats = Stats(probed: nat, passed: nat, failed: nat, reached: nat, networkFailure: nat, outcomes: Outcomes)

  function AddStats(a: Stats, b: Stats): Stats {
    Stats(a.probed + b.probed, a.passed + b.passed, a.failed + b.failed, a.reached + b.reached,
          a.networkFailure + b.networkFailure, JoinCounts(a.outcomes, b.outcomes))
  }

  function JoinStats(m: map<string, Stats>, n: map<string, Stats>): map<string, Stats> { Join(m, n, AddStats) }

  datatype Row = Row(tested: nat, qualified: nat, endpoints: map<string, Stats>)

  function AddRow(a: Row, b: Row): Row {
    Row(a.tested + b.tested, a.qualified + b.qualified, JoinStats(a.endpoints, b.endpoints))
  }

  function JoinRows(m: map<string, Row>, n: map<string, Row>): map<string, Row> { Join(m, n, AddRow) }

  datatype Tally = Tally(passed: nat, failed: nat, outcomes: Outcomes)

  const NO_TALLY := Tally(0, 0, map[])

  function AddTally(a: Tally, b: Tally): Tally {
    Tally(a.passed + b.passed, a.failed + b.failed, JoinCounts(a.outcomes, b.outcomes))
  }

  function JoinTallies(m: map<string, Tally>, n: map<string, Tally>): map<string, Tally> { Join(m, n, AddTally) }

  datatype Summary = Summary(tested: nat, qualified: nat, selectorFailures: nat, regions: map<string, Row>, probes: map<string, Tally>)

  function AddSummary(a: Summary, b: Summary): Summary {
    Summary(a.tested + b.tested, a.qualified + b.qualified, a.selectorFailures + b.selectorFailures,
            JoinRows(a.regions, b.regions), JoinTallies(a.probes, b.probes))
  }

  const ZERO := Summary(0, 0, 0, map[], map[])

  lemma StatsMonoid()
    ensures Commutes(AddStats) && Associates(AddStats)
  {
    forall a, b ensures AddStats(a, b) == AddStats(b, a) { JoinCountsCommutes(a.outcomes, b.outcomes); }
    forall a, b, c ensures AddStats(AddStats(a, b), c) == AddStats(a, AddStats(b, c)) {
      JoinCountsAssociates(a.outcomes, b.outcomes, c.outcomes);
    }
  }

  lemma TallyMonoid()
    ensures Commutes(AddTally) && Associates(AddTally)
  {
    forall a, b ensures AddTally(a, b) == AddTally(b, a) { JoinCountsCommutes(a.outcomes, b.outcomes); }
    forall a, b, c ensures AddTally(AddTally(a, b), c) == AddTally(a, AddTally(b, c)) {
      JoinCountsAssociates(a.outcomes, b.outcomes, c.outcomes);
    }
  }

  lemma JoinStatsCommutes(m: map<string, Stats>, n: map<string, Stats>)
    ensures JoinStats(m, n) == JoinStats(n, m)
  {
    StatsMonoid();
    JoinCommutes(m, n, AddStats);
  }

  lemma JoinStatsAssociates(a: map<string, Stats>, b: map<string, Stats>, c: map<string, Stats>)
    ensures JoinStats(JoinStats(a, b), c) == JoinStats(a, JoinStats(b, c))
  {
    StatsMonoid();
    JoinAssociates(a, b, c, AddStats);
  }

  lemma JoinTalliesCommutes(m: map<string, Tally>, n: map<string, Tally>)
    ensures JoinTallies(m, n) == JoinTallies(n, m)
  {
    TallyMonoid();
    JoinCommutes(m, n, AddTally);
  }

  lemma JoinTalliesAssociates(a: map<string, Tally>, b: map<string, Tally>, c: map<string, Tally>)
    ensures JoinTallies(JoinTallies(a, b), c) == JoinTallies(a, JoinTallies(b, c))
  {
    TallyMonoid();
    JoinAssociates(a, b, c, AddTally);
  }

  lemma RowMonoid()
    ensures Commutes(AddRow) && Associates(AddRow)
  {
    StatsMonoid();
    forall a, b ensures AddRow(a, b) == AddRow(b, a) { JoinStatsCommutes(a.endpoints, b.endpoints); }
    forall a, b, c ensures AddRow(AddRow(a, b), c) == AddRow(a, AddRow(b, c)) {
      JoinStatsAssociates(a.endpoints, b.endpoints, c.endpoints);
    }
  }

  lemma JoinRowsCommutes(m: map<string, Row>, n: map<string, Row>)
    ensures JoinRows(m, n) == JoinRows(n, m)
  {
    RowMonoid();
    JoinCommutes(m, n, AddRow);
  }

  lemma JoinRowsAssociates(a: map<string, Row>, b: map<string, Row>, c: map<string, Row>)
    ensures JoinRows(JoinRows(a, b), c) == JoinRows(a, JoinRows(b, c))
  {
    RowMonoid();
    JoinAssociates(a, b, c, AddRow);
  }

  lemma MergeCommutes(a: Summary, b: Summary)
    ensures AddSummary(a, b) == AddSummary(b, a)
  {
    JoinRowsCommutes(a.regions, b.regions);
    JoinTalliesCommutes(a.probes, b.probes);
  }

  lemma MergeAssociates(a: Summary, b: Summary, c: Summary)
    ensures AddSummary(AddSummary(a, b), c) == AddSummary(a, AddSummary(b, c))
  {
    JoinRowsAssociates(a.regions, b.regions, c.regions);
    JoinTalliesAssociates(a.probes, b.probes, c.probes);
  }

  lemma MergeZero(a: Summary)
    ensures AddSummary(a, ZERO) == a && AddSummary(ZERO, a) == a
  {
    assert JoinRows(a.regions, map[]) == a.regions && JoinTallies(a.probes, map[]) == a.probes;
    assert JoinRows(map[], a.regions) == a.regions && JoinTallies(map[], a.probes) == a.probes;
  }

  // ----- what one node adds -----

  datatype ProbeResult = ProbeResult(probe: string, passed: bool, outcome: string)

  /** What a runner saw of one node: its selector refused it, or its probe results and the verdict on them. */
  datatype Observation = Unselected | Observed(passed: bool, results: seq<ProbeResult>)

  type Oracle = string -> Observation

  function ResultsOf(o: Observation): seq<ProbeResult> { if o.Observed? then o.results else [] }

  function Passed(o: Observation): bool { o.Observed? && o.passed }

  /** `str.startswith("status_")`: some HTTP answer came back. */
  predicate IsStatus(outcome: string) { "status_" <= outcome }

  function One(b: bool): nat { if b then 1 else 0 }

  function ResultStats(r: ProbeResult): Stats {
    Stats(1, One(r.passed), One(!r.passed), One(IsStatus(r.outcome)), One(!IsStatus(r.outcome)), map[r.outcome := 1])
  }

  function ResultTally(r: ProbeResult): Tally { Tally(One(r.passed), One(!r.passed), map[r.outcome := 1]) }

  function EndpointsOf(results: seq<ProbeResult>): map<string, Stats> {
    if results == [] then map[]
    else
      var k := |results| - 1;
      JoinStats(EndpointsOf(results[..k]), map[results[k].probe := ResultStats(results[k])])
  }

  function TalliesOf(results: seq<ProbeResult>): map<string, Tally> {
    if results == [] then map[]
    else
      var k := |results| - 1;
      JoinTallies(TalliesOf(results[..k]), map[results[k].probe := ResultTally(results[k])])
  }

  function NodeRow(o: Observation): Row { Row(1, One(Passed(o)), EndpointsOf(ResultsOf(o))) }

  function RowsOf(region: string, payload: seq<string>, node: Oracle): map<string, Row> {
    if payload == [] then map[]
    else
      var k := |payload| - 1;
      JoinRows(RowsOf(region, payload[..k], node), map[region := NodeRow(node(payload[k]))])
  }

  /** Nodes of the payload that pass. */
  function Qualified(payload: seq<string>, node: Oracle): set<string> { set n | n in payload && Passed(node(n)) }

  // ----- the diagnostics object -----

  class Diagnostics {
    var tested: nat
    var qualified: nat
    var selectorFailures: nat
    var regions: map<string, Row>
    var probes: map<string, Tally>

    ghost function Value(): Summary
      reads this
    {
      Summary(tested, qualified, selectorFailures, regions, probes)
    }

    /** `_new_diagnostics`: every probe with nothing counted yet. */
    constructor (names: set<string>)
      ensures Value() == New(names)
    {
      tested, qualified, selectorFailures := 0, 0, 0;
      regions := map[];
      probes := map n | n in names :: NO_TALLY;
    }

    /** One result added to the running statistics of its endpoint. */
    method RecordEndpoint(region: string, r: ProbeResult)
      requires region in regions
      modifies this`regions
      ensures regions == old(regions)[region := old(regions[region]).(endpoints :=
                           JoinStats(old(regions[region].endpoints), map[r.probe := ResultStats(r)]))]
    {
      var row := regions[region];
      var stats := if r.probe in row.endpoints then row.endpoints[r.probe] else Stats(0, 0, 0, 0, 0, map[]);
      stats := stats.(probed := stats.probed + 1);
      if r.passed { stats := stats.(passed := stats.passed + 1); } else { stats := stats.(failed := stats.failed + 1); }
      if IsStatus(r.outcome) {
        stats := stats.(reached := stats.reached + 1);
      } else {
        stats := stats.(networkFailure := stats.networkFailure + 1);
      }
      var count := if r.outcome in stats.outcomes then stats.outcomes[r.outcome] else 0;
      stats := stats.(outcomes := stats.outcomes[r.outcome := count + 1]);
      RecordedStats(row.endpoints, r, stats);
      regions := regions[region := row.(endpoints := row.endpoints[r.probe := stats])];
    }

    method RecordRegionResults(region: string, payload: seq<string>, qualifiedNames: set<string>, node: Oracle)
      requires qualifiedNames == Qualified(payload, node)
      modifies this`regions
      ensures regions == JoinRows(old(regions), RowsOf(region, payload, node))
    {
      ghost var before := regions;
      assert JoinRows(before, map[]) == before;
      for k := 0 to |payload|
        invariant regions == JoinRows(before, RowsOf(region, payload[..k], node))
      {
        assert payload[..k + 1][..k] == payload[..k];
        JoinRowsAssociates(before, RowsOf(region, payload[..k], node), map[region := NodeRow(node(payload[k]))]);
        RecordNode(region, payload[k], payload[k] in qualifiedNames, node(payload[k]));
      }
      assert payload[..|payload|] == payload;
    }

    method RecordNode(region: string, name: string, passes: bool, o: Observation)
      requires passes == Passed(o)
      modifies this`regions
      ensures regions == JoinRows(old(regions), map[region := NodeRow(o)])
    {
      ghost var before := regions;
      if region !in regions { regions := regions[region := Row(0, 0, map[])]; }
      var row := regions[region];
      row := row.(tested := row.tested + 1);
      if passes { row := row.(qualified := row.qualified + 1); }
      regions := regions[region := row];
      RecordResults(region, ResultsOf(o));
      RecordedRow(before, region, o);
    }

    method RecordResults(region: string, results: seq<ProbeResult>)
      requires region in regions
      modifies this`regions
      ensures regions == old(regions)[region := old(regions[region]).(endpoints :=
                           JoinStats(old(regions[region].endpoints), EndpointsOf(results)))]
    {
      ghost var before, row := regions, regions[region];
      assert results[..0] == [];
      assert JoinStats(row.endpoints, map[]) == row.endpoints;
      for k := 0 to |results|
        invariant regions == before[region := row.(endpoints := JoinStats(row.endpoints, EndpointsOf(results[..k])))]
      {
        assert results[..k + 1][..k] == results[..k];
        JoinStatsAssociates(row.endpoints, EndpointsOf(results[..k]), map[results[k].probe := ResultStats(results[k])]);
        RecordEndpoint(region, results[k]);
      }
      assert results[..|results|] == results;
    }

    method RecordProbe(r: ProbeResult)
      requires r.probe in probes
      modifies this`probes
      ensures probes == JoinTallies(old(probes), map[r.probe := ResultTally(r)])
    {
      var tally := probes[r.probe];
      if r.passed { tally := tally.(passed := tally.passed + 1); } else { tally := tally.(failed := tally.failed + 1); }
      var count := if r.outcome in tally.outcomes then tally.outcomes[r.outcome] else 0;
      tally := tally.(outcomes := tally.outcomes[r.outcome := count + 1]);
      RecordedTally(probes, r, tally);
      probes := probes[r.probe := tally];
    }

    /** `_record_probe_results`; a result of an unknown probe would raise. */
    method RecordProbeResults(results: seq<ProbeResult>)
      requires forall r :: r in results ==> r.probe in probes
      modifies this`probes
      ensures probes == JoinTallies(old(probes), TalliesOf(results))
    {
      ghost var before := probes;
      assert JoinTallies(before, map[]) == before;
      for k := 0 to |results|
        invariant probes == JoinTallies(before, TalliesOf(results[..k]))
      {
        TalliesStep(before, results, k);
        RecordProbe(results[k]);
      }
      assert results[..|results|] == results;
    }

    /** `_merge_diagnostics`: both objects count the same probes. */
    method Merge(source: Diagnostics)
      requires source != this && source.probes.Keys == probes.Keys
      modifies this
      ensures Value() == AddSummary(old(Value()), source.Value())
    {
      tested, qualified := tested + source.tested, qualified + source.qualified;
      selectorFailures := selectorFailures + source.selectorFailures;
      regions := MergeTable(regions, source.regions, AddRow);
      probes := MergeTable(probes, source.probes, AddTally);
    }

    method SetQualified(n: nat)
      modifies this`qualified
      ensures Value() == old(Value()).(qualified := n)
    {
      qualified := n;
    }
  }

  /** The entries of `m` under some of its keys. */
  ghost function Part<V>(m: map<string, V>, keys: seq<string>): map<string, V> { map k | k in m && k in keys :: m[k] }

  /** `setdefault` followed by an addition. */
  function Put<V(!new)>(m: map<string, V>, key: string, v: V, add: (V, V) -> V): map<string, V> {
    m[key := if key in m then add(m[key], v) else v]
  }

  lemma JoinStep<V(!new)>(target: map<string, V>, source: map<string, V>, keys: seq<string>, k: nat, add: (V, V) -> V)
    requires k < |keys| && NoDuplicates(keys) && keys[k] in source
    ensures var r, key := Join(target, Part(source, keys[..k]), add), keys[k];
            Join(target, Part(source, keys[..k + 1]), add) == Put(r, key, source[key], add)
  {
    TakeStep(keys, k);
    var key := keys[k];
    assert Part(source, keys[..k + 1]) == Part(source, keys[..k])[key := source[key]];
  }

  /** Key by key into the target, a missing key starting from nothing. */
  method MergeTable<V(!new)>(target: map<string, V>, source: map<string, V>, add: (V, V) -> V) returns (r: map<string, V>)
    ensures r == Join(target, source, add)
  {
    r := MergeKeys(target, source, Sorted(source.Keys), add);
  }

  /** The entries of `source` in the order of `keys`. */
  method MergeKeys<V(!new)>(target: map<string, V>, source: map<string, V>, keys: seq<string>, add: (V, V) -> V) returns (r: map<string, V>)
    requires NoDuplicates(keys) && forall x :: x in keys <==> x in source
    ensures r == Join(target, source, add)
  {
    r := target;
    PartEnds(target, source, keys, add);
    for k := 0 to |keys|
      invariant r == Join(target, Part(source, keys[..k]), add)
    {
      JoinStep(target, source, keys, k, add);
      r := Put(r, keys[k], source[keys[k]], add);
    }
  }

  lemma PartEnds<V(!new)>(target: map<string, V>, source: map<string, V>, keys: seq<string>, add: (V, V) -> V)
    requires forall x :: x in keys <==> x in source
    ensures Join(target, Part(source, keys[..0]), add) == target
    ensures Part(source, keys[..|keys|]) == source
  {
    assert keys[..|keys|] == keys;
  }

  lemma RecordedRow(regions: map<string, Row>, region: string, o: Observation)
    ensures var row := if region in regions then regions[region] else Row(0, 0, map[]);
            regions[region := Row(row.tested + 1, row.qualified + One(Passed(o)), JoinStats(row.endpoints, EndpointsOf(ResultsOf(o))))]
            == JoinRows(regions, map[region := NodeRow(o)])
  {
    assert JoinStats(map[], EndpointsOf(ResultsOf(o))) == EndpointsOf(ResultsOf(o));
  }

  function New(names: set<string>): Summary { Summary(0, 0, 0, map[], map n | n in names :: NO_TALLY) }

  lemma RecordedStats(endpoints: map<string, Stats>, r: ProbeResult, stats: Stats)
    requires var old_ := if r.probe in endpoints then endpoints[r.probe] else Stats(0, 0, 0, 0, 0, map[]);
             stats == Stats(old_.probed + 1, old_.passed + One(r.passed), old_.failed + One(!r.passed),
                            old_.reached + One(IsStatus(r.outcome)), old_.networkFailure + One(!IsStatus(r.outcome)),
                            old_.outcomes[r.outcome := (if r.outcome in old_.outcomes then old_.outcomes[r.outcome] else 0) + 1])
    ensures endpoints[r.probe := stats] == JoinStats(endpoints, map[r.probe := ResultStats(r)])
  {
    CountOne(if r.probe in endpoints then endpoints[r.probe].outcomes else map[], r.outcome);
  }

  lemma RecordedTally(probes: map<string, Tally>, r: ProbeResult, tally: Tally)
    requires r.probe in probes
    requires var old_ := probes[r.probe];
             tally == Tally(old_.passed + One(r.passed), old_.failed + One(!r.passed),
                            old_.outcomes[r.outcome := (if r.outcome in old_.outcomes then old_.outcomes[r.outcome] else 0) + 1])
    ensures probes[r.probe := tally] == JoinTallies(probes, map[r.probe := ResultTally(r)])
  {
    CountOne(probes[r.probe].outcomes, r.outcome);
  }

  lemma TalliesStep(probes: map<string, Tally>, results: seq<ProbeResult>, k: nat)
    requires k < |results|
    ensures JoinTallies(probes, TalliesOf(results[..k + 1]))
         == JoinTallies(JoinTallies(probes, TalliesOf(results[..k])), map[results[k].probe := ResultTally(results[k])])
  {
    TakeStep(results, k);
    JoinTalliesAssociates(probes, TalliesOf(results[..k]), map[results[k].probe := ResultTally(results[k])]);
  }

  lemma CountOne(outcomes: Outcomes, outcome: string)
    ensures outcomes[outcome := (if outcome in outcomes then outcomes[outcome] else 0) + 1] == JoinCounts(outcomes, map[outcome := 1])
  {
  }
}
