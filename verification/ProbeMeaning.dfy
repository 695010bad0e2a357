/** What the counters of a sweep say about the answers the nodes gave. */
module ProbeMeaning {
  import opened ProbeEvidence
  import opened ProbeSharding
  import opened EndpointBlockage

  /** Region and endpoint tables of the rows; `row.get("endpoints", {})`. */
  function StatsOf(regions: map<string, Row>): RegionStats { map r | r in regions :: regions[r].endpoints }

  predicate Counted(m: map<string, Stats>, e: string) { e in m && m[e].probed >= 1 }

  predicate ReachedIn(m: map<string, Stats>, e: string) { e in m && m[e].reached > 0 }

  predicate PassedIn(m: map<string, Stats>, e: string) { e in m && m[e].passed > 0 }

  ghost predicate Probes(results: seq<ProbeResult>, e: string) { exists q :: q in results && q.probe == e }

  ghost predicate Reaches(results: seq<ProbeResult>, e: string) { exists q :: q in results && q.probe == e && IsStatus(q.outcome) }

  ghost predicate Passes(results: seq<ProbeResult>, e: string) { exists q :: q in results && q.probe == e && q.passed }

  lemma JoinMeaning(a: map<string, Stats>, b: map<string, Stats>, e: string)
    ensures Counted(JoinStats(a, b), e) <==> Counted(a, e) || Counted(b, e)
    ensures ReachedIn(JoinStats(a, b), e) <==> ReachedIn(a, e) || ReachedIn(b, e)
    ensures PassedIn(JoinStats(a, b), e) <==> PassedIn(a, e) || PassedIn(b, e)
  {
  }

  lemma {:induction false} ResultsMeaning(results: seq<ProbeResult>, e: string)
    ensures Counted(EndpointsOf(results), e) <==> Probes(results, e)
    ensures ReachedIn(EndpointsOf(results), e) <==> Reaches(results, e)
    ensures PassedIn(EndpointsOf(results), e) <==> Passes(results, e)
  {
    if results != [] {
      var k := |results| - 1;
      var last := results[k];
      assert results == results[..k] + [last];
      ResultsMeaning(results[..k], e);
      JoinMeaning(EndpointsOf(results[..k]), map[last.probe := ResultStats(last)], e);
    }
  }

  /** The endpoints counted in a region, none when the region is not listed. */
  function RegionOf(stats: RegionStats, r: string): map<string, Stats> { if r in stats then stats[r] else map[] }

  ghost predicate SomeProbes(entries: seq<Entry>, node: Oracle, r: string, e: string) {
    exists x :: x in entries && x.region == r && Probes(ResultsOf(node(x.name)), e)
  }

  ghost predicate SomeReaches(entries: seq<Entry>, node: Oracle, r: string, e: string) {
    exists x :: x in entries && x.region == r && Reaches(ResultsOf(node(x.name)), e)
  }

  ghost predicate SomePasses(entries: seq<Entry>, node: Oracle, r: string, e: string) {
    exists x :: x in entries && x.region == r && Passes(ResultsOf(node(x.name)), e)
  }

  lemma RowsMeaning(a: map<string, Row>, region: string, row: Row, r: string)
    ensures RegionOf(StatsOf(JoinRows(a, map[region := row])), r)
         == if r == region then JoinStats(RegionOf(StatsOf(a), r), row.endpoints) else RegionOf(StatsOf(a), r)
  {
    assert JoinStats(map[], row.endpoints) == row.endpoints;
  }

  /** The counters of the sum over the entries say exactly what some entry's answers were. */
  lemma {:induction false} TotalMeaning(entries: seq<Entry>, node: Oracle, r: string, e: string)
    ensures var m := RegionOf(StatsOf(Total(entries, node).regions), r);
            && (Counted(m, e) <==> SomeProbes(entries, node, r, e))
            && (ReachedIn(m, e) <==> SomeReaches(entries, node, r, e))
            && (PassedIn(m, e) <==> SomePasses(entries, node, r, e))
  {
    if entries != [] {
      var k := |entries| - 1;
      var last := entries[k];
      assert entries == entries[..k] + [last];
      TotalMeaning(entries[..k], node, r, e);
      var before, row := Total(entries[..k], node).regions, NodeRow(node(last.name));
      RowsMeaning(before, last.region, row, r);
      ResultsMeaning(ResultsOf(node(last.name)), e);
      JoinMeaning(RegionOf(StatsOf(before), r), row.endpoints, e);
    }
  }

  // ----- the verdict in terms of the answers -----

  /** The regions in which some node was probed at the endpoint. */
  ghost function RegionsProbed(entries: seq<Entry>, node: Oracle, e: string): set<string> {
    set x | x in entries && Probes(ResultsOf(node(x.name)), e) :: x.region
  }

  /** No node got an HTTP answer, two regions at least were probed, and the control worked in each of them. */
  ghost predicate BlackedOut(entries: seq<Entry>, node: Oracle, e: string, control: set<string>) {
    && Unanswered(entries, node, e)
    && |RegionsProbed(entries, node, e)| >= MIN_REGIONS && RegionsProbed(entries, node, e) <= control
  }

  lemma ProbedMeaning(entries: seq<Entry>, node: Oracle, e: string)
    ensures ProbedRegions(StatsOf(Total(entries, node).regions), e) == RegionsProbed(entries, node, e)
  {
    var stats := StatsOf(Total(entries, node).regions);
    forall r ensures r in ProbedRegions(stats, e) <==> r in RegionsProbed(entries, node, e) { TotalMeaning(entries, node, r, e); }
  }

  lemma TotalStatsConsistent(entries: seq<Entry>, node: Oracle)
    ensures StatsConsistent(StatsOf(Total(entries, node).regions))
  {
    TotalConsistent(entries, node);
  }

  ghost predicate NoneReached(stats: RegionStats, e: string) { forall r :: !ReachedIn(RegionOf(stats, r), e) }

  /** No node got an HTTP answer from the endpoint. */
  ghost predicate Unanswered(entries: seq<Entry>, node: Oracle, e: string) {
    forall x :: x in entries ==> !Reaches(ResultsOf(node(x.name)), e)
  }

  /** No region counts an answer from the endpoint exactly when no node got one. */
  lemma UnreachedMeaning(entries: seq<Entry>, node: Oracle, e: string)
    ensures NoneReached(StatsOf(Total(entries, node).regions), e) <==> Unanswered(entries, node, e)
  {
    var stats := StatsOf(Total(entries, node).regions);
    forall r ensures ReachedIn(RegionOf(stats, r), e) <==> SomeReaches(entries, node, r, e) { TotalMeaning(entries, node, r, e); }
    if Unanswered(entries, node, e) {
      forall r ensures !ReachedIn(RegionOf(stats, r), e) { assert !SomeReaches(entries, node, r, e); }
    }
    if NoneReached(stats, e) {
      forall x | x in entries ensures !Reaches(ResultsOf(node(x.name)), e) {
        assert !ReachedIn(RegionOf(stats, x.region), e);
        assert !SomeReaches(entries, node, x.region, e);
      }
    }
  }

  /** On consistent counters an endpoint nobody reached is one no probed region reached. */
  lemma BlockedMeaning(stats: RegionStats, e: string, control: set<string>)
    requires StatsConsistent(stats)
    ensures Blocked(stats, e, control)
            <==> && NoneReached(stats, e)
                 && |ProbedRegions(stats, e)| >= MIN_REGIONS && ProbedRegions(stats, e) <= control
  {
    forall r | r in stats && e in stats[r] && stats[r][e].reached > 0 ensures r in ProbedRegions(stats, e) {
      assert Consistent(stats[r][e]);
    }
    if NoneReached(stats, e) {
      forall r | r in ProbedRegions(stats, e) ensures stats[r][e].reached == 0 { assert !ReachedIn(RegionOf(stats, r), e); }
    }
  }

  /** The five guards, run over the counters of a sweep, say exactly that the endpoint was blacked out. */
  lemma FlaggedExactly(entries: seq<Entry>, node: Oracle, e: string, control: set<string>)
    ensures Flagged(StatsOf(Total(entries, node).regions), e, control) <==> BlackedOut(entries, node, e, control)
  {
    var stats := StatsOf(Total(entries, node).regions);
    TotalStatsConsistent(entries, node);
    VerdictMeaning(stats, e, control);
    BlockedMeaning(stats, e, control);
    ProbedMeaning(entries, node, e);
    UnreachedMeaning(entries, node, e);
  }
}
