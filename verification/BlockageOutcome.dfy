/** The five guards and the dominant outcome on any counters, as the check counts them. */
module BlockageOutcome {
  import opened Ordering
  import opened Sifting
  import opened ProbeEvidence
  import opened EndpointBlockage

  /** The counters of an endpoint in a region, if it was probed there. */
  ghost predicate Probed(stats: RegionStats, e: string, r: string) { r in stats && e in stats[r] && stats[r][e].probed >= 1 }

  /** The regions that probed the endpoint, and those of them that count a network failure. */
  ghost predicate Regions(stats: RegionStats, e: string, probed: set<string>, failing: set<string>) {
    && (forall r :: r in probed <==> Probed(stats, e, r))
    && forall r :: r in failing <==> Probed(stats, e, r) && stats[r][e].networkFailure > 0
  }

  /** An endpoint is flagged when nothing reached it, two regions probed it, two failed, and two controls worked, one in every failing region. */
  lemma GuardsExactly(stats: RegionStats, e: string, control: set<string>, probed: set<string>, failing: set<string>)
    requires Regions(stats, e, probed, failing)
    ensures Flagged(stats, e, control)
            <==> && (forall r :: r in probed ==> stats[r][e].reached == 0)
                 && |probed| >= 2 && |failing| >= 2 && failing <= control && |control| >= 2
  {
    assert probed == ProbedRegions(stats, e);
    assert failing == FailingIn(stats, e, Sorted(stats.Keys));
  }

  lemma {:induction false} FlaggedInOrder(critical: seq<string>, stats: RegionStats, control: set<string>)
    ensures Sifted(critical, (e: string) => Flagged(stats, e, control), FlaggedOf(critical, stats, control))
  {
    var keep := (e: string) => Flagged(stats, e, control);
    if critical == [] {
      SiftedEmpty(keep);
    } else {
      var k := |critical| - 1;
      assert critical == critical[..k] + [critical[k]];
      FlaggedInOrder(critical[..k], stats, control);
      SiftedSnoc(critical[..k], critical[k], keep, FlaggedOf(critical[..k], stats, control));
    }
  }

  // ----- the network outcomes -----

  function Times(m: Outcomes, o: string): nat { if o in m then m[o] else 0 }

  /** How often an endpoint counts the outcome in a region; HTTP statuses do not count. */
  function CountIn(stats: RegionStats, r: string, e: string, o: string): nat {
    if "status_" <= o || r !in stats || e !in stats[r] then 0 else Times(stats[r][e].outcomes, o)
  }

  ghost function CountOver(stats: RegionStats, regions: seq<string>, e: string, o: string): nat { Over(regions, (r: string) => CountIn(stats, r, e, o)) }

  lemma {:induction false} EndpointExactly(stats: RegionStats, regions: seq<string>, e: string, o: string)
    ensures Times(OutcomesOver(stats, regions, e), o) == CountOver(stats, regions, e, o)
  {
    if regions != [] {
      var k := |regions| - 1;
      assert regions == regions[..k] + [regions[k]];
      EndpointExactly(stats, regions[..k], e, o);
      OverSnoc(regions[..k], regions[k], (r: string) => CountIn(stats, r, e, o));
    }
  }

  /** The outcomes compared are counted over the blocked endpoints and all regions. */
  lemma {:induction false} NetworkExactly(stats: RegionStats, regions: seq<string>, endpoints: seq<string>, o: string)
    ensures Times(NetworkCounts(stats, regions, endpoints), o) == Over(endpoints, (e: string) => CountOver(stats, regions, e, o))
  {
    if endpoints != [] {
      var k := |endpoints| - 1;
      assert endpoints == endpoints[..k] + [endpoints[k]];
      NetworkExactly(stats, regions, endpoints[..k], o);
      EndpointExactly(stats, regions, endpoints[k], o);
      OverSnoc(endpoints[..k], endpoints[k], (e: string) => CountOver(stats, regions, e, o));
    }
  }

  /** The dominant outcome is counted at least as often as any other, and strictly more often than any before it in order. */
  lemma DominantExactly(stats: RegionStats, endpoints: seq<string>, best: string, o: string)
    requires IsDominant(NetworkCounts(stats, Sorted(stats.Keys), endpoints), best)
    requires o in NetworkCounts(stats, Sorted(stats.Keys), endpoints)
    ensures var count := (x: string) => Over(endpoints, (e: string) => CountOver(stats, Sorted(stats.Keys), e, x));
            count(o) < count(best) || (count(o) == count(best) && Leq(best, o))
  {
    NetworkExactly(stats, Sorted(stats.Keys), endpoints, best);
    NetworkExactly(stats, Sorted(stats.Keys), endpoints, o);
  }
}
