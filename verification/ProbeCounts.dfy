/** The counters of a sweep as numbers of answers. */
module ProbeCounts {
  import opened Sifting
  import opened ProbeEvidence
  import opened ProbeSharding

  // ----- one endpoint of one region -----

  /** What one result adds to a counter. */
  type Weight = ProbeResult -> nat

  function Always(q: ProbeResult): nat { 1 }

  function IfPassed(q: ProbeResult): nat { if q.passed then 1 else 0 }

  function IfFailed(q: ProbeResult): nat { if q.passed then 0 else 1 }

  function IfStatus(q: ProbeResult): nat { if "status_" <= q.outcome then 1 else 0 }

  function IfNetwork(q: ProbeResult): nat { if "status_" <= q.outcome then 0 else 1 }

  function IfOutcome(o: string): Weight { (q: ProbeResult) => if q.outcome == o then 1 else 0 }

  /** The weights of the results at one endpoint, added up. */
  ghost function Weigh(results: seq<ProbeResult>, e: string, w: Weight): nat { Over(results, (q: ProbeResult) => if q.probe == e then w(q) else 0) }

  /** And over the nodes probed in one region. */
  ghost function WeighRegion(entries: seq<Entry>, node: Oracle, r: string, e: string, w: Weight): nat {
    Over(entries, (x: Entry) => WeighNode(x, node, r, e, w))
  }

  ghost function WeighNode(x: Entry, node: Oracle, r: string, e: string, w: Weight): nat {
    if x.region == r then Weigh(ResultsOf(node(x.name)), e, w) else 0
  }

  /** A counter that merging adds up. */
  ghost predicate Adds(f: Stats -> nat) { forall a, b :: f(AddStats(a, b)) == f(a) + f(b) }

  function At(m: map<string, Stats>, e: string, f: Stats -> nat): nat { if e in m then f(m[e]) else 0 }

  lemma JoinAt(m: map<string, Stats>, n: map<string, Stats>, e: string, f: Stats -> nat)
    requires Adds(f)
    ensures At(JoinStats(m, n), e, f) == At(m, e, f) + At(n, e, f)
  {
  }

  lemma {:induction false} ResultsAt(results: seq<ProbeResult>, e: string, f: Stats -> nat, w: Weight)
    requires Adds(f) && forall q :: f(ResultStats(q)) == w(q)
    ensures At(EndpointsOf(results), e, f) == Weigh(results, e, w)
  {
    if results != [] {
      var k := |results| - 1;
      var last := results[k];
      assert results == results[..k] + [last];
      ResultsAt(results[..k], e, f, w);
      JoinAt(EndpointsOf(results[..k]), map[last.probe := ResultStats(last)], e, f);
      OverSnoc(results[..k], last, (q: ProbeResult) => if q.probe == e then w(q) else 0);
    }
  }

  function EndpointsIn(rows: map<string, Row>, r: string): map<string, Stats> { if r in rows then rows[r].endpoints else map[] }

  lemma JoinRow(rows: map<string, Row>, region: string, row: Row, r: string)
    ensures EndpointsIn(JoinRows(rows, map[region := row]), r) == if r == region then JoinStats(EndpointsIn(rows, r), row.endpoints) else EndpointsIn(rows, r)
  {
    assert JoinStats(map[], row.endpoints) == row.endpoints;
  }

  lemma {:induction false} TotalAt(entries: seq<Entry>, node: Oracle, r: string, e: string, f: Stats -> nat, w: Weight)
    requires Adds(f) && forall q :: f(ResultStats(q)) == w(q)
    ensures At(EndpointsIn(Total(entries, node).regions, r), e, f) == WeighRegion(entries, node, r, e, w)
  {
    if entries != [] {
      var k := |entries| - 1;
      var last := entries[k];
      assert entries == entries[..k] + [last];
      TotalAt(entries[..k], node, r, e, f, w);
      var before := Total(entries[..k], node).regions;
      JoinRow(before, last.region, NodeRow(node(last.name)), r);
      JoinAt(EndpointsIn(before, r), EndpointsOf(ResultsOf(node(last.name))), e, f);
      ResultsAt(ResultsOf(node(last.name)), e, f, w);
      OverSnoc(entries[..k], last, (x: Entry) => WeighNode(x, node, r, e, w));
    }
  }

  /** The six counters of an endpoint in a region count its results there: all, passed, failed, answered, unanswered, and each outcome. */
  lemma CountersExactly(entries: seq<Entry>, node: Oracle, r: string, e: string)
    ensures var m := EndpointsIn(Total(entries, node).regions, r);
            && At(m, e, (s: Stats) => s.probed) == WeighRegion(entries, node, r, e, Always)
            && At(m, e, (s: Stats) => s.passed) == WeighRegion(entries, node, r, e, IfPassed)
            && At(m, e, (s: Stats) => s.failed) == WeighRegion(entries, node, r, e, IfFailed)
            && At(m, e, (s: Stats) => s.reached) == WeighRegion(entries, node, r, e, IfStatus)
            && At(m, e, (s: Stats) => s.networkFailure) == WeighRegion(entries, node, r, e, IfNetwork)
  {
    TotalAt(entries, node, r, e, (s: Stats) => s.probed, Always);
    TotalAt(entries, node, r, e, (s: Stats) => s.passed, IfPassed);
    TotalAt(entries, node, r, e, (s: Stats) => s.failed, IfFailed);
    TotalAt(entries, node, r, e, (s: Stats) => s.reached, IfStatus);
    TotalAt(entries, node, r, e, (s: Stats) => s.networkFailure, IfNetwork);
  }

  function Times(m: map<string, nat>, o: string): nat { if o in m then m[o] else 0 }

  lemma OutcomesExactly(entries: seq<Entry>, node: Oracle, r: string, e: string, o: string)
    ensures At(EndpointsIn(Total(entries, node).regions, r), e, (s: Stats) => Times(s.outcomes, o)) == WeighRegion(entries, node, r, e, IfOutcome(o))
  {
    TotalAt(entries, node, r, e, (s: Stats) => Times(s.outcomes, o), IfOutcome(o));
  }

  // ----- the rows and the totals -----

  function IsIn(x: Entry, r: string): nat { if x.region == r then 1 else 0 }

  function PassesIn(x: Entry, node: Oracle, r: string): nat { if x.region == r && Passed(node(x.name)) then 1 else 0 }

  function Unanswered(x: Entry, node: Oracle): nat { if node(x.name).Unselected? then 1 else 0 }

  function TestedIn(rows: map<string, Row>, r: string): nat { if r in rows then rows[r].tested else 0 }

  function QualifiedIn(rows: map<string, Row>, r: string): nat { if r in rows then rows[r].qualified else 0 }

  /** Every node counts once in its region, once more there when it passed, and among the failures when its probe never ran. */
  lemma {:induction false} RowsExactly(entries: seq<Entry>, node: Oracle, r: string)
    ensures var t := Total(entries, node);
            && t.tested == |entries| && t.selectorFailures == Over(entries, (x: Entry) => Unanswered(x, node))
            && TestedIn(t.regions, r) == Over(entries, (x: Entry) => IsIn(x, r))
            && QualifiedIn(t.regions, r) == Over(entries, (x: Entry) => PassesIn(x, node, r))
  {
    if entries != [] {
      var k := |entries| - 1;
      var init, last := entries[..k], entries[k];
      assert entries == init + [last];
      RowsExactly(init, node, r);
      OverSnoc(init, last, (x: Entry) => Unanswered(x, node));
      OverSnoc(init, last, (x: Entry) => IsIn(x, r));
      OverSnoc(init, last, (x: Entry) => PassesIn(x, node, r));
    }
  }

  // ----- the tallies of the probes -----

  ghost predicate AddsTallies(f: Tally -> nat) { forall a, b :: f(AddTally(a, b)) == f(a) + f(b) }

  function TallyAt(m: map<string, Tally>, e: string, f: Tally -> nat): nat { if e in m then f(m[e]) else 0 }

  lemma JoinTallyAt(m: map<string, Tally>, n: map<string, Tally>, e: string, f: Tally -> nat)
    requires AddsTallies(f)
    ensures TallyAt(JoinTallies(m, n), e, f) == TallyAt(m, e, f) + TallyAt(n, e, f)
  {
  }

  lemma {:induction false} TallyResults(results: seq<ProbeResult>, e: string, f: Tally -> nat, w: Weight)
    requires AddsTallies(f) && forall q :: f(ResultTally(q)) == w(q)
    ensures TallyAt(TalliesOf(results), e, f) == Weigh(results, e, w)
  {
    if results != [] {
      var k := |results| - 1;
      var last := results[k];
      assert results == results[..k] + [last];
      TallyResults(results[..k], e, f, w);
      JoinTallyAt(TalliesOf(results[..k]), map[last.probe := ResultTally(last)], e, f);
      OverSnoc(results[..k], last, (q: ProbeResult) => if q.probe == e then w(q) else 0);
    }
  }

  ghost function WeighAll(entries: seq<Entry>, node: Oracle, e: string, w: Weight): nat {
    Over(entries, (x: Entry) => Weigh(ResultsOf(node(x.name)), e, w))
  }

  lemma {:induction false} TallyTotal(entries: seq<Entry>, node: Oracle, e: string, f: Tally -> nat, w: Weight)
    requires AddsTallies(f) && forall q :: f(ResultTally(q)) == w(q)
    ensures TallyAt(Total(entries, node).probes, e, f) == WeighAll(entries, node, e, w)
  {
    if entries != [] {
      var k := |entries| - 1;
      var last := entries[k];
      assert entries == entries[..k] + [last];
      TallyTotal(entries[..k], node, e, f, w);
      JoinTallyAt(Total(entries[..k], node).probes, TalliesOf(ResultsOf(node(last.name))), e, f);
      TallyResults(ResultsOf(node(last.name)), e, f, w);
      OverSnoc(entries[..k], last, (x: Entry) => Weigh(ResultsOf(node(x.name)), e, w));
    }
  }

  /** The tally of a probe counts its results over all nodes. */
  lemma TalliesExactly(entries: seq<Entry>, node: Oracle, e: string, o: string)
    ensures var m := Total(entries, node).probes;
            && TallyAt(m, e, (t: Tally) => t.passed) == WeighAll(entries, node, e, IfPassed)
            && TallyAt(m, e, (t: Tally) => t.failed) == WeighAll(entries, node, e, IfFailed)
            && TallyAt(m, e, (t: Tally) => Times(t.outcomes, o)) == WeighAll(entries, node, e, IfOutcome(o))
  {
    TallyTotal(entries, node, e, (t: Tally) => t.passed, IfPassed);
    TallyTotal(entries, node, e, (t: Tally) => t.failed, IfFailed);
    TallyTotal(entries, node, e, (t: Tally) => Times(t.outcomes, o), IfOutcome(o));
  }
}
