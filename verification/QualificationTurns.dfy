/**
 One turn of the AI service loop with its evidence: the cache decision, the sentinel gate, the live sweep and the
 post-sweep check. The verdict of a turn is what the blockage model makes of the answers the nodes gave.
 */
module QualificationTurns {
  import opened Results
  import opened Ordering
  import opened Sifting
  import opened ProbeEvidence
  import opened ProbeSharding
  import opened EndpointBlockage
  import opened ProbeMeaning
  import opened QualificationCache
  import opened QualificationRuns

  /** What the nodes answer to the sentinel probes, the control probe and the sweep, each at its own time. */
  datatype Answers = Answers(sentinel: Oracle, control: Oracle, sweep: Oracle)

  /**
   The AI payloads under their canonical regions, the fingerprint of every node in them, and one service:
   `critical` are the endpoints it is probed at, `guarded` says whether systemic failures are looked for, and
   `control` is the connectivity probe when one is declared.
   */
  datatype Turn = Turn(payloads: seq<Shard>, inventory: Inventory, service: string, ttls: Ttls, decided: int, updated: int,
                       critical: seq<string>, guarded: bool, control: Option<string>, answers: Answers)

  // ----- the nodes of a candidate -----

  /** The nodes of a payload that are among `names`, repetitions dropped. */
  function Chosen(payload: seq<string>, names: set<string>): (r: seq<string>)
    ensures forall n :: n in r <==> n in payload && n in names
  {
    if payload == [] then []
    else
      var k := |payload| - 1;
      assert payload == payload[..k] + [payload[k]];
      var init := Chosen(payload[..k], names);
      if payload[k] in names && payload[k] !in init then init + [payload[k]] else init
  }

  /** The first occurrences of the names wanted, in order. */
  lemma {:induction false} ChosenInOrder(payload: seq<string>, names: set<string>) returns (at: seq<nat>)
    ensures Increasing(at) && ReadAt(payload, at, Chosen(payload, names))
    ensures forall i: nat :: i in at <==> FirstAt(payload, i) && payload[i] in names
  {
    if payload == [] {
      at := [];
    } else {
      var k := |payload| - 1;
      assert payload == payload[..k] + [payload[k]];
      var init := ChosenInOrder(payload[..k], names);
      var taken := payload[k] in names && payload[k] !in Chosen(payload[..k], names);
      at := if taken then init + [k] else init;
      IncreasingSnoc(init, k);
      ReadAtMore(payload[..k], [payload[k]], init, Chosen(payload[..k], names));
      forall i: nat ensures i in at <==> FirstAt(payload, i) && payload[i] in names {
        InSnoc(init, k, i);
        assert i in init <==> FirstAt(payload[..k], i) && payload[..k][i] in names;
        if i < k {
          assert payload[..k][i] == payload[i] && forall j :: 0 <= j < i ==> payload[..k][j] == payload[j];
        } else if i == k {
          assert payload[k] in payload[..k] <==> exists j :: 0 <= j < k && payload[..k][j] == payload[k];
        }
      }
    }
  }

  function Filtered(payloads: seq<Shard>, names: set<string>): seq<Shard> {
    seq(|payloads|, i requires 0 <= i < |payloads| => Shard(payloads[i].region, Chosen(payloads[i].payload, names)))
  }

  function NamesIn(payloads: seq<Shard>): set<string> { set s, n | s in payloads && n in s.payload :: n }

  /** The last payload that lists the node. */
  ghost predicate LastListed(payloads: seq<Shard>, i: nat, n: string) {
    i < |payloads| && n in payloads[i].payload && forall j :: i < j < |payloads| ==> n !in payloads[j].payload
  }

  ghost predicate RegionFits(payloads: seq<Shard>, n: string, region: string) {
    exists i: nat :: LastListed(payloads, i, n) && payloads[i].region == region
  }

  /** Every node under the region of the last payload that lists it. */
  function NodeRegions(payloads: seq<Shard>): (m: map<string, string>)
    ensures m.Keys == NamesIn(payloads)
    ensures forall n :: n in m ==> RegionFits(payloads, n, m[n])
  {
    if payloads == [] then map[]
    else
      var k := |payloads| - 1;
      assert payloads == payloads[..k] + [payloads[k]];
      LastFits(payloads);
      NodeRegions(payloads[..k]) + map n | n in payloads[k].payload :: payloads[k].region
  }

  lemma LastFits(payloads: seq<Shard>)
    requires payloads != []
    ensures var k := |payloads| - 1;
            && (forall n :: n in payloads[k].payload ==> RegionFits(payloads, n, payloads[k].region))
            && forall n, r :: n !in payloads[k].payload && RegionFits(payloads[..k], n, r) ==> RegionFits(payloads, n, r)
  {
    var k := |payloads| - 1;
    forall n | n in payloads[k].payload ensures RegionFits(payloads, n, payloads[k].region) { assert LastListed(payloads, k, n); }
    forall n, r | n !in payloads[k].payload && RegionFits(payloads[..k], n, r) ensures RegionFits(payloads, n, r) {
      var i: nat :| LastListed(payloads[..k], i, n) && payloads[..k][i].region == r;
      assert LastListed(payloads, i, n);
    }
  }

  function EntriesOf(payloads: seq<Shard>, names: set<string>): seq<Entry> { AllEntries(Filtered(payloads, names)) }

  lemma {:induction false} ListedEntry(payloads: seq<Shard>, x: Entry)
    ensures x in AllEntries(payloads) <==> exists s :: s in payloads && s.region == x.region && x.name in s.payload
  {
    if payloads != [] {
      var k := |payloads| - 1;
      var last := payloads[k];
      assert payloads == payloads[..k] + [last];
      ListedEntry(payloads[..k], x);
      if last.region == x.region && x.name in last.payload {
        var i :| 0 <= i < |last.payload| && last.payload[i] == x.name;
        assert Entries(last)[i] == x;
      }
    }
  }

  /** The entries probed are the chosen nodes under each region that lists them. */
  lemma ChosenEntry(payloads: seq<Shard>, names: set<string>, x: Entry)
    ensures x in EntriesOf(payloads, names) <==> x.name in names && exists s :: s in payloads && s.region == x.region && x.name in s.payload
  {
    var filtered := Filtered(payloads, names);
    ListedEntry(filtered, x);
    if s :| s in filtered && s.region == x.region && x.name in s.payload {
      var i :| 0 <= i < |filtered| && filtered[i] == s;
      assert payloads[i] in payloads;
    }
    if s :| s in payloads && s.region == x.region && x.name in s.payload && x.name in names {
      var i :| 0 <= i < |payloads| && payloads[i] == s;
      assert filtered[i] in filtered;
    }
  }

  // ----- what a probe can answer -----

  /** One result per probe; a node passes when all of them do; a result passes only with an HTTP status. */
  ghost predicate Genuine(o: Observation, probes: set<string>) {
    o.Observed? ==>
      && (o.passed <==> forall q :: q in o.results ==> q.passed)
      && (forall q :: q in o.results ==> q.probe in probes && (q.passed ==> IsStatus(q.outcome)))
      && (forall e :: e in probes ==> Probes(o.results, e))
  }

  ghost predicate Answering(node: Oracle, probes: set<string>) { forall n: string :: Genuine(node(n), probes) }

  function CriticalSet(t: Turn): set<string> { set e | e in t.critical }

  function ControlSet(t: Turn): set<string> { if t.control.Some? then {t.control.value} else {} }

  /** The fingerprints cover the nodes, and the probes answer as probes do. */
  ghost predicate Sound(t: Turn) {
    && t.inventory.Keys == NamesIn(t.payloads)
    && Answering(t.answers.sentinel, CriticalSet(t)) && Answering(t.answers.control, ControlSet(t)) && Answering(t.answers.sweep, CriticalSet(t))
  }

  lemma AnsweringDeclares(node: Oracle, probes: set<string>)
    requires Answering(node, probes)
    ensures Declared(probes, node)
  {
    forall n: string, q | q in ResultsOf(node(n)) ensures q.probe in probes { assert Genuine(node(n), probes); }
  }

  /** Probes some nodes of the candidate, in shards; nothing is probed when there is no name. */
  method ProbeNames(payloads: seq<Shard>, names: set<string>, probes: set<string>, node: Oracle) returns (qualified: set<string>, regions: map<string, Row>)
    requires Answering(node, probes)
    ensures qualified == NamesOf(EntriesOf(payloads, names), node)
    ensures regions == Total(EntriesOf(payloads, names), node).regions
  {
    if names == {} {
      NothingChosen(payloads);
      return {}, map[];
    }
    AnsweringDeclares(node, probes);
    var shards := BuildShards(Filtered(payloads, names));
    var aggregate;
    qualified, aggregate := ProbeAll(probes, shards, node);
    regions := aggregate.regions;
    assert regions == aggregate.Value().regions;
    AggregateRegions(probes, shards, node);
  }

  lemma NothingChosen(payloads: seq<Shard>)
    ensures EntriesOf(payloads, {}) == []
  {
    var entries := EntriesOf(payloads, {});
    if entries != [] {
      assert entries[0] in entries;
      ChosenEntry(payloads, {}, entries[0]);
    }
  }

  lemma AggregateRegions(probes: set<string>, shards: seq<Shard>, node: Oracle)
    ensures Aggregate(probes, shards, node).regions == Total(AllEntries(shards), node).regions
  {
    assert JoinRows(map[], Total(AllEntries(shards), node).regions) == Total(AllEntries(shards), node).regions;
  }

  // ----- the sentinel gate -----

  /** `control` holds the regions in which the control probe passed through a sentinel. */
  datatype Gate = Gate(systemic: bool, control: set<string>)

  /** The first node of every region. */
  ghost function Sentinels(payloads: seq<Shard>): set<string> {
    var m := NodeRegions(payloads);
    set n | n in m && IsFirstOf(m, n, m[n])
  }

  function ControlOk(regions: map<string, Row>, endpoint: string): set<string> {
    set r | r in regions && PassedIn(regions[r].endpoints, endpoint)
  }

  ghost predicate SomeFlagged(stats: RegionStats, critical: seq<string>, control: set<string>) {
    exists e :: e in critical && Flagged(stats, e, control)
  }

  ghost function StatsFor(t: Turn, names: set<string>, node: Oracle): RegionStats {
    StatsOf(Total(EntriesOf(t.payloads, names), node).regions)
  }

  /** Whether the gate probes anything: a guarded service, a control probe and two regions. */
  predicate GateRuns(t: Turn) { t.guarded && t.control.Some? && |NodeRegions(t.payloads).Values| >= 2 }

  ghost function GateOf(t: Turn): Gate {
    if !GateRuns(t) then Gate(false, {})
    else
      var names := Sentinels(t.payloads);
      var control := ControlOk(Total(EntriesOf(t.payloads, names), t.answers.control).regions, t.control.value);
      Gate(SomeFlagged(StatsFor(t, names, t.answers.sentinel), t.critical, control), control)
  }

  lemma SelectedAre(payloads: seq<Shard>, sentinels: seq<string>)
    requires var m := NodeRegions(payloads);
             |sentinels| == |m.Values| && forall i :: 0 <= i < |sentinels| ==> IsFirstOf(m, sentinels[i], Sorted(m.Values)[i])
    ensures (set n | n in sentinels) == Sentinels(payloads)
  {
    var m := NodeRegions(payloads);
    var regions := Sorted(m.Values);
    forall n | n in Sentinels(payloads) ensures n in sentinels {
      assert m[n] in regions;
      var i :| 0 <= i < |regions| && regions[i] == m[n];
      FirstUnique(m, n, sentinels[i], m[n]);
      assert sentinels[i] in sentinels;
    }
  }

  lemma FirstUnique(m: map<string, string>, a: string, b: string, region: string)
    requires IsFirstOf(m, a, region) && IsFirstOf(m, b, region)
    ensures a == b
  {
    LeqAntisymmetric(a, b);
  }

  /** The systemic half of `evaluate_endpoint_blockage`. */
  method Judge(critical: seq<string>, regions: map<string, Row>, control: set<string>) returns (systemic: bool)
    ensures systemic <==> SomeFlagged(StatsOf(regions), critical, control)
  {
    var verdict := EvaluateEndpointBlockage(critical, StatsOf(regions), control);
    return verdict.systemic;
  }

  /** Probes the sentinels at the critical endpoints and at the control. */
  method ProbeSentinels(t: Turn, names: set<string>) returns (g: Gate)
    requires Sound(t) && GateRuns(t) && names == Sentinels(t.payloads)
    ensures g == GateOf(t)
  {
    var _, openai := ProbeNames(t.payloads, names, CriticalSet(t), t.answers.sentinel);
    var _, control := ProbeNames(t.payloads, names, ControlSet(t), t.answers.control);
    var ok := ControlOk(control, t.control.value);
    var systemic := Judge(t.critical, openai, ok);
    return Gate(systemic, ok);
  }

  /** `_run_sentinel_gate`; a service without systemic detection has none. */
  method RunSentinelGate(t: Turn) returns (g: Gate)
    requires Sound(t)
    ensures g == GateOf(t)
  {
    if !t.guarded || t.control.None? { return Gate(false, {}); }
    var sentinels := SelectSentinels(NodeRegions(t.payloads));
    if |sentinels| < 2 { return Gate(false, {}); }
    SelectedAre(t.payloads, sentinels);
    g := ProbeSentinels(t, set n | n in sentinels);
  }

  // ----- the turn -----

  /** How the evidence judges a turn: by the sentinels first, else by the sweep of the live names. */
  ghost function OutcomeOf(t: Turn, live: set<string>): Outcome {
    var gate := GateOf(t);
    if gate.systemic then SentinelGate
    else if SomeFlagged(StatsFor(t, live, t.answers.sweep), t.critical, gate.control) then PostSweep
    else Clear
  }

  function LiveOf(t: Turn, c: Cache): set<string> { Decide(c, t.inventory, t.service, t.decided, t.ttls).live }

  function SweptOf(t: Turn, live: set<string>): set<string> { NamesOf(EntriesOf(t.payloads, live), t.answers.sweep) }

  /** The step the evidence makes of a turn. */
  ghost function StepOf(t: Turn, c: Cache): Step {
    var live := LiveOf(t, c);
    Step(t.inventory, t.service, t.ttls, t.decided, t.updated, OutcomeOf(t, live), SweptOf(t, live))
  }

  /** Only names that were probed can have passed the sweep. */
  lemma SweptAreLive(payloads: seq<Shard>, names: set<string>, node: Oracle)
    ensures NamesOf(EntriesOf(payloads, names), node) <= names
  {
    forall x | x in EntriesOf(payloads, names) ensures x.name in names { ChosenEntry(payloads, names, x); }
  }

  /** The live sweep and the check of it with the gate's control evidence. */
  method Sweep(t: Turn, live: set<string>, control: set<string>) returns (qualified: set<string>, blocked: bool)
    requires Sound(t)
    ensures qualified == NamesOf(EntriesOf(t.payloads, live), t.answers.sweep) && qualified <= live
    ensures blocked <==> SomeFlagged(StatsFor(t, live, t.answers.sweep), t.critical, control)
  {
    var regions;
    qualified, regions := ProbeNames(t.payloads, live, CriticalSet(t), t.answers.sweep);
    SweptAreLive(t.payloads, live, t.answers.sweep);
    blocked := Judge(t.critical, regions, control);
  }

  /** The gate, then the sweep unless the gate was closed. */
  method ProbeTurn(t: Turn, live: set<string>) returns (outcome: Outcome, qualified: set<string>)
    requires Sound(t)
    ensures outcome == OutcomeOf(t, live)
    ensures qualified == (if outcome.SentinelGate? then {} else SweptOf(t, live)) && qualified <= live
  {
    var gate := RunSentinelGate(t);
    if gate.systemic { return SentinelGate, {}; }
    var blocked;
    qualified, blocked := Sweep(t, live, gate.control);
    outcome := if blocked then PostSweep else Clear;
  }

  /** What is written: nothing after a closed gate, else the live names with those that passed. */
  ghost predicate StoredFor(c: Cache, s: Step, names: set<string>, passed: set<string>) {
    if s.outcome.SentinelGate? then names == {} else names == Decided(c, s).live && passed == s.sweep * names
  }

  lemma StepDecides(t: Turn, c: Cache, d: Decision)
    requires d == Decide(c, t.inventory, t.service, t.decided, t.ttls)
    ensures Decided(c, StepOf(t, c)) == d && StepOf(t, c).sweep == SweptOf(t, d.live) && StepOf(t, c).outcome == OutcomeOf(t, d.live)
  {
  }

  class Qualification {
    var cache: Cache

    method QualifyService(t: Turn) returns (qualified: set<string>)
      requires WellFormed(cache) && Sound(t)
      modifies this
      ensures cache == After(old(cache), StepOf(t, old(cache))) && WellFormed(cache)
      ensures qualified == Routed(old(cache), StepOf(t, old(cache)))
    {
      var decision := CachedServiceDecisions(cache, t.inventory, t.service, t.decided, t.ttls);
      var outcome, liveQualified := ProbeTurn(t, decision.live);
      var liveNamesForCache := if outcome.SentinelGate? then {} else decision.live;
      if !outcome.Clear? {
        qualified := if decision.passed != {} then decision.passed else t.inventory.Keys;
      } else {
        qualified := decision.passed + liveQualified;
      }
      ghost var s := StepOf(t, cache);
      StepDecides(t, cache, decision);
      RoutedBy(cache, s, decision, liveQualified);
      Store(s, t.inventory, t.service, t.updated, liveNamesForCache, liveQualified);
    }

    /** The cache is updated only with names that were probed live. */
    method Store(ghost s: Step, inventory: Inventory, service: string, updated: int, names: set<string>, passed: set<string>)
      requires WellFormed(cache) && s.inventory == inventory && s.service == service && s.updated == updated
      requires StoredFor(cache, s, names, passed)
      modifies this
      ensures cache == After(old(cache), s) && WellFormed(cache)
    {
      AfterKeepsShape(cache, s);
      if names != {} {
        LiveListed(cache, s);
        cache := UpdateCacheService(cache, inventory, service, names, passed, updated);
      }
    }
  }

  lemma RoutedBy(c: Cache, s: Step, d: Decision, qualified: set<string>)
    requires d == Decided(c, s) && (s.outcome.Clear? ==> qualified == s.sweep && qualified <= d.live)
    ensures s.sweep <= d.live && !s.outcome.SentinelGate? && qualified == s.sweep ==> StoredFor(c, s, d.live, qualified)
    ensures Routed(c, s) == if s.outcome.Clear? then d.passed + qualified else if d.passed != {} then d.passed else s.inventory.Keys
  {
  }

  // ----- what a systemic verdict means -----

  /** The endpoint answered no node of the sweep, over two regions at least, while the control worked in all of them. */
  ghost predicate SweepBlackedOut(t: Turn, live: set<string>, e: string) {
    e in t.critical && BlackedOut(EntriesOf(t.payloads, live), t.answers.sweep, e, GateOf(t).control)
  }

  ghost predicate GateBlackedOut(t: Turn, e: string) {
    e in t.critical && BlackedOut(EntriesOf(t.payloads, Sentinels(t.payloads)), t.answers.sentinel, e, GateOf(t).control)
  }

  lemma SomeFlaggedExactly(entries: seq<Entry>, node: Oracle, critical: seq<string>, control: set<string>)
    ensures SomeFlagged(StatsOf(Total(entries, node).regions), critical, control)
            <==> exists e :: e in critical && BlackedOut(entries, node, e, control)
  {
    forall e ensures Flagged(StatsOf(Total(entries, node).regions), e, control) <==> BlackedOut(entries, node, e, control) {
      FlaggedExactly(entries, node, e, control);
    }
  }

  lemma NeedsControl(stats: RegionStats, critical: seq<string>)
    ensures !SomeFlagged(stats, critical, {})
  {
  }

  ghost predicate GateBlocked(t: Turn) { exists e :: GateBlackedOut(t, e) }

  ghost predicate SweepBlocked(t: Turn, live: set<string>) { exists e :: SweepBlackedOut(t, live, e) }

  lemma GateExactly(t: Turn)
    ensures GateOf(t).systemic <==> GateRuns(t) && GateBlocked(t)
  {
    if GateRuns(t) {
      var entries, control := EntriesOf(t.payloads, Sentinels(t.payloads)), GateOf(t).control;
      SomeFlaggedExactly(entries, t.answers.sentinel, t.critical, control);
      assert GateBlocked(t) <==> exists e :: e in t.critical && BlackedOut(entries, t.answers.sentinel, e, control) by {
        if e :| e in t.critical && BlackedOut(entries, t.answers.sentinel, e, control) { assert GateBlackedOut(t, e); }
      }
    }
  }

  lemma SweepExactly(t: Turn, live: set<string>)
    ensures SomeFlagged(StatsFor(t, live, t.answers.sweep), t.critical, GateOf(t).control) <==> SweepBlocked(t, live)
    ensures SweepBlocked(t, live) ==> GateRuns(t)
  {
    var entries, control := EntriesOf(t.payloads, live), GateOf(t).control;
    SomeFlaggedExactly(entries, t.answers.sweep, t.critical, control);
    if e :| e in t.critical && BlackedOut(entries, t.answers.sweep, e, control) { assert SweepBlackedOut(t, live, e); }
    if !GateRuns(t) { NeedsControl(StatsFor(t, live, t.answers.sweep), t.critical); }
  }

  /** The verdict of a turn in terms of the answers; without a gate that ran no verdict is systemic. */
  lemma OutcomeExactly(t: Turn, live: set<string>)
    ensures OutcomeOf(t, live) == SentinelGate <==> GateRuns(t) && GateBlocked(t)
    ensures OutcomeOf(t, live) == PostSweep <==> GateRuns(t) && !GateBlocked(t) && SweepBlocked(t, live)
  {
    GateExactly(t);
    SweepExactly(t, live);
  }

  /** The control evidence: the regions in which the control probe passed through a sentinel. */
  lemma ControlExactly(t: Turn, r: string)
    ensures r in GateOf(t).control
            <==> GateRuns(t) && SomePasses(EntriesOf(t.payloads, Sentinels(t.payloads)), t.answers.control, r, t.control.value)
  {
    if GateRuns(t) { TotalMeaning(EntriesOf(t.payloads, Sentinels(t.payloads)), t.answers.control, r, t.control.value); }
  }

  /** An inventory of one region is never judged systemic. */
  lemma OneRegionIsClear(t: Turn, live: set<string>)
    requires |NodeRegions(t.payloads).Values| < 2
    ensures OutcomeOf(t, live) == Clear
  {
    OutcomeExactly(t, live);
  }

  /** Nobody passes a sweep judged systemic: the blocked endpoint answered nobody. */
  lemma BlockedSweepPassesNobody(t: Turn, live: set<string>)
    requires Sound(t) && OutcomeOf(t, live) == PostSweep
    ensures SweptOf(t, live) == {} && live != {}
  {
    OutcomeExactly(t, live);
    var e :| SweepBlackedOut(t, live, e);
    var entries, node := EntriesOf(t.payloads, live), t.answers.sweep;
    forall x | x in entries ensures !Passed(node(x.name)) {
      assert Genuine(node(x.name), CriticalSet(t));
      if Passed(node(x.name)) { PassingReaches(node(x.name), CriticalSet(t), e); }
    }
    if live == {} { NothingChosen(t.payloads); }
  }

  lemma PassingReaches(o: Observation, probes: set<string>, e: string)
    requires Genuine(o, probes) && Passed(o) && e in probes
    ensures Reaches(ResultsOf(o), e)
  {
    var q :| q in o.results && q.probe == e;
  }

  /** Whatever a post-sweep systemic turn writes down is a failure. */
  lemma BlockedTurnWritesFailures(t: Turn, c: Cache)
    requires Sound(t) && StepOf(t, c).outcome == PostSweep
    ensures Checks(c, StepOf(t, c)) != {} && forall x :: x in Checks(c, StepOf(t, c)) ==> !x.passed && x.systemic
  {
    var s := StepOf(t, c);
    BlockedSweepPassesNobody(t, LiveOf(t, c));
    LiveListed(c, s);
    var n :| n in LiveOf(t, c);
    assert Check(s.inventory[n], s.service, n in s.sweep, s.updated, true) in Checks(c, s);
  }

  /** With a clock that has moved on, a turn keeps the cache conclusive exactly when its sweep is not judged systemic. */
  lemma TurnConclusiveExactly(t: Turn, c: Cache, h: set<Check>)
    requires Sound(t) && WellFormed(c) && AllConclusive(c, h) && t.updated > 0 && forall x :: x in h ==> x.epoch < t.updated
    ensures AllConclusive(After(c, StepOf(t, c)), h + Checks(c, StepOf(t, c)))
            <==> !(GateRuns(t) && !GateBlocked(t) && SweepBlocked(t, LiveOf(t, c)))
  {
    ConclusiveExactly(c, StepOf(t, c), h);
    OutcomeExactly(t, LiveOf(t, c));
    if StepOf(t, c).outcome == PostSweep { BlockedSweepPassesNobody(t, LiveOf(t, c)); }
  }

  // ----- runs of turns -----

  ghost function StepsOf(turns: seq<Turn>): seq<Step> {
    if turns == [] then []
    else
      var n := |turns| - 1;
      var done := StepsOf(turns[..n]);
      done + [StepOf(turns[n], Run(done))]
  }

  ghost predicate NeverBlocked(turns: seq<Turn>) {
    turns == []
    || (NeverBlocked(turns[..|turns| - 1])
        && (GateBlocked(turns[|turns| - 1])
            || !SweepBlocked(turns[|turns| - 1], LiveOf(turns[|turns| - 1], Run(StepsOf(turns[..|turns| - 1]))))))
  }

  /** When no sweep behind an open gate is blacked out, every cached verdict of a run rests on a conclusive check. */
  lemma {:induction false} TurnsConclusive(turns: seq<Turn>)
    requires NeverBlocked(turns)
    ensures AllConclusive(Run(StepsOf(turns)), History(StepsOf(turns)))
  {
    NothingInconclusive(turns);
    ConclusiveRun(StepsOf(turns));
  }

  lemma {:induction false} NothingInconclusive(turns: seq<Turn>)
    requires NeverBlocked(turns)
    ensures StoresNoInconclusive(StepsOf(turns))
  {
    if turns != [] {
      var n := |turns| - 1;
      NothingInconclusive(turns[..n]);
      var done := StepsOf(turns[..n]);
      assert StepsOf(turns)[..|done|] == done;
      OutcomeExactly(turns[n], LiveOf(turns[n], Run(done)));
    }
  }
}
