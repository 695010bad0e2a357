/** A turn that stores failures although its sweep is judged systemic: the documented rule fails. */
module SystemicLeak {
  import opened Results
  import opened Ordering
  import opened ProbeEvidence
  import opened ProbeSharding
  import opened EndpointBlockage
  import opened ProbeMeaning
  import opened QualificationCache
  import opened QualificationRuns
  import opened QualificationTurns

  /** Every node gives the same one answer. */
  function Always(probe: string, passed: bool, outcome: string): Oracle {
    n => Observed(passed, [ProbeResult(probe, passed, outcome)])
  }

  lemma AlwaysMeaning(probe: string, passed: bool, outcome: string, n: string)
    requires passed ==> IsStatus(outcome)
    ensures Genuine(Always(probe, passed, outcome)(n), {probe})
    ensures var results := ResultsOf(Always(probe, passed, outcome)(n));
            Probes(results, probe) && (Reaches(results, probe) <==> IsStatus(outcome)) && (Passes(results, probe) <==> passed)
  {
    var results := ResultsOf(Always(probe, passed, outcome)(n));
    assert results[0] in results;
  }

  /** Two nodes with fingerprints of their own in two regions; an endpoint, the control, and three outcomes. */
  datatype Case = Case(a: string, b: string, ra: string, rb: string, fa: string, fb: string, endpoint: string, control: string,
                       refused: string, fine: string, lost: string)

  ghost predicate Apart(p: Case) {
    p.a != p.b && p.ra != p.rb && p.fa != p.fb && IsStatus(p.refused) && IsStatus(p.fine) && !IsStatus(p.lost)
  }

  ghost predicate TwoPayloads(payloads: seq<Shard>, p: Case) {
    && Shard(p.ra, [p.a]) in payloads && Shard(p.rb, [p.b]) in payloads
    && forall s :: s in payloads ==> s == Shard(p.ra, [p.a]) || s == Shard(p.rb, [p.b])
  }

  /** The sentinels are answered, the control works, and then the sweep gets no answer at all. */
  ghost predicate Blackout(t: Turn, p: Case) {
    && Apart(p) && TwoPayloads(t.payloads, p) && t.inventory == map[p.a := p.fa, p.b := p.fb]
    && t.critical == [p.endpoint] && t.guarded && t.control == Some(p.control) && t.ttls.pass >= 0 && t.ttls.failure >= 0
    && t.answers.sentinel == Always(p.endpoint, false, p.refused) && t.answers.control == Always(p.control, true, p.fine)
    && t.answers.sweep == Always(p.endpoint, false, p.lost)
  }

  lemma Listed(payloads: seq<Shard>, p: Case, s: Shard, n: string)
    requires TwoPayloads(payloads, p)
    ensures s in payloads && n in s.payload <==> (s == Shard(p.ra, [p.a]) && n == p.a) || (s == Shard(p.rb, [p.b]) && n == p.b)
  {
    assert [p.a][0] == p.a && [p.b][0] == p.b;
  }

  lemma PairNames(payloads: seq<Shard>, p: Case)
    requires TwoPayloads(payloads, p)
    ensures NamesIn(payloads) == {p.a, p.b}
  {
    Listed(payloads, p, Shard(p.ra, [p.a]), p.a);
    Listed(payloads, p, Shard(p.rb, [p.b]), p.b);
    forall s, n | s in payloads && n in s.payload ensures n in {p.a, p.b} { Listed(payloads, p, s, n); }
  }

  lemma AnswersGenuine(probe: string, passed: bool, outcome: string)
    requires passed ==> IsStatus(outcome)
    ensures Answering(Always(probe, passed, outcome), {probe})
  {
    forall n: string ensures Genuine(Always(probe, passed, outcome)(n), {probe}) { AlwaysMeaning(probe, passed, outcome, n); }
  }

  lemma BlackoutSound(t: Turn, p: Case)
    requires Blackout(t, p)
    ensures Sound(t)
  {
    PairNames(t.payloads, p);
    AnswersGenuine(p.endpoint, false, p.refused);
    AnswersGenuine(p.control, true, p.fine);
    AnswersGenuine(p.endpoint, false, p.lost);
    assert CriticalSet(t) == {p.endpoint} && ControlSet(t) == {p.control};
  }

  lemma PairMap(m: map<string, string>, payloads: seq<Shard>, p: Case)
    requires Apart(p) && TwoPayloads(payloads, p) && m.Keys == {p.a, p.b}
    requires forall n :: n in m ==> exists s :: s in payloads && s.region == m[n] && n in s.payload
    ensures m == map[p.a := p.ra, p.b := p.rb]
  {
    var s :| s in payloads && s.region == m[p.a] && p.a in s.payload;
    Listed(payloads, p, s, p.a);
    var u :| u in payloads && u.region == m[p.b] && p.b in u.payload;
    Listed(payloads, p, u, p.b);
  }

  lemma PairRegions(payloads: seq<Shard>, p: Case)
    requires Apart(p) && TwoPayloads(payloads, p)
    ensures NodeRegions(payloads) == map[p.a := p.ra, p.b := p.rb]
  {
    PairNames(payloads, p);
    PairMap(NodeRegions(payloads), payloads, p);
  }

  lemma PairFirsts(m: map<string, string>, a: string, b: string, ra: string, rb: string)
    requires a != b && ra != rb && m == map[a := ra, b := rb]
    ensures (set n | n in m && IsFirstOf(m, n, m[n])) == {a, b} && |m.Values| >= 2
  {
    TwoValues(m, a, b);
    LeqTotal(a, a);
    LeqTotal(b, b);
    assert IsFirstOf(m, a, ra) && IsFirstOf(m, b, rb);
  }

  lemma PairSentinels(payloads: seq<Shard>, p: Case)
    requires Apart(p) && TwoPayloads(payloads, p)
    ensures Sentinels(payloads) == {p.a, p.b} && |NodeRegions(payloads).Values| >= 2
  {
    PairRegions(payloads, p);
    PairFirsts(NodeRegions(payloads), p.a, p.b, p.ra, p.rb);
  }

  lemma TwoValues(m: map<string, string>, a: string, b: string)
    requires a in m && b in m && m[a] != m[b]
    ensures |m.Values| >= 2
  {
    assert m.Values == {m[a], m[b]} + (m.Values - {m[a], m[b]});
  }

  lemma PairEntries(payloads: seq<Shard>, p: Case, x: Entry)
    requires TwoPayloads(payloads, p)
    ensures x in EntriesOf(payloads, {p.a, p.b}) <==> x == Entry(p.ra, p.a) || x == Entry(p.rb, p.b)
  {
    ChosenEntry(payloads, {p.a, p.b}, x);
    if s :| s in payloads && s.region == x.region && x.name in s.payload { Listed(payloads, p, s, x.name); }
    Listed(payloads, p, Shard(p.ra, [p.a]), p.a);
    Listed(payloads, p, Shard(p.rb, [p.b]), p.b);
  }

  /** With every entry answering alike the probed regions are those of the entries. */
  lemma AlwaysProbed(entries: seq<Entry>, probe: string, passed: bool, outcome: string)
    requires passed ==> IsStatus(outcome)
    ensures RegionsProbed(entries, Always(probe, passed, outcome), probe) == set x | x in entries :: x.region
    ensures Unanswered(entries, Always(probe, passed, outcome), probe) <==> entries == [] || !IsStatus(outcome)
    ensures forall r :: SomePasses(entries, Always(probe, passed, outcome), r, probe) <==> passed && exists x :: x in entries && x.region == r
  {
    forall x | x in entries
      ensures var results := ResultsOf(Always(probe, passed, outcome)(x.name));
              Probes(results, probe) && (Reaches(results, probe) <==> IsStatus(outcome)) && (Passes(results, probe) <==> passed)
    {
      AlwaysMeaning(probe, passed, outcome, x.name);
    }
    if entries != [] { assert entries[0] in entries; }
  }

  lemma PairEntryRegions(payloads: seq<Shard>, p: Case)
    requires TwoPayloads(payloads, p)
    ensures var entries := EntriesOf(payloads, {p.a, p.b});
            entries != [] && (set x | x in entries :: x.region) == {p.ra, p.rb}
  {
    var entries := EntriesOf(payloads, {p.a, p.b});
    forall x ensures x in entries <==> x == Entry(p.ra, p.a) || x == Entry(p.rb, p.b) { PairEntries(payloads, p, x); }
    assert Entry(p.ra, p.a) in entries && Entry(p.rb, p.b) in entries;
  }

  lemma BlackoutRuns(t: Turn, p: Case)
    requires Blackout(t, p)
    ensures GateRuns(t) && Sentinels(t.payloads) == {p.a, p.b}
  {
    PairSentinels(t.payloads, p);
  }

  lemma BlackoutControlIn(t: Turn, p: Case, r: string)
    requires Blackout(t, p)
    ensures r in GateOf(t).control <==> r == p.ra || r == p.rb
  {
    var entries := EntriesOf(t.payloads, {p.a, p.b});
    BlackoutRuns(t, p);
    ControlExactly(t, r);
    AlwaysProbed(entries, p.control, true, p.fine);
    PairEntries(t.payloads, p, Entry(p.ra, p.a));
    PairEntries(t.payloads, p, Entry(p.rb, p.b));
    if x :| x in entries && x.region == r { PairEntries(t.payloads, p, x); }
  }

  lemma BlackoutControl(t: Turn, p: Case)
    requires Blackout(t, p)
    ensures GateOf(t).control == {p.ra, p.rb}
  {
    var control := GateOf(t).control;
    forall r: string ensures r in control <==> r == p.ra || r == p.rb { BlackoutControlIn(t, p, r); }
    TwoMembers(control, p.ra, p.rb);
  }

  lemma TwoMembers(s: set<string>, x: string, y: string)
    requires forall r: string :: r in s <==> r == x || r == y
    ensures s == {x, y}
  {
  }

  lemma TwoApart(x: string, y: string)
    requires x != y
    ensures |{x, y}| == 2
  {
  }

  /** The gate is open, for the sentinels were answered. */
  lemma BlackoutGate(t: Turn, p: Case)
    requires Blackout(t, p)
    ensures !GateBlocked(t)
  {
    PairSentinels(t.payloads, p);
    PairEntryRegions(t.payloads, p);
    AlwaysProbed(EntriesOf(t.payloads, {p.a, p.b}), p.endpoint, false, p.refused);
  }

  /** The sweep is blacked out. */
  lemma BlackoutSweep(t: Turn, p: Case)
    requires Blackout(t, p)
    ensures SweepBlackedOut(t, {p.a, p.b}, p.endpoint)
  {
    PairEntryRegions(t.payloads, p);
    BlackoutControl(t, p);
    TwoApart(p.ra, p.rb);
    AlwaysProbed(EntriesOf(t.payloads, {p.a, p.b}), p.endpoint, false, p.lost);
    assert t.critical[0] == p.endpoint;
  }

  lemma PairLive(t: Turn, p: Case)
    requires Blackout(t, p)
    ensures LiveOf(t, EMPTY) == {p.a, p.b}
  {
    forall n ensures n in LiveOf(t, EMPTY) <==> n in {p.a, p.b} { DecideMeaning(EMPTY, t.inventory, t.service, t.decided, t.ttls, n); }
  }

  /** The step of the turn: judged systemic after the sweep, and passed by nobody. */
  lemma BlackoutStep(t: Turn, p: Case)
    requires Blackout(t, p)
    ensures StepOf(t, EMPTY).outcome == PostSweep && StepOf(t, EMPTY).sweep == {} && Decided(EMPTY, StepOf(t, EMPTY)).live == {p.a, p.b}
  {
    BlackoutSound(t, p);
    BlackoutRuns(t, p);
    BlackoutGate(t, p);
    BlackoutSweep(t, p);
    PairLive(t, p);
    OutcomeExactly(t, {p.a, p.b});
    BlockedSweepPassesNobody(t, {p.a, p.b});
  }

  predicate Distinct(inventory: Inventory) { forall a, b :: a in inventory && b in inventory && inventory[a] == inventory[b] ==> a == b }

  lemma PairInventory(inventory: Inventory, a: string, b: string, fa: string, fb: string)
    requires a != b && fa != fb && inventory == map[a := fa, b := fb]
    ensures |inventory| <= 2 && Distinct(inventory)
  {
    assert inventory.Keys == {a, b};
    assert |inventory| == |inventory.Keys|;
  }

  /** A node nobody passed is cached as a failure the next decision trusts. */
  lemma OneTrusted(s: Step, n: string)
    requires Distinct(s.inventory) && |s.inventory| <= 2 && s.outcome == PostSweep && s.sweep == {} && s.ttls.pass >= 0 && s.ttls.failure >= 0
    requires n in Decided(EMPTY, s).live
    ensures n in Decided(After(EMPTY, s), s.(decided := s.updated)).failed
  {
    PostSweepFailureIsTrusted(EMPTY, s, n);
  }

  lemma TrustedStored(c: Cache, s: Step, n: string)
    requires n in Decided(c, s).failed
    ensures c != EMPTY
  {
    DecideMeaning(c, s.inventory, s.service, s.decided, s.ttls, n);
  }

  lemma BothTrusted(s: Step, a: string, b: string, fa: string, fb: string)
    requires a != b && fa != fb && s.inventory == map[a := fa, b := fb] && s.outcome == PostSweep && s.sweep == {}
    requires Decided(EMPTY, s).live == {a, b} && s.ttls.pass >= 0 && s.ttls.failure >= 0
    ensures {a, b} <= Decided(After(EMPTY, s), s.(decided := s.updated)).failed && After(EMPTY, s) != EMPTY
  {
    PairInventory(s.inventory, a, b, fa, fb);
    OneTrusted(s, a);
    OneTrusted(s, b);
    TrustedStored(After(EMPTY, s), s.(decided := s.updated), a);
  }

  /** The counters the check sees flag the endpoint. */
  lemma BlackoutFlagged(t: Turn, p: Case)
    requires Blackout(t, p)
    ensures Flagged(StatsFor(t, LiveOf(t, EMPTY), t.answers.sweep), p.endpoint, GateOf(t).control)
  {
    PairLive(t, p);
    BlackoutSweep(t, p);
    FlaggedExactly(EntriesOf(t.payloads, {p.a, p.b}), t.answers.sweep, p.endpoint, GateOf(t).control);
  }

  /**
   The documented rule that a systemic verdict writes nothing fails. Whatever two nodes in two regions: the gate is open,
   the blockage model flags the counters of the live sweep, the turn is judged systemic after it, and both nodes are
   cached as failures that the next decision trusts.
   */
  lemma SystemicVerdictWrites(t: Turn, p: Case)
    requires Blackout(t, p)
    ensures Sound(t) && !GateOf(t).systemic
    ensures Flagged(StatsFor(t, LiveOf(t, EMPTY), t.answers.sweep), p.endpoint, GateOf(t).control)
    ensures StepOf(t, EMPTY).outcome == PostSweep && After(EMPTY, StepOf(t, EMPTY)) != EMPTY
    ensures {p.a, p.b} <= Decided(After(EMPTY, StepOf(t, EMPTY)), StepOf(t, EMPTY).(decided := t.updated)).failed
  {
    BlackoutSound(t, p);
    BlackoutFlagged(t, p);
    BlackoutStep(t, p);
    BothTrusted(StepOf(t, EMPTY), p.a, p.b, p.fa, p.fb);
  }

  /** Such a turn, with the outcomes as the prober writes them. */
  function Example(): Turn {
    Turn([Shard("SG", ["b"]), Shard("US", ["a"])], map["a" := "fa", "b" := "fb"], "ai_openai:contract", Ttls(7200, 3600), 1, 1,
         ["auth.openai.com"], true, Some("connectivity"),
         Answers(Always("auth.openai.com", false, "status_403"), Always("connectivity", true, "status_204"),
                 Always("auth.openai.com", false, "timeout")))
  }

  lemma ExampleIsBlackout()
    ensures Blackout(Example(), Case("a", "b", "US", "SG", "fa", "fb", "auth.openai.com", "connectivity", "status_403", "status_204", "timeout"))
  {
    var t := Example();
    assert t.payloads[0] == Shard("SG", ["b"]) && t.payloads[1] == Shard("US", ["a"]);
    assert "US"[0] != "SG"[0] && "fa"[1] != "fb"[1];
    assert "timeout"[0] == 't' && "status_"[0] == 's';
  }
}
