/** Whole runs of the AI qualification service loop over one cache. */
module QualificationRuns {
  import opened Ordering
  import opened QualificationCache

  /** How the endpoint-blockage model judged a service: not blocked, blocked for the sentinels, blocked after the full sweep. */
  datatype Outcome = Clear | SentinelGate | PostSweep

  /** One pass of the loop; `sweep` holds the names a live probe would qualify now. How it is judged is the evidence's business. */
  datatype Step = Step(inventory: Inventory, service: string, ttls: Ttls, decided: int, updated: int, outcome: Outcome, sweep: set<string>)

  /** A live probe of one node that was written down, and whether it ran under a systemic verdict. */
  datatype Check = Check(fingerprint: string, service: string, passed: bool, epoch: int, systemic: bool)

  function Decided(c: Cache, s: Step): Decision { Decide(c, s.inventory, s.service, s.decided, s.ttls) }

  function After(c: Cache, s: Step): Cache
    requires WellFormed(c)
  {
    var live := Decided(c, s).live;
    if s.outcome.SentinelGate? || live == {} then c
    else
      LiveListed(c, s);
      Updated(c, s.inventory, s.service, live, s.sweep * live, s.updated)
  }

  lemma LiveListed(c: Cache, s: Step)
    ensures Decided(c, s).live <= s.inventory.Keys
  {
    DecisionPartitions(c, s.inventory, s.service, s.decided, s.ttls);
  }

  /** The names the service may route to. */
  function Routed(c: Cache, s: Step): set<string> {
    var d := Decided(c, s);
    if s.outcome.Clear? then d.passed + s.sweep * d.live
    else if d.passed != {} then d.passed
    else s.inventory.Keys
  }

  lemma AfterKeepsShape(c: Cache, s: Step)
    requires WellFormed(c)
    ensures WellFormed(After(c, s))
    ensures |c.nodes| <= MAX_RECORDS ==> |After(c, s).nodes| <= MAX_RECORDS
  {
    var live := Decided(c, s).live;
    if !s.outcome.SentinelGate? && live != {} {
      LiveListed(c, s);
      UpdatedWellFormed(c, s.inventory, s.service, live, s.sweep * live, s.updated);
      KeptBound(Merged(c, s.inventory, s.service, live, s.sweep * live, s.updated));
      OrderCounts(Merged(c, s.inventory, s.service, live, s.sweep * live, s.updated));
    }
  }

  // ----- what one update changes -----

  /** A verdict present after an update was there before, or is one of the live checks just made for this service. */
  lemma VerdictOrigin(c: Cache, inventory: Inventory, service: string, checked: set<string>, passed: set<string>, now: int,
                      f: string, k: string)
    requires WellFormed(c) && checked <= inventory.Keys
    requires Recorded(Updated(c, inventory, service, checked, passed, now), f, k)
    ensures var verdict := Updated(c, inventory, service, checked, passed, now).nodes[f][k];
            if k == service && exists n :: n in checked && inventory[n] == f
            then exists n :: n in checked && inventory[n] == f && verdict == Verdict(n in passed, now)
            else Recorded(c, f, k) && verdict == c.nodes[f][k]
  {
    var merged := Merged(c, inventory, service, checked, passed, now);
    assert Recorded(merged, f, k);
    MergedAt(c, inventory, service, checked, passed, now, f);
  }

  ghost predicate MergedTo(c: Cache, merged: Cache, inventory: Inventory, service: string, checked: set<string>, passed: set<string>, now: int, f: string)
    requires checked <= inventory.Keys
  {
    var kept := if f in c.nodes && Lively(c.nodes[f], now) then c.nodes[f] else map[];
    if exists n :: n in checked && inventory[n] == f
    then f in merged.nodes && exists n :: n in checked && inventory[n] == f && merged.nodes[f] == kept[service := Verdict(n in passed, now)]
    else (f in merged.nodes <==> f in c.nodes && Lively(c.nodes[f], now)) && (f in merged.nodes ==> merged.nodes[f] == c.nodes[f])
  }

  /** What ageing and writing leave of one record. */
  lemma MergedAt(c: Cache, inventory: Inventory, service: string, checked: set<string>, passed: set<string>, now: int, f: string)
    requires WellFormed(c) && checked <= inventory.Keys
    ensures MergedTo(c, Merged(c, inventory, service, checked, passed, now), inventory, service, checked, passed, now, f)
  {
    var aged := Aged(c, now, |c.order|);
    var names := Sorted(checked);
    AgedWellFormed(c, now, |c.order|);
    AgedAt(c, now, |c.order|, f);
    assert c.order[..|c.order|] == c.order;
    WrittenMeaning(aged, inventory, service, names, passed, now, f);
    if exists n :: n in checked && inventory[n] == f {
      var merged := Merged(c, inventory, service, checked, passed, now);
      var n :| n in checked && inventory[n] == f;
      assert n in names;
      var i: nat :| LastWriter(inventory, names, f, i) && merged.nodes[f] == Had(aged, f)[service := Verdict(names[i] in passed, now)];
      assert names[i] in checked;
    }
  }

  /** Updating one service neither creates nor alters a verdict of another. */
  lemma OtherServicesUntouched(c: Cache, inventory: Inventory, service: string, checked: set<string>, passed: set<string>, now: int,
                               f: string, k: string)
    requires WellFormed(c) && checked <= inventory.Keys && k != service
    requires Recorded(Updated(c, inventory, service, checked, passed, now), f, k)
    ensures Recorded(c, f, k) && Updated(c, inventory, service, checked, passed, now).nodes[f][k] == c.nodes[f][k]
  {
    VerdictOrigin(c, inventory, service, checked, passed, now, f, k);
  }

  /** While there is room, every fresh check is remembered and answers at once with what it found. */
  lemma ChecksAreRemembered(c: Cache, inventory: Inventory, service: string, checked: set<string>, passed: set<string>, now: int,
                            ttls: Ttls, n: string)
    requires WellFormed(c) && checked <= inventory.Keys && n in checked
    requires forall a, b :: a in inventory && b in inventory && inventory[a] == inventory[b] ==> a == b
    requires |c.nodes| + |checked| <= MAX_RECORDS && ttls.pass >= 0 && ttls.failure >= 0
    ensures AnswerFor(Updated(c, inventory, service, checked, passed, now), inventory[n], service, now, ttls) == if n in passed then Pass else Fail
  {
    CheckIsMerged(c, inventory, service, checked, passed, now, n);
    NothingEvicted(c, inventory, service, checked, passed, now);
  }

  lemma CheckIsMerged(c: Cache, inventory: Inventory, service: string, checked: set<string>, passed: set<string>, now: int, n: string)
    requires WellFormed(c) && checked <= inventory.Keys && n in checked
    requires forall a, b :: a in inventory && b in inventory && inventory[a] == inventory[b] ==> a == b
    ensures var merged := Merged(c, inventory, service, checked, passed, now);
            Recorded(merged, inventory[n], service) && merged.nodes[inventory[n]][service] == Verdict(n in passed, now)
  {
    MergedAt(c, inventory, service, checked, passed, now, inventory[n]);
  }

  /** While there is room, an update keeps every other verdict of a record checked within seven days. */
  lemma RecentVerdictsKept(c: Cache, inventory: Inventory, service: string, checked: set<string>, passed: set<string>, now: int, f: string, k: string)
    requires WellFormed(c) && checked <= inventory.Keys && |c.nodes| + |checked| <= MAX_RECORDS
    requires Recorded(c, f, k) && Lively(c.nodes[f], now) && (k != service || forall n :: n in checked ==> inventory[n] != f)
    ensures Recorded(Updated(c, inventory, service, checked, passed, now), f, k)
    ensures Updated(c, inventory, service, checked, passed, now).nodes[f][k] == c.nodes[f][k]
  {
    MergedAt(c, inventory, service, checked, passed, now, f);
    NothingEvicted(c, inventory, service, checked, passed, now);
  }

  lemma NothingEvicted(c: Cache, inventory: Inventory, service: string, checked: set<string>, passed: set<string>, now: int)
    requires WellFormed(c) && checked <= inventory.Keys && |c.nodes| + |checked| <= MAX_RECORDS
    ensures Updated(c, inventory, service, checked, passed, now).nodes == Merged(c, inventory, service, checked, passed, now).nodes
  {
    var merged := Merged(c, inventory, service, checked, passed, now);
    UpdatedWellFormed(c, inventory, service, checked, passed, now);
    OrderCounts(merged);
    var touched := set n | n in checked :: inventory[n];
    TouchedCount(inventory, checked);
    forall f | f in merged.nodes ensures f in c.nodes.Keys + touched {
      MergedAt(c, inventory, service, checked, passed, now, f);
    }
    Fits(merged.nodes.Keys, c.nodes.Keys, touched);
  }

  lemma Fits(s: set<string>, a: set<string>, b: set<string>)
    requires s <= a + b
    ensures |s| <= |a| + |b|
  {
    Smaller(s, a + b);
    assert |a + b| == |a| + |b| - |a * b|;
  }

  lemma Smaller(s: set<string>, t: set<string>)
    requires s <= t
    ensures |s| <= |t|
  {
    assert t == s + (t - s);
  }

  lemma {:induction false} TouchedCount(inventory: Inventory, checked: set<string>)
    requires checked <= inventory.Keys
    ensures |set n | n in checked :: inventory[n]| <= |checked|
  {
    if checked != {} {
      var n :| n in checked;
      TouchedCount(inventory, checked - {n});
      var touched, rest := set x | x in checked :: inventory[x], set x | x in checked - {n} :: inventory[x];
      assert touched <= rest + {inventory[n]};
      Fits(touched, rest, {inventory[n]});
    }
  }

  // ----- runs -----

  function Run(steps: seq<Step>): (c: Cache)
    ensures WellFormed(c) && |c.nodes| <= MAX_RECORDS
  {
    if steps == [] then EMPTY
    else
      var n := |steps| - 1;
      AfterKeepsShape(Run(steps[..n]), steps[n]);
      After(Run(steps[..n]), steps[n])
  }

  ghost function Checks(c: Cache, s: Step): set<Check> {
    if s.outcome.SentinelGate? then {}
    else set n | n in Decided(c, s).live && n in s.inventory :: Check(s.inventory[n], s.service, n in s.sweep, s.updated, s.outcome.PostSweep?)
  }

  /** Every live check a run has made. */
  ghost function History(steps: seq<Step>): set<Check> {
    if steps == [] then {}
    else
      var n := |steps| - 1;
      History(steps[..n]) + Checks(Run(steps[..n]), steps[n])
  }

  ghost predicate Justified(h: set<Check>, f: string, k: string, verdict: Verdict) {
    Check(f, k, verdict.passed, verdict.epoch, false) in h || Check(f, k, verdict.passed, verdict.epoch, true) in h
  }

  ghost predicate Conclusive(h: set<Check>, f: string, k: string, verdict: Verdict) {
    Check(f, k, verdict.passed, verdict.epoch, false) in h
  }

  /** One step: a verdict after it was there before it, or is one of the step's own checks. */
  lemma StepOrigin(c: Cache, s: Step, f: string, k: string)
    requires WellFormed(c) && Recorded(After(c, s), f, k)
    ensures var verdict := After(c, s).nodes[f][k];
            || (Recorded(c, f, k) && verdict == c.nodes[f][k])
            || (Check(f, k, verdict.passed, verdict.epoch, s.outcome.PostSweep?) in Checks(c, s) && !s.outcome.SentinelGate?)
  {
    var live := Decided(c, s).live;
    LiveListed(c, s);
    if !s.outcome.SentinelGate? && live != {} {
      VerdictOrigin(c, s.inventory, s.service, live, s.sweep * live, s.updated, f, k);
    }
  }

  /** Every cached verdict is the result of an earlier live check of the same fingerprint for the same service. */
  lemma {:induction false} VerdictsAreChecked(steps: seq<Step>, f: string, k: string)
    requires Recorded(Run(steps), f, k)
    ensures Justified(History(steps), f, k, Run(steps).nodes[f][k])
  {
    if steps != [] {
      var n := |steps| - 1;
      StepOrigin(Run(steps[..n]), steps[n], f, k);
      if Recorded(Run(steps[..n]), f, k) { VerdictsAreChecked(steps[..n], f, k); }
    }
  }

  /** What the cache answers at `now` was found by a live check within the time the answer may stand. */
  lemma DecisionsAreJustified(steps: seq<Step>, s: Step, n: string)
    requires n in Decided(Run(steps), s).passed + Decided(Run(steps), s).failed
    ensures n in s.inventory
    ensures exists epoch :: Justified(History(steps), s.inventory[n], s.service, Verdict(n in Decided(Run(steps), s).passed, epoch))
                         && 0 <= s.decided - epoch <= if n in Decided(Run(steps), s).passed then s.ttls.pass else s.ttls.failure
  {
    var c := Run(steps);
    DecideMeaning(c, s.inventory, s.service, s.decided, s.ttls, n);
    VerdictsAreChecked(steps, s.inventory[n], s.service);
    var verdict := c.nodes[s.inventory[n]][s.service];
    assert verdict == Verdict(n in Decided(c, s).passed, verdict.epoch);
  }

  // ----- systemic verdicts -----

  /** The step stores what it saw although its sweep was judged systemic. */
  predicate StoresInconclusive(c: Cache, s: Step) { s.outcome.PostSweep? && Decided(c, s).live != {} }

  ghost predicate AllConclusive(c: Cache, h: set<Check>) {
    forall f, k :: Recorded(c, f, k) ==> Conclusive(h, f, k, c.nodes[f][k])
  }

  predicate StoresNoInconclusive(steps: seq<Step>) {
    steps == [] || (StoresNoInconclusive(steps[..|steps| - 1]) && !StoresInconclusive(Run(steps[..|steps| - 1]), steps[|steps| - 1]))
  }

  /** A run none of whose steps stores inconclusive evidence has only conclusive verdicts. */
  lemma {:induction false} ConclusiveRun(steps: seq<Step>)
    requires StoresNoInconclusive(steps)
    ensures AllConclusive(Run(steps), History(steps))
  {
    if steps != [] {
      var n := |steps| - 1;
      ConclusiveRun(steps[..n]);
      ConclusiveStep(Run(steps[..n]), steps[n], History(steps[..n]));
    }
  }

  lemma ConclusiveStep(c: Cache, s: Step, h: set<Check>)
    requires WellFormed(c) && AllConclusive(c, h) && !StoresInconclusive(c, s)
    ensures AllConclusive(After(c, s), h + Checks(c, s))
  {
    forall f, k | Recorded(After(c, s), f, k) ensures Conclusive(h + Checks(c, s), f, k, After(c, s).nodes[f][k]) {
      StepOrigin(c, s, f, k);
      if s.outcome.PostSweep? { assert Checks(c, s) == {}; }
    }
  }

  /** A sentinel-gate verdict leaves the cache alone. */
  lemma SentinelGateWritesNothing(c: Cache, s: Step)
    requires WellFormed(c) && s.outcome.SentinelGate?
    ensures After(c, s) == c && Checks(c, s) == {}
  {
  }

  /**
   With a clock that has moved on since every check so far, one step keeps the cached verdicts conclusive exactly
   when it does not store a post-sweep systemic sweep.
   */
  lemma ConclusiveExactly(c: Cache, s: Step, h: set<Check>)
    requires WellFormed(c) && AllConclusive(c, h) && s.updated > 0
    requires forall x :: x in h ==> x.epoch < s.updated
    ensures AllConclusive(After(c, s), h + Checks(c, s)) <==> !StoresInconclusive(c, s)
  {
    if StoresInconclusive(c, s) {
      var f := SomethingStored(c, s, h);
      var verdict := After(c, s).nodes[f][s.service];
      assert Check(f, s.service, verdict.passed, verdict.epoch, false) !in h + Checks(c, s);
    } else {
      ConclusiveStep(c, s, h);
    }
  }

  /** A step that stores anything leaves at least one verdict of its own, eviction or not. */
  lemma SomethingStored(c: Cache, s: Step, h: set<Check>) returns (f: string)
    requires WellFormed(c) && AllConclusive(c, h) && s.updated > 0
    requires forall x :: x in h ==> x.epoch < s.updated
    requires !s.outcome.SentinelGate? && Decided(c, s).live != {}
    ensures Recorded(After(c, s), f, s.service) && After(c, s).nodes[f][s.service].epoch == s.updated
  {
    var live := Decided(c, s).live;
    LiveListed(c, s);
    var n :| n in live;
    f := s.inventory[n];
    f := TouchedSurvives(c, s.inventory, s.service, live, s.sweep * live, s.updated, f, h);
  }

  lemma TouchedSurvives(c: Cache, inventory: Inventory, service: string, checked: set<string>, passed: set<string>, now: int, f: string, h: set<Check>)
    returns (g: string)
    requires WellFormed(c) && AllConclusive(c, h) && checked <= inventory.Keys && (exists n :: n in checked && inventory[n] == f)
    requires now > 0 && forall x :: x in h ==> x.epoch < now
    ensures Recorded(Updated(c, inventory, service, checked, passed, now), g, service)
    ensures Updated(c, inventory, service, checked, passed, now).nodes[g][service].epoch == now
  {
    var merged := Merged(c, inventory, service, checked, passed, now);
    UpdatedWellFormed(c, inventory, service, checked, passed, now);
    MergedAt(c, inventory, service, checked, passed, now, f);
    g := f;
    if |merged.order| > MAX_RECORDS && f !in Kept(merged) {
      g := KeptIsRecent(merged, f, service, now);
      RecentIsTouched(c, inventory, service, checked, passed, now, g, h);
      MergedAt(c, inventory, service, checked, passed, now, g);
    }
  }

  lemma KeptIsRecent(c: Cache, f: string, service: string, now: int) returns (g: string)
    requires WellFormed(c) && |c.order| > MAX_RECORDS && f !in Kept(c) && now > 0
    requires Recorded(c, f, service) && c.nodes[f][service].epoch == now
    ensures g in Kept(c) && g in c.nodes && Newest(c.nodes[g]) >= now && c.nodes[g] != map[]
  {
    KeptCount(c);
    g := Kept(c)[0];
    assert g in Kept(c);
    KeptBound(c);
    EvictsLeastRecent(c, g, f);
    OutranksRank(c, c.order, g, f);
    NewestMeaning(c.nodes[f]);
  }

  lemma KeptCount(c: Cache)
    requires WellFormed(c) && |c.order| > MAX_RECORDS
    ensures |Kept(c)| == MAX_RECORDS
  {
    RankedMeaning(c, c.order);
    FirstOfMeaning(Ranked(c, c.order), MAX_RECORDS);
  }

  /** Only a record just written can be as recent as `now`. */
  lemma RecentIsTouched(c: Cache, inventory: Inventory, service: string, checked: set<string>, passed: set<string>, now: int, g: string, h: set<Check>)
    requires WellFormed(c) && AllConclusive(c, h) && checked <= inventory.Keys
    requires forall x :: x in h ==> x.epoch < now
    requires g in Merged(c, inventory, service, checked, passed, now).nodes
    requires Merged(c, inventory, service, checked, passed, now).nodes[g] != map[]
    requires Newest(Merged(c, inventory, service, checked, passed, now).nodes[g]) >= now
    ensures exists n :: n in checked && inventory[n] == g
  {
    var services := Merged(c, inventory, service, checked, passed, now).nodes[g];
    MergedAt(c, inventory, service, checked, passed, now, g);
    NewestMeaning(services);
    var k :| k in services && services[k].epoch == Newest(services);
    assert g in c.nodes && k in c.nodes[g] ==> Conclusive(h, g, k, c.nodes[g][k]) by {
      if Recorded(c, g, k) {}
    }
  }

  /** A failure stored by a post-sweep systemic step is trusted by the next decision. */
  lemma PostSweepFailureIsTrusted(c: Cache, s: Step, n: string)
    requires WellFormed(c) && s.outcome.PostSweep? && n in Decided(c, s).live && n !in s.sweep
    requires forall a, b :: a in s.inventory && b in s.inventory && s.inventory[a] == s.inventory[b] ==> a == b
    requires |c.nodes| + |s.inventory| <= MAX_RECORDS && s.ttls.pass >= 0 && s.ttls.failure >= 0
    ensures n in Decided(After(c, s), s.(decided := s.updated)).failed
  {
    var live := Decided(c, s).live;
    LiveListed(c, s);
    Smaller(live, s.inventory.Keys);
    ChecksAreRemembered(c, s.inventory, s.service, live, s.sweep * live, s.updated, s.ttls, n);
    DecideMeaning(After(c, s), s.inventory, s.service, s.updated, s.ttls, n);
  }

  // ----- probes that do not change their mind -----

  /** The live sweep of a step is what the fixed probe `answers` says. */
  ghost predicate Stable(s: Step, answers: (string, string) -> bool) {
    forall n :: n in s.inventory ==> (n in s.sweep <==> answers(s.service, s.inventory[n]))
  }

  ghost predicate StableHistory(h: set<Check>, answers: (string, string) -> bool) {
    forall x :: x in h ==> x.passed == answers(x.service, x.fingerprint)
  }

  lemma {:induction false} StableRun(steps: seq<Step>, answers: (string, string) -> bool)
    requires forall s :: s in steps ==> Stable(s, answers)
    ensures StableHistory(History(steps), answers)
  {
    if steps != [] {
      var n := |steps| - 1;
      assert forall s :: s in steps[..n] ==> s in steps;
      assert Stable(steps[n], answers);
      StableRun(steps[..n], answers);
    }
  }

  /** When probes are stable in time, cached passes plus live passes are exactly a full live sweep. */
  lemma CacheEqualsFullSweep(steps: seq<Step>, s: Step, answers: (string, string) -> bool)
    requires (forall x :: x in steps ==> Stable(x, answers)) && Stable(s, answers) && s.outcome.Clear?
    ensures Routed(Run(steps), s) == set n | n in s.inventory && answers(s.service, s.inventory[n])
    ensures Routed(Run(steps), s) == s.sweep * s.inventory.Keys
  {
    var c := Run(steps);
    StableRun(steps, answers);
    LiveListed(c, s);
    forall n ensures n in Routed(c, s) <==> n in s.inventory && answers(s.service, s.inventory[n]) { RoutedWhenStable(steps, s, answers, n); }
  }

  lemma RoutedWhenStable(steps: seq<Step>, s: Step, answers: (string, string) -> bool, n: string)
    requires StableHistory(History(steps), answers) && Stable(s, answers) && s.outcome.Clear?
    ensures n in Routed(Run(steps), s) <==> n in s.inventory && answers(s.service, s.inventory[n])
  {
    var c := Run(steps);
    DecideMeaning(c, s.inventory, s.service, s.decided, s.ttls, n);
    if n in Decided(c, s).passed || n in Decided(c, s).failed { DecisionsAreJustified(steps, s, n); }
  }
}
