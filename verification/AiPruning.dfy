/** Pruning the AI country pools to the nodes that passed: `apply_ai_qualification`. */
module AiPruning {
  import opened Ordering
  import opened Results
  import opened Routing

  const AI_PREFIX := "cr_ai_"

  function AiProviders(providers: map<string, Provider>): set<string> { set p | p in providers && AI_PREFIX <= p }

  /** Whether an AI provider keeps at least one node. */
  predicate Survives(provider: Provider, names: set<string>) { provider.payload.Some? && KeptProxies(provider.payload.value, names) != [] }

  function Pruned(provider: Provider, names: set<string>): Provider
    requires provider.payload.Some?
  {
    provider.(payload := Some(KeptProxies(provider.payload.value, names)))
  }

  function PrunedProviders(providers: map<string, Provider>, names: set<string>): map<string, Provider> {
    map p | p in providers && (p in AiProviders(providers) ==> Survives(providers[p], names)) ::
      if p in AiProviders(providers) then Pruned(providers[p], names) else providers[p]
  }

  function Emptied(providers: map<string, Provider>, names: set<string>): set<string> {
    set p | p in AiProviders(providers) && !Survives(providers[p], names)
  }

  predicate UsesAny(g: Group, providers: set<string>) { exists p :: p in g.uses && p in providers }

  function UsingGroups(groups: seq<Group>, removed: set<string>): set<string> { set g | g in groups && UsesAny(g, removed) :: g.name }

  /** A member of the AI policy that is left with nothing but a removed or a rejecting anchor. */
  predicate Doomed(groups: seq<Group>, using: set<string>, member: string) {
    var g := FindLast(groups, member);
    && member != "DIRECT" && g.Some? && |g.value.proxies| == 1
    && (g.value.proxies[0] in using || Rejecting(groups, g.value.proxies[0]))
  }

  predicate Rejecting(groups: seq<Group>, name: string) {
    FindLast(groups, name).Some? && FindLast(groups, name).value.proxies == ["REJECT"]
  }

  function AnchorOfMember(groups: seq<Group>, member: string): string {
    var g := FindLast(groups, member);
    if g.Some? && |g.value.proxies| == 1 then g.value.proxies[0] else ""
  }

  function RemovedPublic(groups: seq<Group>, using: set<string>, members: seq<string>): set<string> {
    set m | m in members && Doomed(groups, using, m)
  }

  function RemovedGroups(groups: seq<Group>, using: set<string>, members: seq<string>): set<string> {
    using + RemovedPublic(groups, using, members) + set m | m in RemovedPublic(groups, using, members) :: AnchorOfMember(groups, m)
  }

  function Keep(groups: seq<Group>, removed: set<string>): (r: seq<Group>)
    ensures forall g :: g in r <==> g in groups && g.name !in removed
    ensures UniqueNames(groups) ==> UniqueNames(r)
  {
    if groups == [] then []
    else
      var n := |groups| - 1;
      assert groups == groups[..n] + [groups[n]];
      var init := Keep(groups[..n], removed);
      if groups[n].name in removed then init else init + [groups[n]]
  }

  /** The visible policy group: the first of its name; the length of the list when there is none. */
  function PolicyIndex(groups: seq<Group>): (i: nat)
    ensures i <= |groups|
    ensures i < |groups| ==> groups[i].name == AI_GROUP && !groups[i].hidden
  {
    if groups == [] || (groups[0].name == AI_GROUP && !groups[0].hidden) then 0 else 1 + PolicyIndex(groups[1..])
  }

  /** The groups after pruning: doomed ones gone, the policy no longer listing the removed countries. */
  function PrunedGroups(groups: seq<Group>, emptied: set<string>): seq<Group> {
    var i := PolicyIndex(groups);
    if i == |groups| then groups
    else
      var using, members := UsingGroups(groups, emptied), groups[i].proxies;
      Keep(groups[i := groups[i].(proxies := KeepMembers(members, RemovedPublic(groups, using, members)))], RemovedGroups(groups, using, members))
  }

  predicate SomeLive(members: seq<string>) { exists m :: m in members && m != "DIRECT" }

  predicate AllPayloads(providers: map<string, Provider>) { forall p :: p in AiProviders(providers) ==> providers[p].payload.Some? }

  /** The policy exists and still lists something besides DIRECT. */
  predicate PolicyLive(groups: seq<Group>, emptied: set<string>) {
    var i := PolicyIndex(groups);
    i < |groups| && SomeLive(KeepMembers(groups[i].proxies, RemovedPublic(groups, UsingGroups(groups, emptied), groups[i].proxies)))
  }

  /** When the pruning goes through. */
  predicate Prunable(providers: map<string, Provider>, groups: seq<Group>, names: set<string>) {
    && AiProviders(providers) != {} && AllPayloads(providers)
    && Emptied(providers, names) != AiProviders(providers)
    && PolicyLive(groups, Emptied(providers, names))
  }

  function PayloadTotal(providers: map<string, Provider>, names: seq<string>): nat
    requires forall p :: p in names ==> p in providers
  {
    if names == [] then 0
    else PayloadTotal(providers, names[..|names| - 1])
         + var p := providers[names[|names| - 1]]; if p.payload.Some? then |p.payload.value| else 0
  }

  function KeptTotal(providers: map<string, Provider>, names: set<string>, order: seq<string>): nat
    requires forall p :: p in order ==> p in providers
  {
    if order == [] then 0
    else KeptTotal(providers, names, order[..|order| - 1])
         + var p := providers[order[|order| - 1]]; if p.payload.Some? then |KeptProxies(p.payload.value, names)| else 0
  }

  datatype PruneReport = PruneReport(tested: nat, qualified: nat)

  function Totals(providers: map<string, Provider>, names: set<string>): PruneReport {
    PruneReport(PayloadTotal(providers, Sorted(AiProviders(providers))), KeptTotal(providers, names, Sorted(AiProviders(providers))))
  }

  lemma {:induction false} KeptTotalPositive(providers: map<string, Provider>, names: set<string>, order: seq<string>)
    requires forall p :: p in order ==> p in providers
    ensures KeptTotal(providers, names, order) > 0 <==> exists p :: p in order && Survives(providers[p], names)
  {
    if order != [] {
      KeptTotalPositive(providers, names, order[..|order| - 1]);
      assert order == order[..|order| - 1] + [order[|order| - 1]];
    }
  }

  lemma TotalsPositive(providers: map<string, Provider>, names: set<string>)
    ensures Totals(providers, names).qualified > 0 <==> Emptied(providers, names) != AiProviders(providers)
  {
    KeptTotalPositive(providers, names, Sorted(AiProviders(providers)));
    if p :| p in AiProviders(providers) && p !in Emptied(providers, names) {
      assert p in Sorted(AiProviders(providers)) && Survives(providers[p], names);
    }
    if p :| p in Sorted(AiProviders(providers)) && Survives(providers[p], names) {
      assert p !in Emptied(providers, names);
    }
  }

  /** The providers once the payloads of `done` have been cut down. */
  function CutDown(before: map<string, Provider>, done: seq<string>, names: set<string>): map<string, Provider> {
    map p | p in before :: if p in done && Survives(before[p], names) then Pruned(before[p], names) else before[p]
  }

  function EmptiedOf(before: map<string, Provider>, done: seq<string>, names: set<string>): set<string> {
    set p | p in done && p in before && !Survives(before[p], names)
  }

  predicate PayloadsOf(before: map<string, Provider>, done: seq<string>) { forall p :: p in done ==> p in before && before[p].payload.Some? }

  lemma CutDownAll(before: map<string, Provider>, order: seq<string>, names: set<string>)
    requires forall p :: p in order <==> p in AiProviders(before)
    ensures PayloadsOf(before, order) <==> AllPayloads(before)
    ensures EmptiedOf(before, order, names) == Emptied(before, names)
    ensures CutDown(before, order, names) - Emptied(before, names) == PrunedProviders(before, names)
  {
  }

  lemma CutDownStep(before: map<string, Provider>, order: seq<string>, k: nat, names: set<string>)
    requires k < |order| && NoDuplicates(order) && order[k] in before && before[order[k]].payload.Some?
    ensures var name := order[k];
            && CutDown(before, order[..k], names)[name] == before[name]
            && (PayloadsOf(before, order[..k]) ==> PayloadsOf(before, order[..k + 1]))
            && CutDown(before, order[..k + 1], names)
               == (if Survives(before[name], names) then CutDown(before, order[..k], names)[name := Pruned(before[name], names)]
                   else CutDown(before, order[..k], names))
            && EmptiedOf(before, order[..k + 1], names)
               == EmptiedOf(before, order[..k], names) + if Survives(before[name], names) then {} else {name}
  {
    assert order[..k + 1] == order[..k] + [order[k]];
    assert order[k] !in order[..k];
  }

  /** On a raise the caller discards the configuration. */
  method ApplyAiQualification(config: Config, names: set<string>) returns (r: Result<PruneReport>)
    modifies config`providers, config`groups
    ensures r.Ok? <==> Prunable(old(config.providers), old(config.groups), names)
    ensures r.Ok? ==> config.providers == PrunedProviders(old(config.providers), names)
    ensures r.Ok? ==> config.groups == PrunedGroups(old(config.groups), Emptied(old(config.providers), names))
    ensures r.Ok? ==> r.value == Totals(old(config.providers), names)
  {
    var groups := config.groups;
    TotalsPositive(config.providers, names);
    if AiProviders(config.providers) == {} { return Raised("candidate contains no AI country providers"); }
    var report, removed := PruneProviders(config, names);
    if report.Raised? { return report; }
    var live := PruneGroups(config, removed);
    if !live || report.value.qualified == 0 { return Raised("no nodes passed all AI qualification probes"); }
    return report;
  }

  method PruneGroups(config: Config, removed: set<string>) returns (live: bool)
    modifies config`groups
    ensures live <==> PolicyLive(old(config.groups), removed)
    ensures live ==> config.groups == PrunedGroups(old(config.groups), removed)
  {
    var groups := config.groups;
    var using := UsingGroups(groups, removed);
    var i := PolicyIndex(groups);
    if i == |groups| { return false; }
    var members := groups[i].proxies;
    var gone, public := CollectRemoved(groups, using, members);
    var kept := KeepMembers(members, public);
    config.groups := Keep(groups[i := groups[i].(proxies := kept)], gone);
    return SomeLive(kept);
  }

  /** One provider: its payload is replaced when something is kept. */
  method PruneOne(config: Config, name: string, names: set<string>) returns (tested: nat, kept: nat)
    requires name in config.providers && config.providers[name].payload.Some?
    modifies config`providers
    ensures tested == |old(config.providers)[name].payload.value|
    ensures kept == |KeptProxies(old(config.providers)[name].payload.value, names)|
    ensures config.providers == if kept == 0 then old(config.providers) else old(config.providers)[name := Pruned(old(config.providers)[name], names)]
  {
    var provider := config.providers[name];
    var rest := KeptProxies(provider.payload.value, names);
    if rest != [] { config.providers := config.providers[name := provider.(payload := Some(rest))]; }
    return |provider.payload.value|, |rest|;
  }

  function TotalsOf(providers: map<string, Provider>, names: set<string>, order: seq<string>): PruneReport
    requires forall p :: p in order ==> p in providers
  {
    PruneReport(PayloadTotal(providers, order), KeptTotal(providers, names, order))
  }

  lemma TotalsStep(providers: map<string, Provider>, names: set<string>, order: seq<string>, k: nat)
    requires (forall p :: p in order ==> p in providers) && k < |order| && providers[order[k]].payload.Some?
    ensures var payload := providers[order[k]].payload.value;
            var t := TotalsOf(providers, names, order[..k]);
            TotalsOf(providers, names, order[..k + 1]) == PruneReport(t.tested + |payload|, t.qualified + |KeptProxies(payload, names)|)
  {
    assert order[..k + 1] == order[..k] + [order[k]] && order[..k + 1][..k] == order[..k];
  }

  /** The provider loop: payloads are cut down in place and the emptied providers popped. */
  method PruneProviders(config: Config, names: set<string>) returns (r: Result<PruneReport>, removed: set<string>)
    modifies config`providers
    ensures r.Ok? <==> AllPayloads(old(config.providers))
    ensures r.Ok? ==> config.providers == PrunedProviders(old(config.providers), names)
    ensures r.Ok? ==> removed == Emptied(old(config.providers), names)
    ensures r.Ok? ==> r.value == Totals(old(config.providers), names)
  {
    var before := config.providers;
    var order := Sorted(AiProviders(before));
    CutDownAll(before, order, names);
    r, removed := PruneInOrder(config, order, names);
    if r.Ok? { config.providers := config.providers - removed; }
  }

  method PruneInOrder(config: Config, order: seq<string>, names: set<string>) returns (r: Result<PruneReport>, removed: set<string>)
    requires NoDuplicates(order) && forall p :: p in order ==> p in config.providers
    modifies config`providers
    ensures r.Ok? <==> PayloadsOf(old(config.providers), order)
    ensures r.Ok? ==> config.providers == CutDown(old(config.providers), order, names)
    ensures r.Ok? ==> removed == EmptiedOf(old(config.providers), order, names)
    ensures r.Ok? ==> r.value == TotalsOf(old(config.providers), names, order)
  {
    var before := config.providers;
    var report := PruneReport(0, 0);
    removed := {};
    for k := 0 to |order|
      invariant PayloadsOf(before, order[..k])
      invariant config.providers == CutDown(before, order[..k], names)
      invariant removed == EmptiedOf(before, order[..k], names)
      invariant report == TotalsOf(before, names, order[..k])
    {
      var name := order[k];
      if config.providers[name].payload.None? { return Raised("AI provider payload is invalid"), removed; }
      CutDownStep(before, order, k, names);
      TotalsStep(before, names, order, k);
      var tested, kept := PruneOne(config, name, names);
      report := PruneReport(report.tested + tested, report.qualified + kept);
      if kept == 0 { removed := removed + {name}; }
    }
    assert order[..|order|] == order;
    r := Ok(report);
  }

  /** The loop over the policy's members: the set of removed names grows while it is consulted. */
  method CollectRemoved(groups: seq<Group>, using: set<string>, members: seq<string>) returns (gone: set<string>, public: set<string>)
    ensures public == RemovedPublic(groups, using, members)
    ensures gone == RemovedGroups(groups, using, members)
  {
    gone, public := using, {};
    for k := 0 to |members|
      invariant public == RemovedPublic(groups, using, members[..k])
      invariant gone == using + set m | m in public :: AnchorOfMember(groups, m)
      invariant forall x :: x in gone ==> x in using || Rejecting(groups, x)
    {
      assert members[..k + 1] == members[..k] + [members[k]];
      var member := members[k];
      var g := FindLast(groups, member);
      if member != "DIRECT" && g.Some? && |g.value.proxies| == 1 {
        var anchor := g.value.proxies[0];
        if anchor in gone || Rejecting(groups, anchor) {
          public := public + {member};
          gone := gone + {anchor};
        }
      }
    }
    assert members[..|members|] == members;
    gone := gone + public;
  }

  // ----- what pruning keeps -----

  /** Nothing but qualified nodes is left in an AI provider, and every qualified one is. */
  lemma PrunedPayload(providers: map<string, Provider>, names: set<string>, p: string)
    requires p in AiProviders(providers) && providers[p].payload.Some?
    ensures p in PrunedProviders(providers, names) <==> PayloadNames(providers[p]) * names != {}
    ensures p in PrunedProviders(providers, names) ==>
              PayloadNames(PrunedProviders(providers, names)[p]) == PayloadNames(providers[p]) * names
  {
    var payload := providers[p].payload.value;
    var kept := KeptProxies(payload, names);
    assert forall x :: x in kept ==> x.name in PayloadNames(providers[p]) * names;
    if x :| x in PayloadNames(providers[p]) * names {
      var q :| q in payload && q.name == x;
      assert q in kept;
    }
    if kept != [] { assert kept[0] in kept; }
  }

  /** A group whose name is not removed is still there, the policy's member list aside. */
  lemma PrunedKeeps(groups: seq<Group>, emptied: set<string>, i: nat)
    requires UniqueNames(groups) && i < |groups| && PolicyIndex(groups) < |groups| && groups[i].name != AI_GROUP
    requires var using, members := UsingGroups(groups, emptied), groups[PolicyIndex(groups)].proxies;
             groups[i].name !in RemovedGroups(groups, using, members)
    ensures UniqueNames(PrunedGroups(groups, emptied)) && Find(PrunedGroups(groups, emptied), groups[i].name) == Some(groups[i])
  {
    var after := PrunedGroups(groups, emptied);
    PrunedUnique(groups, emptied);
    var pi := PolicyIndex(groups);
    var using, members := UsingGroups(groups, emptied), groups[pi].proxies;
    var updated := groups[pi := groups[pi].(proxies := KeepMembers(members, RemovedPublic(groups, using, members)))];
    assert updated[i] == groups[i];
    assert groups[i] in after;
    var j :| 0 <= j < |after| && after[j] == groups[i];
    FindUnique(after, j);
  }

  lemma PrunedUnique(groups: seq<Group>, emptied: set<string>)
    requires UniqueNames(groups)
    ensures UniqueNames(PrunedGroups(groups, emptied))
  {
    var pi := PolicyIndex(groups);
    if pi < |groups| {
      var using, members := UsingGroups(groups, emptied), groups[pi].proxies;
      var updated := groups[pi := groups[pi].(proxies := KeepMembers(members, RemovedPublic(groups, using, members)))];
      assert forall k :: 0 <= k < |groups| ==> updated[k].name == groups[k].name;
    }
  }
}
