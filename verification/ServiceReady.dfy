/** When the service rewrite goes through: the shape it needs, and why every check it makes then passes. */
module ServiceReady {
  import opened Ordering
  import opened Results
  import opened Routing
  import opened Validator
  import opened AiPruning
  import opened ServiceQualification
  import opened ServiceLeaves
  import opened ServiceRewrite
  import opened ServiceWiring
  import opened ServiceBlocks
  import opened ServiceRules
  import RewrittenRules

  // ----- the shape -----

  /** Groups with a country's public name are country groups of the policy. */
  ghost predicate NamedCountries(groups: seq<Group>, policy: seq<string>) {
    forall g :: g in groups && g.name in CountryNames() ==> Single(groups, policy, g.name)
  }

  /** The groups a rewrite may remove: those over AI providers, the country groups, and what those refer to. */
  function Removable(groups: seq<Group>, ai: set<string>): set<string> {
    var policy := PolicyMembers(groups);
    UsingGroups(groups, ai) + (set m | m in policy && Single(groups, policy, m))
    + set m | m in policy && Single(groups, policy, m) :: AnchorOfMember(groups, m)
  }

  predicate RulesApart(rules: seq<Rule>, removable: set<string>) { forall r :: r in rules ==> r.target in BUILTINS || r.target !in removable }

  /** No group but its anchor and groups over that anchor alone uses the provider. */
  predicate UsedOnRoute(groups: seq<Group>, p: string) {
    var a := AnchorOf(groups, p);
    a.Some? && a.value !in BUILTINS && forall g :: g in groups && p in g.uses ==> g.name == a.value || g.proxies == [a.value]
  }

  /** Every AI provider has a route whose anchor can be cloned. */
  predicate Routable(providers: map<string, Provider>, groups: seq<Group>) {
    && GeneratorShape(providers, groups)
    && forall p :: p in AiProviders(providers) ==>
         && HasRoute(groups, p) && WrapperOf(groups, AnchorOf(groups, p).value).value !in BUILTINS
         && UsedOnRoute(groups, p) && Cloneable(Find(groups, AnchorOf(groups, p).value).value)
  }

  /** The shape of the groups: routes, wiring, a policy without repetitions, and no group called like a builtin. */
  ghost predicate GroupsReady(providers: map<string, Provider>, groups: seq<Group>) {
    && Routable(providers, groups) && Wired(groups, PolicyMembers(groups), AiProviders(providers))
    && NamedCountries(groups, PolicyMembers(groups)) && NoDuplicates(PolicyMembers(groups))
    && forall b :: b in BUILTINS ==> Find(groups, b).None?
  }

  ghost predicate NamesReady(providers: map<string, Provider>, groups: seq<Group>, digest: string -> string) {
    NamesFree(groups, {OpenAi, Claude, Gemini}, AiProviders(providers), digest) && DigestsDiffer(AiProviders(providers), digest)
  }

  /** A generated candidate: valid, of the generator's shape, with the new names free and no rule on a country group. */
  ghost predicate Ready(search: Search, providers: map<string, Provider>, groups: seq<Group>, ruleProviders: map<string, RuleProvider>, rules: seq<Rule>,
                        digest: string -> string) {
    && Validated(search, providers, groups, ruleProviders, rules)
    && GroupsReady(providers, groups) && NamesReady(providers, groups, digest)
    && RulesApart(rules, Removable(groups, AiProviders(providers)))
  }

  predicate PreferencesKnown(preferred: Option<seq<string>>) { preferred.Some? ==> forall x :: x in preferred.value ==> x in REGIONS }

  /** The public country groups: those with a country's name, and the wrappers of the AI providers. */
  function Countries(groups: seq<Group>, ai: set<string>): set<string> {
    (set g | g in groups && g.name in CountryNames() :: g.name) + set p | p in ai && HasRoute(groups, p) :: WrapperOf(groups, AnchorOf(groups, p).value).value
  }

  /** What failing closed removes. */
  function Closing(groups: seq<Group>, ai: set<string>): set<string> {
    (set p | p in ai && AnchorOf(groups, p).Some? :: AnchorOf(groups, p).value) + Countries(groups, ai) + ClosedAnchors(groups, Countries(groups, ai))
  }

  /** The groups with an AI policy that only rejects. */
  function PolicyRejecting(groups: seq<Group>): seq<Group> {
    var i := PolicyIndex(groups);
    if i == |groups| then groups else groups[i := groups[i].(proxies := ["REJECT"])]
  }

  /** Without the AI providers and with a rejecting AI policy every other measured group still has a node. */
  ghost predicate StandsAlone(search: Search, providers: map<string, Provider>, groups: seq<Group>) {
    var ai := AiProviders(providers);
    forall g :: g in PolicyRejecting(groups) && Measured(g) && g.name !in Closing(groups, ai) ==>
      EmptyStable(g) || HasNode(search, providers - ai, PolicyRejecting(groups), g.name)
  }

  /**
   What a caller has to bring: every probe's result, known nodes, the reviewed rules, and known regions or, with nothing
   qualified, automatic groups that do not live on the AI policy.
   */
  ghost predicate Acceptable(search: Search, providers: map<string, Provider>, groups: seq<Group>, ruleProviders: map<string, RuleProvider>, rules: seq<Rule>,
                             qualified: map<Service, set<string>>, preferred: Option<seq<string>>) {
    && Probed(qualified) && Union(qualified) <= CandidateNames(providers) && Rewritable(ruleProviders, rules)
    && if Union(qualified) != {} then PreferencesKnown(preferred) else StandsAlone(search, providers, groups)
  }

  // ----- what stays after the pruning -----

  lemma GoneRemovable(groups: seq<Group>, ai: set<string>, emptied: set<string>)
    requires emptied <= ai
    ensures Gone(groups, emptied) <= Removable(groups, ai)
  {
    UsingGrows(groups, emptied, ai);
  }

  /** The policy survives, without its removed members. */
  lemma PolicyStays(groups: seq<Group>, ai: set<string>, emptied: set<string>)
    requires UniqueNames(groups) && PolicyIndex(groups) < |groups| && emptied <= ai && AI_GROUP !in Removable(groups, ai)
    ensures PolicyIndex(PrunedGroups(groups, emptied)) < |PrunedGroups(groups, emptied)|
    ensures PolicyMembers(PrunedGroups(groups, emptied)) == KeepMembers(PolicyMembers(groups), GonePublic(groups, emptied))
  {
    GoneRemovable(groups, ai, emptied);
    var after := PrunedGroups(groups, emptied);
    var g := PrunedImage(groups, emptied, groups[PolicyIndex(groups)]);
    PolicyFound(after, g);
    PrunedUnique(groups, emptied);
    SameName(after, g, after[PolicyIndex(after)]);
  }

  lemma {:induction false} PolicyFound(groups: seq<Group>, g: Group)
    requires g in groups && g.name == AI_GROUP && !g.hidden
    ensures PolicyIndex(groups) < |groups|
  {
    if groups[0] != g { PolicyFound(groups[1..], g); }
  }

  /** The wrapper of a routed provider is a country group of the policy. */
  lemma WrapperSingle(groups: seq<Group>, ai: set<string>, p: string) returns (w: Group)
    requires UniqueNames(groups) && Wired(groups, PolicyMembers(groups), ai)
    requires p in ai && AnchorShape(groups, p) && HasRoute(groups, p)
    ensures var a := AnchorOf(groups, p).value;
            && w in groups && Some(w.name) == WrapperOf(groups, a) && w.proxies == [a]
            && Single(groups, PolicyMembers(groups), w.name) && AnchorOfMember(groups, w.name) == a
  {
    var a := AnchorOf(groups, p).value;
    w :| w in groups && w.name == WrapperOf(groups, a).value && w.proxies == [a];
    var anchor := Find(groups, a).value;
    assert p in anchor.uses && UsesAny(anchor, ai);
    var k :| 0 <= k < |groups| && groups[k] == anchor;
    FindLastUnique(groups, k);
    var j :| 0 <= j < |groups| && groups[j] == w;
    FindLastUnique(groups, j);
    assert a in w.proxies;
  }

  /** The wrapper of a provider that keeps a node survives the pruning untouched. */
  lemma WrapperStays(groups: seq<Group>, ai: set<string>, emptied: set<string>, p: string)
    requires UniqueNames(groups) && PolicyIndex(groups) < |groups| && Wired(groups, PolicyMembers(groups), ai)
    requires AI_GROUP !in Removable(groups, ai) && emptied <= ai && p in ai && p !in emptied && AnchorShape(groups, p) && HasRoute(groups, p)
    ensures var w := WrapperOf(groups, AnchorOf(groups, p).value).value;
            w in PolicyMembers(groups) && w != "DIRECT" && w !in GonePublic(groups, emptied) && Find(PrunedGroups(groups, emptied), w).Some?
  {
    var w := WrapperSingle(groups, ai, p);
    WrapperUnused(groups, ai, emptied, p, w);
    WrapperPublic(groups, emptied, p, w);
    WrapperNoAnchor(groups, ai, emptied, w);
    NotGone(groups, emptied, w.name);
    var g := PrunedImage(groups, emptied, w);
  }

  lemma NotGone(groups: seq<Group>, emptied: set<string>, name: string)
    requires name !in UsingGroups(groups, emptied) && name !in GonePublic(groups, emptied)
    requires forall v :: v in GonePublic(groups, emptied) ==> AnchorOfMember(groups, v) != name
    ensures name !in Gone(groups, emptied)
  {
  }

  lemma WrapperUnused(groups: seq<Group>, ai: set<string>, emptied: set<string>, p: string, w: Group)
    requires UniqueNames(groups) && ProvidersShown(groups, PolicyMembers(groups), ai) && emptied <= ai && p !in emptied
    requires AnchorShape(groups, p) && w in groups && Single(groups, PolicyMembers(groups), w.name)
    requires AnchorOfMember(groups, w.name) == AnchorOf(groups, p).value
    ensures w.name !in UsingGroups(groups, emptied)
  {
    forall g, q | g in groups && g.name == w.name && q in g.uses ensures q !in emptied {
      if q in emptied { ShownUse(groups, ai, p, g, q); }
    }
  }

  /** A country group shows only the provider of its anchor. */
  lemma ShownUse(groups: seq<Group>, ai: set<string>, p: string, g: Group, q: string)
    requires UniqueNames(groups) && ProvidersShown(groups, PolicyMembers(groups), ai) && AnchorShape(groups, p)
    requires g in groups && Single(groups, PolicyMembers(groups), g.name) && AnchorOfMember(groups, g.name) == AnchorOf(groups, p).value
    requires q in g.uses && q in ai
    ensures q == p
  {
    var h :| h in groups && h.name == AnchorOfMember(groups, g.name) && q in h.uses;
    SameName(groups, h, Find(groups, h.name).value);
  }

  lemma WrapperPublic(groups: seq<Group>, emptied: set<string>, p: string, w: Group)
    requires UniqueNames(groups) && p !in emptied && AnchorShape(groups, p)
    requires AnchorOfMember(groups, w.name) == AnchorOf(groups, p).value
    ensures w.name !in GonePublic(groups, emptied)
  {
    var anchor := Find(groups, AnchorOf(groups, p).value).value;
    var k :| 0 <= k < |groups| && groups[k] == anchor;
    FindLastUnique(groups, k);
    assert !UsesAny(anchor, emptied);
    NotUsing(groups, emptied, anchor);
  }

  lemma WrapperNoAnchor(groups: seq<Group>, ai: set<string>, emptied: set<string>, w: Group)
    requires CountriesWired(groups, PolicyMembers(groups)) && emptied <= ai && AI_GROUP !in Removable(groups, ai)
    requires Single(groups, PolicyMembers(groups), w.name)
    ensures forall v :: v in GonePublic(groups, emptied) ==> AnchorOfMember(groups, v) != w.name
  {
    GoneRemovable(groups, ai, emptied);
    forall v | v in GonePublic(groups, emptied) ensures AnchorOfMember(groups, v) != w.name {
      var g := FindLast(groups, v).value;
      assert g.proxies[0] in g.proxies;
    }
  }

  // ----- the pruning goes through -----

  lemma SomeSurvivor(providers: map<string, Provider>, names: set<string>) returns (p: string)
    requires names != {} && names <= CandidateNames(providers) && AllPayloads(providers)
    ensures p in AiProviders(providers) && p !in Emptied(providers, names)
  {
    var x :| x in names;
    p :| p in AiProviders(providers) && x in PayloadNames(providers[p]);
    assert x in PayloadNames(providers[p]) * names;
    PrunedPayload(providers, names, p);
  }

  lemma GoesThrough(providers: map<string, Provider>, groups: seq<Group>, names: set<string>)
    requires GroupsReady(providers, groups) && AI_GROUP !in Removable(groups, AiProviders(providers))
    requires names != {} && names <= CandidateNames(providers)
    ensures Prunable(providers, groups, names)
  {
    var p := SomeSurvivor(providers, names);
    WrapperStays(groups, AiProviders(providers), Emptied(providers, names), p);
    StillLive(groups, Emptied(providers, names), WrapperOf(groups, AnchorOf(groups, p).value).value);
  }

  lemma StillLive(groups: seq<Group>, emptied: set<string>, w: string)
    requires PolicyIndex(groups) < |groups| && w in PolicyMembers(groups) && w != "DIRECT" && w !in GonePublic(groups, emptied)
    ensures PolicyLive(groups, emptied)
  {
  }

  lemma {:induction false} KeepDistinct(members: seq<string>, removed: set<string>)
    requires NoDuplicates(members)
    ensures NoDuplicates(KeepMembers(members, removed))
  {
    if members != [] {
      KeepDistinct(members[1..], removed);
      assert forall m :: m in KeepMembers(members[1..], removed) ==> m in members[1..];
    }
  }

  // ----- the services are built -----

  lemma OneWrapper(st: Setting, groups: seq<Group>, w: string, v: string)
    requires SettingOf(st, groups) && w in st.byPublic && v in st.byPublic && st.byPublic[w] == st.byPublic[v]
    ensures w == v
  {
    var t :| t in st.routes && t.wrapper == w && t.provider == st.byPublic[w];
    var u :| u in st.routes && u.wrapper == v && u.provider == st.byPublic[v];
    assert IsRoute(groups, t) && IsRoute(groups, u);
  }

  lemma {:induction false} ServedDistinct(order: seq<string>, byPublic: map<string, string>, names: map<string, set<string>>)
    requires NoDuplicates(order) && forall w, v :: w in byPublic && v in byPublic && byPublic[w] == byPublic[v] ==> w == v
    ensures NoDuplicates(Served(order, byPublic, names))
  {
    if order != [] {
      var n := |order| - 1;
      ServedDistinct(order[..n], byPublic, names);
      if order[n] in byPublic { ServedMeaning(order[..n], byPublic, names, byPublic[order[n]]); }
    }
  }

  ghost predicate Sound(providers: map<string, Provider>, groups: seq<Group>) {
    UniqueNames(groups) && Resolved(groups) && Supplied(providers, groups)
  }

  lemma UsableLonger(base: seq<Group>, groups: seq<Group>, served: seq<string>, plan: Plan)
    requires base <= groups && Usable(base, served, plan)
    ensures Usable(groups, served, plan)
  {
    forall p | p in served ensures Find(groups, plan.anchors[p]) == Find(base, plan.anchors[p]) { FindPrefix(base, groups, plan.anchors[p]); }
  }

  /** Who a service serves: distinct AI providers that are still there. */
  ghost predicate Serves(providers: map<string, Provider>, served: seq<string>, ai: set<string>) {
    NoDuplicates(served) && forall p :: p in served ==> p in ai && p in providers
  }

  lemma BlockKeeps(providers: map<string, Provider>, groups: seq<Group>, block: seq<Group>, s: Service, served: seq<string>,
                   services: set<Service>, ai: set<string>, digest: string -> string)
    requires Sound(providers, groups) && IsBlock(block, s, served, digest) && Serves(providers, served, ai)
    requires DigestsDiffer(ai, digest) && s in services && NamesFree(groups, services, ai, digest)
    ensures Sound(providers, groups + block) && NamesFree(groups + block, services - {s}, ai, digest)
  {
    BlockNames(block, s, served, ai, digest);
    forall g | g in block ensures Find(groups, g.name).None? {
      var i :| 0 <= i < |block| && block[i] == g;
    }
    UniqueAppend(groups, block);
    BlockResolved(groups, block, s, served, digest);
    BlockSupplied(providers, groups, block, s, served, digest);
    StillFree(groups, block, s, served, services - {s}, ai, digest);
  }

  /** The list so far: sound, longer than the base, with the names of the services to come still free. */
  ghost predicate Extends(out: Result<seq<Group>>, providers: map<string, Provider>, base: seq<Group>, free: set<Service>, ai: set<string>,
                          digest: string -> string) {
    out.Ok? && base <= out.value && Sound(providers, out.value) && NamesFree(out.value, free, ai, digest)
  }

  /** A service whose anchors are usable and whose providers are still there. */
  ghost predicate Servable(providers: map<string, Provider>, base: seq<Group>, st: Setting, s: Service, ai: set<string>)
    requires Probed(st.qualified)
  {
    Usable(base, ServedIn(st, s), PlanIn(st, s)) && Serves(providers, ServedIn(st, s), ai)
  }

  lemma OneService(providers: map<string, Provider>, base: seq<Group>, now: Result<seq<Group>>, s: Service, st: Setting, free: set<Service>, ai: set<string>)
    requires Probed(st.qualified) && Extends(now, providers, base, free, ai, st.digest) && s in free
    requires Servable(providers, base, st, s, ai) && DigestsDiffer(ai, st.digest)
    ensures Extends(AddService(now.value, s, st.order, st.byPublic, PlanIn(st, s)), providers, base, free - {s}, ai, st.digest)
  {
    UsableLonger(base, now.value, ServedIn(st, s), PlanIn(st, s));
    var block := BlockAdded(now.value, s, st.order, st.byPublic, PlanIn(st, s));
    BlockKeeps(providers, now.value, block, s, ServedIn(st, s), free, ai, st.digest);
  }

  lemma AddServicesOne(base: seq<Group>, services: seq<Service>, st: Setting)
    requires Probed(st.qualified) && services != [] && AddServices(base, services[..|services| - 1], st).Ok?
    ensures var s := services[|services| - 1];
            AddServices(base, services, st)
            == AddService(AddServices(base, services[..|services| - 1], st).value, s, st.order, st.byPublic, PlanIn(st, s))
  {
  }

  lemma LastService(services: seq<Service>, free: set<Service>)
    requires services != [] && NoDuplicates(services) && forall s :: s in services ==> s in free
    ensures var init, s := services[..|services| - 1], services[|services| - 1];
            && (forall t :: t in services <==> t in init || t == s)
            && s in free - (set t | t in init)
            && free - (set t | t in init) - {s} == free - (set t | t in services)
  {
    assert services == services[..|services| - 1] + [services[|services| - 1]];
  }

  lemma {:induction false} ServicesAdded(providers: map<string, Provider>, base: seq<Group>, services: seq<Service>, st: Setting, free: set<Service>, ai: set<string>)
    requires Probed(st.qualified) && Sound(providers, base) && NoDuplicates(services) && (forall s :: s in services ==> s in free)
    requires forall s :: s in services ==> Servable(providers, base, st, s, ai)
    requires DigestsDiffer(ai, st.digest) && NamesFree(base, free, ai, st.digest)
    ensures Extends(AddServices(base, services, st), providers, base, free - (set s | s in services), ai, st.digest)
  {
    if services != [] {
      var n := |services| - 1;
      var init, s := services[..n], services[n];
      LastService(services, free);
      ServicesAdded(providers, base, init, st, free, ai);
      AddServicesOne(base, services, st);
      OneService(providers, base, AddServices(base, init, st), s, st, free - (set t | t in init), ai);
    }
  }

  // ----- every check passes after the pruning -----

  lemma PrunedUse(providers: map<string, Provider>, groups: seq<Group>, emptied: set<string>, g: Group, p: string)
    requires UniqueNames(groups) && PolicyIndex(groups) < |groups| && Supplied(providers, groups)
    requires g in PrunedGroups(groups, emptied) && p in g.uses
    ensures p in providers && p !in emptied
  {
    var h := PrunedOrigin(groups, emptied, g);
    NotOver(groups, emptied, h, p);
  }

  lemma StillThere(providers: map<string, Provider>, names: set<string>, p: string)
    requires p in providers && p !in Emptied(providers, names)
    ensures p in PrunedProviders(providers, names)
  {
  }

  lemma PrunedSupplied(providers: map<string, Provider>, groups: seq<Group>, names: set<string>)
    requires UniqueNames(groups) && PolicyIndex(groups) < |groups| && Supplied(providers, groups)
    ensures Supplied(PrunedProviders(providers, names), PrunedGroups(groups, Emptied(providers, names)))
  {
    forall g, p | g in PrunedGroups(groups, Emptied(providers, names)) && p in g.uses ensures p in PrunedProviders(providers, names) {
      PrunedUse(providers, groups, Emptied(providers, names), g, p);
      StillThere(providers, names, p);
    }
  }

  lemma PrunedSound(providers: map<string, Provider>, groups: seq<Group>, names: set<string>)
    requires Sound(providers, groups) && PolicyIndex(groups) < |groups| && Wired(groups, PolicyMembers(groups), AiProviders(providers))
    ensures Sound(PrunedProviders(providers, names), PrunedGroups(groups, Emptied(providers, names)))
  {
    PrunedUnique(groups, Emptied(providers, names));
    PrunedResolved(groups, AiProviders(providers), Emptied(providers, names));
    PrunedSupplied(providers, groups, names);
  }

  lemma NotOver(groups: seq<Group>, emptied: set<string>, h: Group, p: string)
    requires h in groups && p in h.uses && h.name !in Gone(groups, emptied)
    ensures p !in emptied
  {
    assert p in emptied ==> UsesAny(h, emptied);
  }

  lemma PrunedFree(groups: seq<Group>, emptied: set<string>, name: string)
    requires UniqueNames(groups) && PolicyIndex(groups) < |groups| && Find(groups, name).None?
    ensures Find(PrunedGroups(groups, emptied), name).None?
  {
    if Find(PrunedGroups(groups, emptied), name).Some? {
      var h := PrunedOrigin(groups, emptied, Find(PrunedGroups(groups, emptied), name).value);
    }
  }

  /** What the pruning does not remove is still defined. */
  lemma PrunedDefined(groups: seq<Group>, ai: set<string>, emptied: set<string>, name: string)
    requires UniqueNames(groups) && PolicyIndex(groups) < |groups| && emptied <= ai
    requires Defined(groups, name) && (name in BUILTINS || name !in Removable(groups, ai))
    ensures Defined(PrunedGroups(groups, emptied), name)
  {
    if name !in BUILTINS {
      GoneRemovable(groups, ai, emptied);
      var g := PrunedImage(groups, emptied, Find(groups, name).value);
    }
  }

  lemma PrunedFilled(providers: map<string, Provider>, names: set<string>)
    requires Filled(providers)
    ensures Filled(PrunedProviders(providers, names))
  {
  }

  /** A setting over a candidate of the generator's shape. */
  ghost predicate SettingReady(st: Setting, groups: seq<Group>) {
    && SettingOf(st, groups) && NoDuplicates(st.order)
    && GroupsReady(st.providers, groups) && NamesReady(st.providers, groups, st.digest)
    && AI_GROUP !in Removable(groups, AiProviders(st.providers))
  }

  function BaseOf(st: Setting, groups: seq<Group>): seq<Group>
    requires Probed(st.qualified)
  {
    PrunedGroups(groups, Emptied(st.providers, Union(st.qualified)))
  }

  lemma PlannedAnchor(st: Setting, groups: seq<Group>, s: Service, p: string)
    requires SettingOf(st, groups) && p in AiProviders(st.providers)
    ensures p in PlanIn(st, s).anchors && Some(PlanIn(st, s).anchors[p]) == AnchorOf(groups, p)
  {
    var t :| t in st.routes && t.provider == p;
    assert p in AnchorsOf(st.routes);
    var u :| u in st.routes && u.provider == p && u.anchor == AnchorsOf(st.routes)[p];
    assert IsRoute(groups, u);
  }

  lemma ServedCloneable(st: Setting, groups: seq<Group>, s: Service, p: string)
    requires SettingReady(st, groups) && p in ServedIn(st, s)
    ensures p in PlanIn(st, s).anchors
    ensures var a := Find(BaseOf(st, groups), PlanIn(st, s).anchors[p]); a.Some? && Cloneable(a.value)
  {
    ServedExactly(st, groups, s, p);
    RetainedAnchor(st.providers, groups, Union(st.qualified), p);
    PlannedAnchor(st, groups, s, p);
  }

  lemma ServedUsable(st: Setting, groups: seq<Group>, s: Service)
    requires SettingReady(st, groups)
    ensures Usable(BaseOf(st, groups), ServedIn(st, s), PlanIn(st, s))
  {
    ServedAnchored(st, groups, s);
    forall p | p in ServedIn(st, s) ensures p in PlanIn(st, s).anchors && Cloneable(Find(BaseOf(st, groups), PlanIn(st, s).anchors[p]).value) {
      ServedCloneable(st, groups, s, p);
    }
  }

  lemma ServedServes(st: Setting, groups: seq<Group>, s: Service)
    requires SettingReady(st, groups)
    ensures Serves(PrunedProviders(st.providers, Union(st.qualified)), ServedIn(st, s), AiProviders(st.providers))
  {
    forall w, v | w in st.byPublic && v in st.byPublic && st.byPublic[w] == st.byPublic[v] ensures w == v { OneWrapper(st, groups, w, v); }
    ServedDistinct(st.order, st.byPublic, PlanIn(st, s).names);
    forall p | p in ServedIn(st, s) ensures p in AiProviders(st.providers) && p in PrunedProviders(st.providers, Union(st.qualified)) {
      ServedExactly(st, groups, s, p);
    }
  }

  lemma BaseFree(st: Setting, groups: seq<Group>)
    requires SettingReady(st, groups)
    ensures NamesFree(BaseOf(st, groups), {OpenAi, Claude, Gemini}, AiProviders(st.providers), st.digest)
  {
    forall name | Find(groups, name).None? ensures Find(BaseOf(st, groups), name).None? {
      PrunedFree(groups, Emptied(st.providers, Union(st.qualified)), name);
    }
  }

  lemma ServedServable(st: Setting, groups: seq<Group>, s: Service)
    requires SettingReady(st, groups)
    ensures Servable(PrunedProviders(st.providers, Union(st.qualified)), BaseOf(st, groups), st, s, AiProviders(st.providers))
  {
    ServedUsable(st, groups, s);
    ServedServes(st, groups, s);
  }

  lemma ServicesExtend(st: Setting, groups: seq<Group>, services: seq<Service>, free: set<Service>)
    requires SettingReady(st, groups) && Sound(st.providers, groups)
    requires NoDuplicates(services) && (forall s :: s in services ==> s in free) && free <= {OpenAi, Claude, Gemini}
    ensures var r := AddServices(BaseOf(st, groups), services, st);
            r.Ok? && BaseOf(st, groups) <= r.value && Sound(PrunedProviders(st.providers, Union(st.qualified)), r.value)
  {
    PrunedSound(st.providers, groups, Union(st.qualified));
    BaseFree(st, groups);
    forall s | s in services ensures Servable(PrunedProviders(st.providers, Union(st.qualified)), BaseOf(st, groups), st, s, AiProviders(st.providers)) {
      ServedServable(st, groups, s);
    }
    ServicesAdded(PrunedProviders(st.providers, Union(st.qualified)), BaseOf(st, groups), services, st, free, AiProviders(st.providers));
  }

  /** The three services are added, and the groups stay sound. */
  lemma ServicesSound(st: Setting, groups: seq<Group>)
    requires SettingReady(st, groups) && Sound(st.providers, groups)
    ensures var r := AddServices(BaseOf(st, groups), SERVICES, st);
            r.Ok? && BaseOf(st, groups) <= r.value && Sound(PrunedProviders(st.providers, Union(st.qualified)), r.value)
  {
    ServicesExtend(st, groups, SERVICES, {OpenAi, Claude, Gemini});
  }

  lemma HideKeeps(providers: map<string, Provider>, groups: seq<Group>, names: set<string>)
    requires Sound(providers, groups)
    ensures Sound(providers, Hide(groups, names))
    ensures forall name :: Defined(groups, name) ==> Defined(Hide(groups, names), name)
  {
    var after := Hide(groups, names);
    forall name | Defined(groups, name) ensures Defined(after, name) {
      if name !in BUILTINS {
        var i :| 0 <= i < |groups| && groups[i] == Find(groups, name).value;
        assert after[i].name == name && after[i] in after;
        FoundIn(after, after[i]);
      }
    }
    forall g, m | g in after && m in g.proxies ensures Defined(after, m) {
      var i :| 0 <= i < |after| && after[i] == g;
      assert groups[i] in groups && m in groups[i].proxies;
    }
    forall g, p | g in after && p in g.uses ensures p in providers {
      var i :| 0 <= i < |after| && after[i] == g;
      assert groups[i] in groups && p in groups[i].uses;
    }
  }

  lemma FreeTargets(groups: seq<Group>, rules: seq<Rule>)
    requires Targeted(groups, rules) && forall s: Service :: Find(groups, Target(s)).None?
    ensures NoServiceTargets(rules)
  {
    forall r | r in rules ensures r.target !in {OPENAI_TARGET, CLAUDE_TARGET, GEMINI_TARGET} {
      assert Defined(groups, r.target);
      NotBuiltin(OpenAi, "", x => x);
      NotBuiltin(Claude, "", x => x);
      NotBuiltin(Gemini, "", x => x);
      assert Find(groups, Target(OpenAi)).None? && Find(groups, Target(Claude)).None? && Find(groups, Target(Gemini)).None?;
    }
  }

  /** The rewritten rules aim at what is still there, or at a service target. */
  lemma RewrittenTargets(groups: seq<Group>, after: seq<Group>, rules: seq<Rule>)
    requires forall r :: r in rules ==> Defined(after, r.target)
    requires forall s: Service :: Defined(after, Target(s))
    ensures Targeted(after, Rewritten(rules))
  {
    assert Defined(after, Target(OpenAi)) && Defined(after, Target(Claude)) && Defined(after, Target(Gemini));
    forall r | r in Rewritten(rules) ensures Defined(after, r.target) { RewrittenRules.RewrittenFrom(rules, r); }
  }

  /** The country groups are still there to be hidden. */
  lemma CountriesFound(st: Setting, groups: seq<Group>, out: seq<Group>, w: string)
    requires SettingReady(st, groups) && BaseOf(st, groups) <= out && w in st.byPublic
    ensures Find(out, w).Some?
  {
    var t :| t in st.routes && t.wrapper == w && t.provider == st.byPublic[w];
    var emptied := Emptied(st.providers, Union(st.qualified));
    assert t.provider in PrunedProviders(st.providers, Union(st.qualified)) && t.provider !in emptied;
    assert IsRoute(groups, t);
    WrapperStays(groups, AiProviders(st.providers), emptied, t.provider);
    FindPrefix(BaseOf(st, groups), out, w);
  }

  lemma TargetFound(st: Setting, groups: seq<Group>, out: seq<Group>, s: Service)
    requires SettingReady(st, groups) && AddServices(BaseOf(st, groups), SERVICES, st) == Ok(out)
    ensures Find(out, Target(s)).Some?
  {
    ServicesBuilt(st, groups, s);
    var g :| g in out && IsTarget(g, s, ServedIn(st, s), PlanIn(st, s));
    FoundIn(out, g);
  }

  lemma DefinedLonger(base: seq<Group>, out: seq<Group>, name: string)
    requires base <= out && Defined(base, name)
    ensures Defined(out, name)
  {
    DefinedGrows(base, out[|base|..], name);
    assert out == base + out[|base|..];
  }

  /** What the service step has to pass: the services, the rules, the hiding and the validator. */
  ghost predicate Finishes(search: Search, st: Setting, providers: map<string, Provider>, base: seq<Group>, ruleProviders: map<string, RuleProvider>, rules: seq<Rule>)
    requires Probed(st.qualified)
  {
    var built := AddServices(base, SERVICES, st);
    && built.Ok? && Rewritable(ruleProviders, rules) && (forall w :: w in st.byPublic.Keys ==> Find(built.value, w).Some?)
    && Validated(search, providers, Hide(built.value, st.byPublic.Keys), WithServiceLists(ruleProviders), Rewritten(rules))
  }

  lemma PolicyIsTarget(rules: seq<Rule>, ruleProviders: map<string, RuleProvider>, removable: set<string>)
    requires Rewritable(ruleProviders, rules) && RulesApart(rules, removable)
    ensures AI_GROUP !in removable
  {
    assert rules[Cut(rules, ACL_AI)] in rules && AI_GROUP !in BUILTINS;
  }

  lemma RulesStayTargeted(st: Setting, groups: seq<Group>, out: seq<Group>, rules: seq<Rule>)
    requires SettingReady(st, groups) && AddServices(BaseOf(st, groups), SERVICES, st) == Ok(out) && BaseOf(st, groups) <= out
    requires Targeted(groups, rules) && RulesApart(rules, Removable(groups, AiProviders(st.providers)))
    ensures Targeted(out, Rewritten(rules))
  {
    forall r | r in rules ensures Defined(out, r.target) {
      PrunedDefined(groups, AiProviders(st.providers), Emptied(st.providers, Union(st.qualified)), r.target);
      DefinedLonger(BaseOf(st, groups), out, r.target);
    }
    forall s: Service ensures Defined(out, Target(s)) { TargetFound(st, groups, out, s); }
    RewrittenTargets(groups, out, rules);
  }

  lemma RulesStayValid(groups: seq<Group>, ai: set<string>, digest: string -> string, ruleProviders: map<string, RuleProvider>, rules: seq<Rule>)
    requires Targeted(groups, rules) && NamesFree(groups, {OpenAi, Claude, Gemini}, ai, digest) && Rewritable(ruleProviders, rules)
    requires ListsKnown(ruleProviders, rules) && NoDuplicateRules(rules) && EndsInMatch(rules)
    ensures ListsKnown(WithServiceLists(ruleProviders), Rewritten(rules)) && NoDuplicateRules(Rewritten(rules)) && EndsInMatch(Rewritten(rules))
  {
    FreeTargets(groups, rules);
    RewrittenRules.RewrittenKnown(ruleProviders, rules);
    RewrittenRules.RewrittenDistinct(rules);
    RewrittenRules.RewrittenEnds(rules);
  }

  lemma HiddenValid(providers: map<string, Provider>, out: seq<Group>, names: set<string>, ruleProviders: map<string, RuleProvider>, rules: seq<Rule>)
    requires Sound(providers, out) && Filled(providers) && Targeted(out, rules)
    requires ListsKnown(ruleProviders, rules) && NoDuplicateRules(rules) && EndsInMatch(rules)
    ensures Structured(providers, Hide(out, names), ruleProviders, rules)
  {
    HideKeeps(providers, out, names);
  }

  /** After the pruning nothing raises, and names, references, providers and rules are in order. */
  lemma ReadyBuilds(st: Setting, groups: seq<Group>, ruleProviders: map<string, RuleProvider>, rules: seq<Rule>) returns (out: seq<Group>)
    requires SettingReady(st, groups) && Structured(st.providers, groups, ruleProviders, rules)
    requires RulesApart(rules, Removable(groups, AiProviders(st.providers))) && Rewritable(ruleProviders, rules)
    ensures AddServices(BaseOf(st, groups), SERVICES, st) == Ok(out)
    ensures forall w :: w in st.byPublic.Keys ==> Find(out, w).Some?
    ensures Structured(PrunedProviders(st.providers, Union(st.qualified)), Hide(out, st.byPublic.Keys), WithServiceLists(ruleProviders), Rewritten(rules))
  {
    ServicesSound(st, groups);
    out := AddServices(BaseOf(st, groups), SERVICES, st).value;
    forall w | w in st.byPublic.Keys ensures Find(out, w).Some? { CountriesFound(st, groups, out, w); }
    RulesStayTargeted(st, groups, out, rules);
    RulesStayValid(groups, AiProviders(st.providers), st.digest, ruleProviders, rules);
    PrunedFilled(st.providers, Union(st.qualified));
    HiddenValid(PrunedProviders(st.providers, Union(st.qualified)), out, st.byPublic.Keys, WithServiceLists(ruleProviders), Rewritten(rules));
  }
}
