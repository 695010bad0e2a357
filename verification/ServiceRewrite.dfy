/** `apply_ai_service_qualification`: the whole rewrite, and what every service target reaches after it. */
module ServiceRewrite {
  import opened Results
  import opened Routing
  import opened Validator
  import opened AiPruning
  import opened ServiceQualification
  import opened ServiceLeaves
  import ServiceRules

  /** Anchor by provider, as recorded in the routes. */
  function AnchorsOf(routes: seq<Routed>): (m: map<string, string>)
    ensures forall p :: p in m ==> exists t :: t in routes && t.provider == p && t.anchor == m[p]
    ensures forall t :: t in routes ==> t.provider in m
  {
    if routes == [] then map[]
    else
      var n := |routes| - 1;
      assert routes == routes[..n] + [routes[n]];
      AnchorsOf(routes[..n])[routes[n].provider := routes[n].anchor]
  }

  /** For each AI provider, its nodes that passed the service's probe. */
  function NamesByProvider(providers: map<string, Provider>, qualified: set<string>): map<string, set<string>> {
    map p | p in AiProviders(providers) :: PayloadNames(providers[p]) * qualified
  }

  function PlanFor(providers: map<string, Provider>, routes: seq<Routed>, qualified: set<string>, digest: string -> string): Plan {
    Plan(AnchorsOf(routes), NamesByProvider(providers, qualified), digest)
  }

  predicate Probed(qualified: map<Service, set<string>>) { OpenAi in qualified && Claude in qualified && Gemini in qualified }

  function Union(qualified: map<Service, set<string>>): set<string>
    requires Probed(qualified)
  {
    qualified[OpenAi] + qualified[Claude] + qualified[Gemini]
  }

  function CandidateNames(providers: map<string, Provider>): set<string> {
    set p, x | p in AiProviders(providers) && x in PayloadNames(providers[p]) :: x
  }

  /** What is fixed while the services are built. */
  datatype Setting = Setting(order: seq<string>, byPublic: map<string, string>, providers: map<string, Provider>, routes: seq<Routed>,
                             qualified: map<Service, set<string>>, digest: string -> string)

  function PlanIn(st: Setting, s: Service): Plan
    requires Probed(st.qualified)
  {
    assert s == OpenAi || s == Claude || s == Gemini;
    PlanFor(st.providers, st.routes, st.qualified[s], st.digest)
  }

  function ServedIn(st: Setting, s: Service): seq<string>
    requires Probed(st.qualified)
  {
    Served(st.order, st.byPublic, PlanIn(st, s).names)
  }

  function AddServices(groups: seq<Group>, services: seq<Service>, st: Setting): Result<seq<Group>>
    requires Probed(st.qualified)
  {
    if services == [] then Ok(groups)
    else
      var n := |services| - 1;
      var init := AddServices(groups, services[..n], st);
      if init.Raised? then init else AddService(init.value, services[n], st.order, st.byPublic, PlanIn(st, services[n]))
  }

  function Unserved(services: seq<Service>, st: Setting): seq<Service>
    requires Probed(st.qualified)
  {
    if services == [] then []
    else
      var n := |services| - 1;
      Unserved(services[..n], st) + if ServedIn(st, services[n]) == [] then [services[n]] else []
  }

  lemma {:induction false} UnservedMeaning(services: seq<Service>, st: Setting, s: Service)
    requires Probed(st.qualified)
    ensures s in Unserved(services, st) <==> s in services && ServedIn(st, s) == []
  {
    if services != [] {
      var n := |services| - 1;
      assert services == services[..n] + [services[n]];
      UnservedMeaning(services[..n], st, s);
    }
  }

  method BuildServices(config: Config, st: Setting) returns (r: Result<seq<Service>>)
    requires Probed(st.qualified)
    modifies config`groups
    ensures r.Ok? <==> AddServices(old(config.groups), SERVICES, st).Ok?
    ensures r.Ok? ==> config.groups == AddServices(old(config.groups), SERVICES, st).value
    ensures r.Ok? ==> r.value == Unserved(SERVICES, st)
  {
    var before, services := config.groups, SERVICES;
    var failClosed: seq<Service> := [];
    for k := 0 to |services|
      invariant AddServices(before, services[..k], st) == Ok(config.groups)
      invariant failClosed == Unserved(services[..k], st)
    {
      assert services[..k + 1][..k] == services[..k];
      var built := BuildService(config, services[k], st.order, st.byPublic, PlanIn(st, services[k]));
      if built.Raised? {
        AddServicesPrefix(before, services, k + 1, st);
        return Raised(built.reason);
      }
      if !built.value { failClosed := failClosed + [services[k]]; }
    }
    assert services[..|services|] == services;
    return Ok(failClosed);
  }

  lemma {:induction false} AddServicesPrefix(groups: seq<Group>, services: seq<Service>, n: nat, st: Setting)
    requires Probed(st.qualified) && n <= |services| && AddServices(groups, services[..n], st).Raised?
    ensures AddServices(groups, services, st).Raised?
  {
    if n < |services| {
      assert services[..|services| - 1][..n] == services[..n];
      AddServicesPrefix(groups, services[..|services| - 1], n, st);
    } else {
      assert services[..n] == services;
    }
  }

  // ----- hiding, validating, failing closed -----

  function HiddenIf(g: Group, names: set<string>): Group { if g.name in names then g.(hidden := true) else g }

  /** Hides the country groups. Names are unique in any configuration that goes on to pass validation. */
  function Hide(groups: seq<Group>, names: set<string>): seq<Group> {
    seq(|groups|, i requires 0 <= i < |groups| => HiddenIf(groups[i], names))
  }

  function CountryNames(): set<string> { set r | r in REGIONS :: REGIONS[r] }

  function PublicNames(groups: seq<Group>, routes: seq<Routed>): set<string> {
    (set g | g in groups && g.name in CountryNames() :: g.name) + set t | t in routes :: t.wrapper
  }

  /** Hidden rejecting anchors of the public country groups. */
  function ClosedAnchors(groups: seq<Group>, publics: set<string>): set<string> {
    set w, m | w in publics && m in MembersOf(groups, w) && Rejecting(groups, m) && FindLast(groups, m).value.hidden :: m
  }

  function MembersOf(groups: seq<Group>, name: string): seq<string> {
    if FindLast(groups, name).Some? then FindLast(groups, name).value.proxies else []
  }

  function RouteGroups(groups: seq<Group>, routes: seq<Routed>): set<string> {
    var publics := PublicNames(groups, routes);
    (set t | t in routes :: t.anchor) + publics + ClosedAnchors(groups, publics)
  }

  function RejectTarget(s: Service): Group { Group(Target(s), "select", true, [], ["REJECT"], None, map[]) }

  function RejectTargets(): seq<Group> { [RejectTarget(OpenAi), RejectTarget(Claude), RejectTarget(Gemini)] }

  function ClosedKept(groups: seq<Group>, routes: seq<Routed>): seq<Group>
    requires PolicyIndex(groups) < |groups|
  {
    var i := PolicyIndex(groups);
    Keep(groups[i := groups[i].(proxies := ["REJECT"])], RouteGroups(groups, routes))
  }

  /** Every AI country gone, the policy and the three services rejecting. */
  function ClosedGroups(groups: seq<Group>, routes: seq<Routed>): seq<Group> {
    if PolicyIndex(groups) == |groups| then groups else ClosedKept(groups, routes) + RejectTargets()
  }

  datatype Report = Report(tested: nat, qualified: nat, failClosed: seq<Service>, rules: ServiceRules.RuleCounts)

  /** The counts are the sizes of the three lists. */
  ghost predicate RulesCounted(ruleProviders: map<string, RuleProvider>, counts: ServiceRules.RuleCounts) {
    && ruleProviders.Keys >= {"acl4ssr_openai", "cr_ai_rules_claude", "cr_ai_rules_gemini"}
    && counts.openai == |ruleProviders["acl4ssr_openai"].payload| && counts.claude == |ruleProviders["cr_ai_rules_claude"].payload|
    && counts.gemini == |ruleProviders["cr_ai_rules_gemini"].payload|
  }

  /** With the three rejecting targets at the end, every service reaches REJECT and nothing else. */
  lemma RejectStands(providers: map<string, Provider>, kept: seq<Group>, s: Service, leaf: Leaf)
    requires UniqueNames(kept + RejectTargets())
    ensures IsLeaf(providers, kept + RejectTargets(), Target(s), leaf) <==> leaf == Builtin("REJECT")
  {
    var j := match s case OpenAi => |kept| case Claude => |kept| + 1 case Gemini => |kept| + 2;
    FindUnique(kept + RejectTargets(), j);
    NotBuiltin(s, "", x => x);
    RejectLeaves(providers, kept + RejectTargets(), Target(s), leaf);
  }

  lemma ClosedReject(providers: map<string, Provider>, groups: seq<Group>, routes: seq<Routed>)
    requires PolicyIndex(groups) < |groups| && UniqueNames(ClosedGroups(groups, routes))
    ensures forall s, leaf :: IsLeaf(providers, ClosedGroups(groups, routes), Target(s), leaf) <==> leaf == Builtin("REJECT")
  {
    forall s, leaf ensures IsLeaf(providers, ClosedGroups(groups, routes), Target(s), leaf) <==> leaf == Builtin("REJECT") {
      RejectStands(providers, ClosedKept(groups, routes), s, leaf);
    }
  }

  method FailClosedEmptyInventory(search: Search, config: Config, routes: seq<Routed>, tested: nat) returns (r: Result<Report>)
    modifies config
    ensures r.Ok? <==> && PolicyIndex(old(config.groups)) < |old(config.groups)|
                       && ServiceRules.Rewritable(old(config.ruleProviders), old(config.rules))
                       && Validated(search, old(config.providers) - AiProviders(old(config.providers)), ClosedGroups(old(config.groups), routes),
                                    ServiceRules.WithServiceLists(old(config.ruleProviders)), ServiceRules.Rewritten(old(config.rules)))
    ensures r.Ok? ==> config.providers == old(config.providers) - AiProviders(old(config.providers))
    ensures r.Ok? ==> config.groups == ClosedGroups(old(config.groups), routes)
    ensures r.Ok? ==> config.rules == ServiceRules.Rewritten(old(config.rules))
    ensures r.Ok? ==> config.ruleProviders == ServiceRules.WithServiceLists(old(config.ruleProviders))
    ensures r.Ok? ==> r.value == Report(tested, 0, SERVICES, r.value.rules) && RulesCounted(config.ruleProviders, r.value.rules)
    ensures r.Ok? ==> forall s, leaf :: IsLeaf(config.providers, config.groups, Target(s), leaf) <==> leaf == Builtin("REJECT")
  {
    var i := PolicyIndex(config.groups);
    if i == |config.groups| { return Raised("AI policy group is missing from the generated candidate"); }
    var removed := RouteGroups(config.groups, routes);
    config.providers := config.providers - AiProviders(config.providers);
    config.groups := Keep(config.groups[i := config.groups[i].(proxies := ["REJECT"])], removed);
    config.groups := config.groups + RejectTargets();
    var rewritten := ServiceRules.RewriteServiceRules(config);
    if rewritten.Raised? { return Raised(rewritten.reason); }
    var valid := ValidateGenerated(search, config.providers, config.groups, config.ruleProviders, config.rules);
    if !valid { return Raised("generated configuration is invalid"); }
    ClosedReject(config.providers, old(config.groups), routes);
    return Ok(Report(tested, 0, SERVICES, rewritten.value));
  }

  // ----- the generator's shape -----

  predicate AnchorShape(groups: seq<Group>, p: string) {
    var name := AnchorOf(groups, p);
    && name.Some? && name.value != AI_GROUP
    && var a := Find(groups, name.value);
    a.Some? && a.value.uses == [p] && a.value.proxies == []
  }

  /** One hidden anchor per AI provider, used by no one else, with an inline payload; and a visible AI policy. */
  predicate GeneratorShape(providers: map<string, Provider>, groups: seq<Group>) {
    && UniqueNames(groups) && PolicyIndex(groups) < |groups|
    && forall p :: p in AiProviders(providers) ==> providers[p].payload.Some? && AnchorShape(groups, p)
  }

  /** Unique names: two groups of one name are one group. */
  lemma SameName(groups: seq<Group>, g: Group, h: Group)
    requires UniqueNames(groups) && g in groups && h in groups && g.name == h.name
    ensures g == h && Find(groups, g.name) == Some(g)
  {
    var i :| 0 <= i < |groups| && groups[i] == g;
    var j :| 0 <= j < |groups| && groups[j] == h;
    FindUnique(groups, i);
    FindUnique(groups, j);
  }

  /** The anchor of a provider that keeps a node survives the pruning untouched. */
  lemma RetainedAnchor(providers: map<string, Provider>, groups: seq<Group>, names: set<string>, p: string)
    requires GeneratorShape(providers, groups) && p in AiProviders(providers) && Survives(providers[p], names)
    ensures Find(PrunedGroups(groups, Emptied(providers, names)), AnchorOf(groups, p).value) == Find(groups, AnchorOf(groups, p).value)
  {
    var emptied := Emptied(providers, names);
    var a := Find(groups, AnchorOf(groups, p).value).value;
    var using, members := UsingGroups(groups, emptied), groups[PolicyIndex(groups)].proxies;
    var i :| 0 <= i < |groups| && groups[i] == a;
    assert !UsesAny(a, emptied);
    NotUsing(groups, emptied, a);
    NotRemoved(groups, using, members, a);
    PrunedKeeps(groups, emptied, i);
  }

  lemma NotUsing(groups: seq<Group>, emptied: set<string>, a: Group)
    requires UniqueNames(groups) && a in groups && !UsesAny(a, emptied)
    ensures a.name !in UsingGroups(groups, emptied)
  {
    if g :| g in groups && UsesAny(g, emptied) && g.name == a.name { SameName(groups, g, a); }
  }

  lemma NotRemoved(groups: seq<Group>, using: set<string>, members: seq<string>, a: Group)
    requires UniqueNames(groups) && a in groups && a.proxies == [] && a.name !in using
    ensures a.name !in RemovedGroups(groups, using, members)
  {
    var i :| 0 <= i < |groups| && groups[i] == a;
    FindLastUnique(groups, i);
    assert !Rejecting(groups, a.name);
    assert forall m :: m in RemovedPublic(groups, using, members) ==> AnchorOfMember(groups, m) != a.name;
  }

  /** Different AI providers have different wrappers. */
  lemma WrapperOwner(providers: map<string, Provider>, groups: seq<Group>, t: Routed, u: Routed)
    requires GeneratorShape(providers, groups) && t.provider in AiProviders(providers) && u.provider in AiProviders(providers)
    requires IsRoute(groups, t) && IsRoute(groups, u) && t.wrapper == u.wrapper
    ensures t.provider == u.provider
  {
    var g :| g in groups && g.name == t.wrapper && g.proxies == [t.anchor];
    var h :| h in groups && h.name == u.wrapper && h.proxies == [u.anchor];
    SameName(groups, g, h);
    assert [t.anchor][0] == [u.anchor][0];
    assert Find(groups, t.anchor).value.uses[0] == Find(groups, u.anchor).value.uses[0];
  }

  /** A setting as the rewrite computes it from the original providers and groups. */
  ghost predicate SettingOf(st: Setting, groups: seq<Group>) {
    && Probed(st.qualified) && RoutesOf(st.routes, groups, AiProviders(st.providers))
    && Union(st.qualified) <= CandidateNames(st.providers)
    && st.byPublic == ByPublic(st.routes, PrunedProviders(st.providers, Union(st.qualified)).Keys)
    && (forall w :: w in st.order <==> w in st.byPublic)
  }

  /** The provider that owns a wrapper is the one the public table gives. */
  lemma PublicOwner(st: Setting, groups: seq<Group>, t: Routed)
    requires SettingOf(st, groups) && GeneratorShape(st.providers, groups)
    requires t in st.routes && t.provider in PrunedProviders(st.providers, Union(st.qualified))
    ensures t.wrapper in st.order && t.wrapper in st.byPublic && st.byPublic[t.wrapper] == t.provider
  {
    assert t.wrapper in st.byPublic;
    var u :| u in st.routes && u.wrapper == t.wrapper && u.provider == st.byPublic[t.wrapper];
    WrapperOwner(st.providers, groups, t, u);
  }

  /** The served providers are exactly those with a node that passed. */
  lemma ServedExactly(st: Setting, groups: seq<Group>, s: Service, p: string)
    requires SettingOf(st, groups) && GeneratorShape(st.providers, groups)
    ensures p in ServedIn(st, s) <==> p in PlanIn(st, s).names && PlanIn(st, s).names[p] != {}
    ensures p in ServedIn(st, s) ==> p in PrunedProviders(st.providers, Union(st.qualified))
  {
    ServedMeaning(st.order, st.byPublic, PlanIn(st, s).names, p);
    if p in PlanIn(st, s).names && PlanIn(st, s).names[p] != {} {
      var w := ServedWrapper(st, groups, s, p);
    } else {
      assert p !in ServedIn(st, s);
    }
    if p in ServedIn(st, s) { ServedStays(st, s, p); }
  }

  /** A provider some of whose nodes passed keeps its payload. */
  lemma ServedStays(st: Setting, s: Service, p: string)
    requires Probed(st.qualified) && p in PlanIn(st, s).names && PlanIn(st, s).names[p] != {}
    ensures p in PrunedProviders(st.providers, Union(st.qualified))
  {
    var x :| x in PlanIn(st, s).names[p];
    assert x in PayloadNames(st.providers[p]) * Union(st.qualified);
    PrunedPayload(st.providers, Union(st.qualified), p);
  }

  lemma ServedWrapper(st: Setting, groups: seq<Group>, s: Service, p: string) returns (w: string)
    requires SettingOf(st, groups) && GeneratorShape(st.providers, groups)
    requires p in PlanIn(st, s).names && PlanIn(st, s).names[p] != {}
    ensures w in st.order && w in st.byPublic && st.byPublic[w] == p
  {
    ServedStays(st, s, p);
    var t :| t in st.routes && t.provider == p;
    PublicOwner(st, groups, t);
    w := t.wrapper;
  }

  /** Together the served providers hold exactly the nodes that passed. */
  lemma ServedUnion(st: Setting, groups: seq<Group>, s: Service, x: string)
    requires SettingOf(st, groups) && GeneratorShape(st.providers, groups)
    ensures x in st.qualified[s] <==> exists p :: p in ServedIn(st, s) && p in PlanIn(st, s).names && x in PlanIn(st, s).names[p]
  {
    if x in st.qualified[s] {
      assert x in CandidateNames(st.providers);
      var p :| p in AiProviders(st.providers) && x in PayloadNames(st.providers[p]);
      assert x in PayloadNames(st.providers[p]) * st.qualified[s];
      ServedExactly(st, groups, s, p);
      assert x in PlanIn(st, s).names[p];
    }
  }

  lemma ServedAnchored(st: Setting, groups: seq<Group>, s: Service)
    requires SettingOf(st, groups) && GeneratorShape(st.providers, groups)
    ensures Anchored(PrunedGroups(groups, Emptied(st.providers, Union(st.qualified))), ServedIn(st, s), PlanIn(st, s))
  {
    forall p | p in ServedIn(st, s)
      ensures p in PlanIn(st, s).anchors
      ensures PlanIn(st, s).anchors[p] == AnchorOf(groups, p).value
      ensures Find(PrunedGroups(groups, Emptied(st.providers, Union(st.qualified))), AnchorOf(groups, p).value) == Find(groups, AnchorOf(groups, p).value)
    {
      ServedExactly(st, groups, s, p);
      assert Survives(st.providers[p], Union(st.qualified));
      RetainedAnchor(st.providers, groups, Union(st.qualified), p);
      var t :| t in st.routes && t.provider == p;
    }
  }

  ghost predicate ServiceIn(out: seq<Group>, s: Service, st: Setting)
    requires Probed(st.qualified)
  {
    && (exists g :: g in out && IsTarget(g, s, ServedIn(st, s), PlanIn(st, s)))
    && (forall p :: p in ServedIn(st, s) ==> HasClone(out, s, p, PlanIn(st, s)))
  }

  lemma {:induction false} AllServicesIn(groups: seq<Group>, services: seq<Service>, st: Setting)
    requires Probed(st.qualified) && AddServices(groups, services, st).Ok?
    requires forall s :: s in services ==> Anchored(groups, ServedIn(st, s), PlanIn(st, s))
    ensures groups <= AddServices(groups, services, st).value
    ensures forall s :: s in services ==> ServiceIn(AddServices(groups, services, st).value, s, st)
  {
    if services != [] {
      var n := |services| - 1;
      assert services == services[..n] + [services[n]];
      AllServicesIn(groups, services[..n], st);
      var before, after := AddServices(groups, services[..n], st).value, AddServices(groups, services, st).value;
      var last := services[n];
      forall p | p in ServedIn(st, last) ensures Find(before, PlanIn(st, last).anchors[p]) == Find(groups, PlanIn(st, last).anchors[p]) {
        FindPrefix(groups, before, PlanIn(st, last).anchors[p]);
      }
      ServiceInPlace(before, last, st.order, st.byPublic, PlanIn(st, last));
      forall s | s in services ensures ServiceIn(after, s, st) {
        if s in services[..n] { ServiceInLonger(before, after, s, st); }
      }
    }
  }

  lemma ServiceInLonger(a: seq<Group>, b: seq<Group>, s: Service, st: Setting)
    requires Probed(st.qualified) && a <= b && ServiceIn(a, s, st)
    ensures ServiceIn(b, s, st)
  {
    assert forall g :: g in a ==> g in b;
    forall p | p in ServedIn(st, s) ensures HasClone(b, s, p, PlanIn(st, s)) {
      assert HasClone(a, s, p, PlanIn(st, s));
    }
  }

  lemma HiddenFind(groups: seq<Group>, names: set<string>, g: Group)
    requires UniqueNames(Hide(groups, names)) && g in groups
    ensures Find(Hide(groups, names), g.name) == Some(HiddenIf(g, names))
  {
    var i :| 0 <= i < |groups| && groups[i] == g;
    FindUnique(Hide(groups, names), i);
  }

  lemma ServedPayload(st: Setting, groups: seq<Group>, s: Service, p: string)
    requires SettingOf(st, groups) && GeneratorShape(st.providers, groups) && p in ServedIn(st, s)
    ensures var providers, names := PrunedProviders(st.providers, Union(st.qualified)), PlanIn(st, s).names;
            p in names && names[p] != {} && p in providers && names[p] <= PayloadNames(providers[p])
  {
    ServedExactly(st, groups, s, p);
    PrunedPayload(st.providers, Union(st.qualified), p);
  }

  lemma CloneStands(out: seq<Group>, hidden: set<string>, s: Service, p: string, plan: Plan)
    requires p in plan.names && plan.names[p] != {} && HasClone(out, s, p, plan) && UniqueNames(Hide(out, hidden))
    ensures CloneIn(Hide(out, hidden), s, p, plan.names[p], plan.digest)
  {
    var c :| c in out && IsClone(c, s, p, plan);
    HiddenFind(out, hidden, c);
  }

  lemma TargetStands(out: seq<Group>, hidden: set<string>, s: Service, served: seq<string>, plan: Plan)
    requires (exists g :: g in out && IsTarget(g, s, served, plan)) && UniqueNames(Hide(out, hidden))
    ensures var t := Find(Hide(out, hidden), Target(s));
            t.Some? && t.value.uses == [] && t.value.proxies == if served == [] then ["REJECT"] else Children(s, served, plan.digest)
  {
    var t :| t in out && IsTarget(t, s, served, plan);
    HiddenFind(out, hidden, t);
  }

  lemma FinalLeaves(providers: map<string, Provider>, out: seq<Group>, hidden: set<string>, s: Service, served: seq<string>, plan: Plan,
                    qualified: set<string>, leaf: Leaf)
    requires UniqueNames(Hide(out, hidden))
    requires exists g :: g in out && IsTarget(g, s, served, plan)
    requires Offers(providers, served, plan, qualified) && forall p :: p in served ==> HasClone(out, s, p, plan)
    ensures IsLeaf(providers, Hide(out, hidden), Target(s), leaf) <==> leaf in Expected(qualified)
  {
    TargetStands(out, hidden, s, served, plan);
    forall p | p in served ensures CloneIn(Hide(out, hidden), s, p, plan.names[p], plan.digest) { CloneStands(out, hidden, s, p, plan); }
    TargetLeaves(providers, Hide(out, hidden), s, served, plan.names, plan.digest, qualified, leaf);
  }

  lemma ServicesBuilt(st: Setting, groups: seq<Group>, s: Service)
    requires SettingOf(st, groups) && GeneratorShape(st.providers, groups)
    requires AddServices(PrunedGroups(groups, Emptied(st.providers, Union(st.qualified))), SERVICES, st).Ok?
    ensures ServiceIn(AddServices(PrunedGroups(groups, Emptied(st.providers, Union(st.qualified))), SERVICES, st).value, s, st)
  {
    var base := PrunedGroups(groups, Emptied(st.providers, Union(st.qualified)));
    forall t: Service | t in SERVICES ensures Anchored(base, ServedIn(st, t), PlanIn(st, t)) { ServedAnchored(st, groups, t); }
    assert SERVICES[0] == OpenAi && SERVICES[1] == Claude && SERVICES[2] == Gemini;
    AllServicesIn(base, SERVICES, st);
  }

  /** What the served providers are to offer: names of their payloads, together exactly what passed. */
  ghost predicate Offers(providers: map<string, Provider>, served: seq<string>, plan: Plan, qualified: set<string>) {
    && (forall p :: p in served ==> p in plan.names && plan.names[p] != {} && p in providers && plan.names[p] <= PayloadNames(providers[p]))
    && (forall x :: x in qualified <==> exists p :: p in served && p in plan.names && x in plan.names[p])
  }

  lemma ServedFacts(st: Setting, groups: seq<Group>, s: Service)
    requires SettingOf(st, groups) && GeneratorShape(st.providers, groups)
    ensures Offers(PrunedProviders(st.providers, Union(st.qualified)), ServedIn(st, s), PlanIn(st, s), st.qualified[s])
  {
    forall p | p in ServedIn(st, s)
      ensures var providers, plan := PrunedProviders(st.providers, Union(st.qualified)), PlanIn(st, s);
              p in plan.names && plan.names[p] != {} && p in providers && plan.names[p] <= PayloadNames(providers[p])
    {
      ServedPayload(st, groups, s, p);
    }
    forall x ensures x in st.qualified[s] <==> exists p :: p in ServedIn(st, s) && p in PlanIn(st, s).names && x in PlanIn(st, s).names[p] {
      ServedUnion(st, groups, s, x);
    }
  }

  /** The main result on values: after the pruning rewrite, a service reaches exactly its qualified nodes. */
  lemma PrunedRewriteLeaves(st: Setting, groups: seq<Group>, hidden: set<string>, s: Service, leaf: Leaf)
    requires SettingOf(st, groups) && GeneratorShape(st.providers, groups)
    requires var built := AddServices(PrunedGroups(groups, Emptied(st.providers, Union(st.qualified))), SERVICES, st);
             built.Ok? && UniqueNames(Hide(built.value, hidden))
    ensures var built := AddServices(PrunedGroups(groups, Emptied(st.providers, Union(st.qualified))), SERVICES, st);
            IsLeaf(PrunedProviders(st.providers, Union(st.qualified)), Hide(built.value, hidden), Target(s), leaf)
            <==> leaf in Expected(st.qualified[s])
  {
    ServicesBuilt(st, groups, s);
    ServedFacts(st, groups, s);
    var out := AddServices(PrunedGroups(groups, Emptied(st.providers, Union(st.qualified))), SERVICES, st).value;
    FinalLeaves(PrunedProviders(st.providers, Union(st.qualified)), out, hidden, s, ServedIn(st, s), PlanIn(st, s), st.qualified[s], leaf);
  }
}
