/** The fail-closed path of the service rewrite: why every check passes once the AI countries are gone. */
module ServiceClosed {
  import opened Routing
  import opened AiPruning
  import opened ServiceQualification
  import opened ServiceRewrite
  import opened ServiceWiring
  import opened ServiceBlocks
  import opened ServiceReady
  import opened ServiceRules

  lemma RouteWired(groups: seq<Group>, ai: set<string>, t: Routed)
    requires UniqueNames(groups) && Wired(groups, PolicyMembers(groups), ai)
    requires t.provider in ai && IsRoute(groups, t) && AnchorShape(groups, t.provider)
    ensures t.anchor in UsingGroups(groups, ai)
    ensures Single(groups, PolicyMembers(groups), t.wrapper) && AnchorOfMember(groups, t.wrapper) == t.anchor
  {
    var w := WrapperSingle(groups, ai, t.provider);
    var anchor := Find(groups, t.anchor).value;
    assert t.provider in anchor.uses && UsesAny(anchor, ai);
  }

  /** The public country groups are country groups of the policy. */
  lemma PublicsSingle(providers: map<string, Provider>, groups: seq<Group>, routes: seq<Routed>, w: string)
    requires GroupsReady(providers, groups) && RoutesOf(routes, groups, AiProviders(providers)) && w in PublicNames(groups, routes)
    ensures Single(groups, PolicyMembers(groups), w)
  {
    if t :| t in routes && t.wrapper == w { RouteWired(groups, AiProviders(providers), t); }
  }

  lemma ClosedAnchorOf(groups: seq<Group>, policy: seq<string>, publics: set<string>, m: string) returns (w: string)
    requires m in ClosedAnchors(groups, publics) && forall x :: x in publics ==> Single(groups, policy, x)
    ensures w in publics && AnchorOfMember(groups, w) == m
  {
    w :| w in publics && m in MembersOf(groups, w);
  }

  /** A country group or what a removed country group refers to. */
  ghost predicate RouteKind(groups: seq<Group>, removed: set<string>, m: string) {
    Single(groups, PolicyMembers(groups), m)
    || exists w :: w in removed && Single(groups, PolicyMembers(groups), w) && AnchorOfMember(groups, w) == m
  }

  lemma RouteGroupKinds(providers: map<string, Provider>, groups: seq<Group>, routes: seq<Routed>, m: string)
    requires GroupsReady(providers, groups) && RoutesOf(routes, groups, AiProviders(providers)) && m in RouteGroups(groups, routes)
    ensures RouteKind(groups, RouteGroups(groups, routes), m)
  {
    var publics := PublicNames(groups, routes);
    forall w | w in publics ensures Single(groups, PolicyMembers(groups), w) { PublicsSingle(providers, groups, routes, w); }
    if t :| t in routes && t.anchor == m {
      RouteWired(groups, AiProviders(providers), t);
      assert t.wrapper in publics;
    } else if m in ClosedAnchors(groups, publics) {
      var w := ClosedAnchorOf(groups, PolicyMembers(groups), publics, m);
    }
  }

  lemma RouteGroupsRemovable(providers: map<string, Provider>, groups: seq<Group>, routes: seq<Routed>)
    requires GroupsReady(providers, groups) && RoutesOf(routes, groups, AiProviders(providers))
    ensures RouteGroups(groups, routes) <= Removable(groups, AiProviders(providers))
  {
    forall m | m in RouteGroups(groups, routes) ensures m in Removable(groups, AiProviders(providers)) {
      RouteGroupKinds(providers, groups, routes, m);
    }
  }

  lemma ClosedOrigin(groups: seq<Group>, routes: seq<Routed>, g: Group) returns (h: Group)
    requires UniqueNames(groups) && PolicyIndex(groups) < |groups| && g in ClosedKept(groups, routes)
    ensures h in groups && h.name == g.name && g.uses == h.uses && g.name !in RouteGroups(groups, routes)
    ensures g.proxies == ["REJECT"] || (g == h && h.name != AI_GROUP)
  {
    var pi := PolicyIndex(groups);
    var updated := groups[pi := groups[pi].(proxies := ["REJECT"])];
    var k :| 0 <= k < |updated| && updated[k] == g;
    h := groups[k];
    if k != pi { assert groups[k].name != groups[pi].name; }
  }

  lemma ClosedImage(groups: seq<Group>, routes: seq<Routed>, name: string)
    requires PolicyIndex(groups) < |groups| && Find(groups, name).Some? && name !in RouteGroups(groups, routes)
    ensures Find(ClosedKept(groups, routes), name).Some?
  {
    var pi := PolicyIndex(groups);
    var updated := groups[pi := groups[pi].(proxies := ["REJECT"])];
    var k :| 0 <= k < |groups| && groups[k] == Find(groups, name).value;
    assert updated[k] in updated && updated[k].name == name;
    FoundIn(ClosedKept(groups, routes), updated[k]);
  }

  /** Whatever refers to a removed group is removed, or is the policy. */
  lemma ClosedReference(providers: map<string, Provider>, groups: seq<Group>, routes: seq<Routed>, h: Group, m: string)
    requires GroupsReady(providers, groups) && RoutesOf(routes, groups, AiProviders(providers))
    requires h in groups && m in h.proxies && m !in BUILTINS && h.name != AI_GROUP && h.name !in RouteGroups(groups, routes)
    ensures m !in RouteGroups(groups, routes)
  {
    if m in RouteGroups(groups, routes) { RouteGroupKinds(providers, groups, routes, m); }
  }

  /** Every group over an AI provider is removed. */
  lemma ClosedOver(providers: map<string, Provider>, groups: seq<Group>, routes: seq<Routed>, h: Group, p: string)
    requires GroupsReady(providers, groups) && RoutesOf(routes, groups, AiProviders(providers))
    requires h in groups && p in h.uses && p in AiProviders(providers) && AnchorOf(groups, p).value !in BUILTINS
    ensures h.name in RouteGroups(groups, routes)
  {
    var t :| t in routes && t.provider == p;
    RouteWired(groups, AiProviders(providers), t);
    assert t.wrapper in PublicNames(groups, routes);
    if h.name != t.anchor { assert t.anchor in h.proxies; }
  }

  lemma ClosedKeptSound(providers: map<string, Provider>, groups: seq<Group>, routes: seq<Routed>)
    requires Sound(providers, groups) && GroupsReady(providers, groups) && RoutesOf(routes, groups, AiProviders(providers))
    ensures Sound(providers - AiProviders(providers), ClosedKept(groups, routes))
  {
    var kept := ClosedKept(groups, routes);
    KeptUnique(groups, PolicyIndex(groups), ["REJECT"], RouteGroups(groups, routes));
    forall g, m | g in kept && m in g.proxies ensures Defined(kept, m) {
      var h := ClosedOrigin(groups, routes, g);
      if g == h && m !in BUILTINS {
        if h.name != AI_GROUP { ClosedReference(providers, groups, routes, h, m); }
        assert Defined(groups, m);
        if g.proxies != ["REJECT"] { ClosedImage(groups, routes, m); }
      }
    }
    forall g, p | g in kept && p in g.uses ensures p in providers - AiProviders(providers) {
      var h := ClosedOrigin(groups, routes, g);
      if p in AiProviders(providers) { ClosedOver(providers, groups, routes, h, p); }
    }
  }

  lemma KeptUnique(groups: seq<Group>, i: nat, proxies: seq<string>, removed: set<string>)
    requires UniqueNames(groups) && i < |groups|
    ensures UniqueNames(Keep(groups[i := groups[i].(proxies := proxies)], removed))
  {
    var updated := groups[i := groups[i].(proxies := proxies)];
    assert forall k :: 0 <= k < |groups| ==> updated[k].name == groups[k].name;
  }

  lemma RejectsAdded(providers: map<string, Provider>, kept: seq<Group>)
    requires Sound(providers, kept) && forall s: Service :: Find(kept, Target(s)).None?
    ensures Sound(providers, kept + RejectTargets())
    ensures forall s: Service :: Defined(kept + RejectTargets(), Target(s))
  {
    RejectNames();
    UniqueAppend(kept, RejectTargets());
    forall s: Service ensures Defined(kept + RejectTargets(), Target(s)) {
      assert RejectTarget(s) in RejectTargets();
      FoundIn(kept + RejectTargets(), RejectTarget(s));
    }
    forall g, m | g in kept + RejectTargets() && m in g.proxies ensures Defined(kept + RejectTargets(), m) {
      if g in kept { DefinedGrows(kept, RejectTargets(), m); }
    }
  }

  lemma RejectNames()
    ensures UniqueNames(RejectTargets())
    ensures forall s: Service :: RejectTarget(s) in RejectTargets()
    ensures forall g :: g in RejectTargets() ==> g.proxies == ["REJECT"] && g.uses == [] && exists s: Service :: g.name == Target(s)
  {
    NamesApart(OpenAi, "", Claude, "", x => x);
    NamesApart(OpenAi, "", Gemini, "", x => x);
    NamesApart(Claude, "", Gemini, "", x => x);
    forall s: Service ensures RejectTarget(s) in RejectTargets() { RejectListed(s); }
  }

  lemma RejectListed(s: Service)
    ensures RejectTarget(s) in RejectTargets()
  {
    var r := RejectTargets();
    assert r[0] == RejectTarget(OpenAi) && r[1] == RejectTarget(Claude) && r[2] == RejectTarget(Gemini);
    match s {
      case OpenAi =>
      case Claude =>
      case Gemini =>
    }
  }

  lemma ClosedDefined(providers: map<string, Provider>, groups: seq<Group>, routes: seq<Routed>, name: string)
    requires GroupsReady(providers, groups) && RoutesOf(routes, groups, AiProviders(providers))
    requires Defined(groups, name) && (name in BUILTINS || name !in Removable(groups, AiProviders(providers)))
    ensures Defined(ClosedGroups(groups, routes), name)
  {
    if name !in BUILTINS {
      RouteGroupsRemovable(providers, groups, routes);
      ClosedImage(groups, routes, name);
    }
    DefinedGrows(ClosedKept(groups, routes), RejectTargets(), name);
  }

  lemma ClosedFree(groups: seq<Group>, routes: seq<Routed>, name: string)
    requires UniqueNames(groups) && PolicyIndex(groups) < |groups| && Find(groups, name).None?
    ensures Find(ClosedKept(groups, routes), name).None?
  {
    if Find(ClosedKept(groups, routes), name).Some? {
      var h := ClosedOrigin(groups, routes, Find(ClosedKept(groups, routes), name).value);
    }
  }

  lemma ClosedSound(providers: map<string, Provider>, groups: seq<Group>, routes: seq<Routed>, digest: string -> string)
    requires Sound(providers, groups) && GroupsReady(providers, groups) && NamesReady(providers, groups, digest)
    requires RoutesOf(routes, groups, AiProviders(providers))
    ensures Sound(providers - AiProviders(providers), ClosedGroups(groups, routes))
    ensures forall s: Service :: Defined(ClosedGroups(groups, routes), Target(s))
  {
    ClosedKeptSound(providers, groups, routes);
    forall s: Service ensures Find(ClosedKept(groups, routes), Target(s)).None? {
      assert s == OpenAi || s == Claude || s == Gemini;
      ClosedFree(groups, routes, Target(s));
    }
    RejectsAdded(providers - AiProviders(providers), ClosedKept(groups, routes));
  }

  /** With nothing qualified names, references, providers and rules are in order. */
  lemma ReadyClosesInOrder(providers: map<string, Provider>, groups: seq<Group>, ruleProviders: map<string, RuleProvider>, rules: seq<Rule>,
                           routes: seq<Routed>, digest: string -> string)
    requires Structured(providers, groups, ruleProviders, rules) && GroupsReady(providers, groups) && NamesReady(providers, groups, digest)
    requires RulesApart(rules, Removable(groups, AiProviders(providers))) && Rewritable(ruleProviders, rules)
    requires RoutesOf(routes, groups, AiProviders(providers))
    ensures Structured(providers - AiProviders(providers), ClosedGroups(groups, routes), WithServiceLists(ruleProviders), Rewritten(rules))
  {
    ClosedSound(providers, groups, routes, digest);
    forall r | r in rules ensures Defined(ClosedGroups(groups, routes), r.target) { ClosedDefined(providers, groups, routes, r.target); }
    RewrittenTargets(groups, ClosedGroups(groups, routes), rules);
    RulesStayValid(groups, AiProviders(providers), digest, ruleProviders, rules);
  }
}
