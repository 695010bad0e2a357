/** A candidate with one browsing region meets everything the browsing rewrite asks for. */
module BrowsingExample {
  import opened Ordering
  import opened Results
  import opened Routing
  import opened Validator
  import opened GroupLiveness
  import opened BrowsingRegions
  import opened BrowsingTiers
  import opened BrowsingRewrite
  import opened BrowsingSurface
  import opened BrowsingReady
  import opened BrowsingValid
  import opened BrowsingLive
  import BrowsingQualification
  import GroupCycles

  /** The probe settings of the automatic groups. */
  function Probe(): map<string, string> { map["url" := "https://www.gstatic.com/generate_204", "tolerance" := "50"] }

  function Tier(name: string, p: string): Group { Group(name, "url-test", true, [p], [], None, Probe()) }

  function RegionGroup(r: string): Group { Group(Display(r), "fallback", true, [], [Stable(r), Reserve(r)], None, Probe()) }

  function Auto(r: string): Group { Group(AUTO, "url-test", true, [], [Display(r)], None, Probe()) }

  function Public(r: string): Group { Group(PUBLIC, "select", false, [], [AUTO, Display(r), "DIRECT"], None, map[]) }

  /** One region over one provider with one node; everything else goes to the public group. */
  ghost predicate OneRegion(groups: seq<Group>, providers: map<string, Provider>, rules: seq<Rule>, r: string, p: string, x: Proxy, texts: Texts) {
    && IsRegion(r) && KeepsRegions(texts.fold) && ProviderRegion(p, texts.upper) == Some(r)
    && groups == [Tier(Stable(r), p), Tier(Reserve(r), p), RegionGroup(r), Auto(r), Public(r)]
    && providers == map[p := Provider("inline", map[], Some([x]), map[])] && rules == [Rule("MATCH", "", PUBLIC, [])]
  }

  /** The only group of its name. */
  predicate At(groups: seq<Group>, g: Group) { Find(groups, g.name) == Some(g) && FindLast(groups, g.name) == Some(g) }

  lemma FiveUnique(groups: seq<Group>)
    requires |groups| == 5 && groups[0].name !in {groups[1].name, groups[2].name, groups[3].name, groups[4].name}
    requires groups[1].name !in {groups[2].name, groups[3].name, groups[4].name} && groups[2].name !in {groups[3].name, groups[4].name}
    requires groups[3].name != groups[4].name
    ensures UniqueNames(groups)
  {
  }

  lemma FiveFound(groups: seq<Group>)
    requires |groups| == 5 && UniqueNames(groups)
    ensures At(groups, groups[0]) && At(groups, groups[1]) && At(groups, groups[2]) && At(groups, groups[3]) && At(groups, groups[4])
  {
    forall i | 0 <= i < 5 ensures At(groups, groups[i]) {
      FindUnique(groups, i);
      FindLastUnique(groups, i);
    }
  }

  lemma NamesDiffer(r: string)
    ensures Stable(r) != Reserve(r) && Stable(r) != Display(r) && Reserve(r) != Display(r)
    ensures AUTO !in {Stable(r), Reserve(r), Display(r)} && PUBLIC !in {Stable(r), Reserve(r), Display(r), AUTO}
  {
    StableNotReserve(r, r);
    DisplayNotInternal(r, r);
    BrowsingQualification.RouteNamesApart(r);
  }

  /** The five groups. */
  ghost predicate Five(groups: seq<Group>, r: string, p: string) {
    && UniqueNames(groups) && At(groups, Tier(Stable(r), p)) && At(groups, Tier(Reserve(r), p)) && At(groups, RegionGroup(r))
    && At(groups, Auto(r)) && At(groups, Public(r))
    && forall g :: g in groups ==> g == Tier(Stable(r), p) || g == Tier(Reserve(r), p) || g == RegionGroup(r) || g == Auto(r) || g == Public(r)
  }

  lemma FoundFive(groups: seq<Group>, r: string, p: string)
    requires groups == [Tier(Stable(r), p), Tier(Reserve(r), p), RegionGroup(r), Auto(r), Public(r)]
    ensures Five(groups, r, p)
  {
    NamesDiffer(r);
    FiveUnique(groups);
    FiveFound(groups);
  }

  // ----- the public surface -----

  lemma OneRuntimeRegion(groups: seq<Group>, r: string, p: string, fold: string -> string)
    requires Five(groups, r, p) && IsRegion(r) && KeepsRegions(fold)
    ensures RuntimeRegions(groups, fold) == [r] && Displays([r]) == [Display(r)]
  {
    assert Displays([r]) == [Display(r)];
    RegionsReadBack([r], fold);
  }

  lemma OneProvider(providers: map<string, Provider>, r: string, p: string, upper: string -> string)
    requires providers.Keys == {p} && ProviderRegion(p, upper) == Some(r)
    ensures ProvidersOf(providers, r, upper) == {p}
  {
  }

  lemma ProbeShape()
    ensures Https(Probe()) && "tolerance" in Probe() && PositiveNumber(Probe()["tolerance"])
  {
    var width := Probe()["tolerance"];
    assert width == "50" && width[0] in width;
  }

  lemma RegionShaped(groups: seq<Group>, providers: map<string, Provider>, r: string, p: string, upper: string -> string)
    requires Five(groups, r, p) && providers.Keys == {p} && ProviderRegion(p, upper) == Some(r)
    ensures RegionShape(groups, providers, r, upper)
  {
    OneProvider(providers, r, p, upper);
    ProbeShape();
  }

  lemma CanonicalHere(groups: seq<Group>, r: string, p: string, n: string)
    requires Five(groups, r, p) && n in CANONICAL && FindLast(groups, n).Some?
    ensures CanonicalShape(FindLast(groups, n).value)
  {
    CanonicalApart(n);
    var g := FindLast(groups, n).value;
    assert n !in RegionGroups(r) && AUTO != PUBLIC && AUTO !in CANONICAL by {
      BrowsingQualification.RouteNamesApart(r);
      assert AUTO[2] == '自' && AUTO[0] == '网' && AI_GROUP[0] == '人' && "代理选择"[0] == '代';
    }
  }

  lemma NotRaw(r: string)
    ensures forall m :: m in [AUTO] + [Display(r)] + ["DIRECT"] ==> !("[BROWSING:" <= m)
    ensures [AUTO] + [Display(r)] + ["DIRECT"] == [AUTO, Display(r), "DIRECT"]
  {
    assert AUTO[0] == '网' && Display(r)[0] == '网' && "DIRECT"[0] == 'D';
  }

  lemma CanonicalAll(groups: seq<Group>, r: string, p: string)
    requires Five(groups, r, p)
    ensures forall n :: n in CANONICAL && FindLast(groups, n).Some? ==> CanonicalShape(FindLast(groups, n).value)
  {
    forall n | n in CANONICAL && FindLast(groups, n).Some? ensures CanonicalShape(FindLast(groups, n).value) { CanonicalHere(groups, r, p, n); }
  }

  lemma AutoShaped(r: string)
    ensures AutoShape(Auto(r), [Display(r)])
  {
    ProbeShape();
  }

  lemma RoutesShown(groups: seq<Group>, r: string, p: string)
    requires Five(groups, r, p)
    ensures FindLast(groups, PUBLIC) == Some(Public(r)) && Public(r).proxies == [AUTO] + [Display(r)] + ["DIRECT"]
    ensures FindLast(groups, AUTO) == Some(Auto(r)) && AutoShape(Auto(r), [Display(r)])
    ensures forall m :: m in Public(r).proxies ==> !("[BROWSING:" <= m)
  {
    NotRaw(r);
    AutoShaped(r);
  }

  lemma SurfacedBy(groups: seq<Group>, providers: map<string, Provider>, r: string, texts: Texts, public: Group, auto: Group)
    requires RuntimeRegions(groups, texts.fold) == [r] && RegionShape(groups, providers, r, texts.upper)
    requires forall n :: n in CANONICAL && FindLast(groups, n).Some? ==> CanonicalShape(FindLast(groups, n).value)
    requires FindLast(groups, PUBLIC) == Some(public) && public.proxies == [AUTO] + [Display(r)] + ["DIRECT"]
    requires FindLast(groups, AUTO) == Some(auto) && AutoShape(auto, [Display(r)]) && forall m :: m in public.proxies ==> !("[BROWSING:" <= m)
    ensures Surfaced(groups, providers, texts)
  {
    assert Displays([r]) == [Display(r)];
  }

  lemma OneSurfaced(groups: seq<Group>, providers: map<string, Provider>, r: string, p: string, texts: Texts)
    requires Five(groups, r, p) && IsRegion(r) && KeepsRegions(texts.fold) && providers.Keys == {p} && ProviderRegion(p, texts.upper) == Some(r)
    ensures Surfaced(groups, providers, texts)
  {
    OneRuntimeRegion(groups, r, p, texts.fold);
    RegionShaped(groups, providers, r, p, texts.upper);
    RoutesShown(groups, r, p);
    CanonicalAll(groups, r, p);
    SurfacedBy(groups, providers, r, texts, Public(r), Auto(r));
  }

  // ----- structure -----

  lemma OneRule(groups: seq<Group>, rules: seq<Rule>, r: string, p: string)
    requires Five(groups, r, p) && rules == [Rule("MATCH", "", PUBLIC, [])]
    ensures ListsKnown(map[], rules) && Targeted(groups, rules) && NoDuplicateRules(rules) && EndsInMatch(rules)
  {
  }

  /** Two tiers, a group over them, a group over that, and one over both. */
  ghost predicate Chained(s: Group, t: Group, d: Group, a: Group, u: Group, b: string) {
    && s.proxies == [] && t.proxies == [] && d.proxies == [s.name, t.name] && a.proxies == [d.name] && u.proxies == [a.name, d.name, b]
    && NoDuplicates([s.name, t.name, d.name, a.name, u.name]) && b in BUILTINS && b !in {s.name, t.name, d.name, a.name, u.name}
  }

  ghost predicate Stacked(groups: seq<Group>, s: Group, t: Group, d: Group, a: Group, u: Group, b: string) {
    && At(groups, s) && At(groups, t) && At(groups, d) && At(groups, a) && At(groups, u)
    && (forall g :: g in groups ==> g == s || g == t || g == d || g == a || g == u) && Chained(s, t, d, a, u, b)
  }

  lemma FiveChained(r: string, p: string)
    ensures Chained(Tier(Stable(r), p), Tier(Reserve(r), p), RegionGroup(r), Auto(r), Public(r), "DIRECT")
  {
    NamesDiffer(r);
    InternalNames(r);
  }

  lemma FiveStacked(groups: seq<Group>, r: string, p: string)
    requires Five(groups, r, p)
    ensures Stacked(groups, Tier(Stable(r), p), Tier(Reserve(r), p), RegionGroup(r), Auto(r), Public(r), "DIRECT")
  {
    FiveChained(r, p);
  }

  lemma StackedResolved(groups: seq<Group>, s: Group, t: Group, d: Group, a: Group, u: Group, b: string)
    requires Stacked(groups, s, t, d, a, u, b)
    ensures Resolved(groups)
  {
    forall g, m | g in groups && m in g.proxies ensures Defined(groups, m) {
      assert g == d || g == a || g == u;
      assert m == s.name || m == t.name || m == d.name || m == a.name || m == b;
    }
  }

  lemma OneSupplied(groups: seq<Group>, providers: map<string, Provider>, r: string, p: string)
    requires Five(groups, r, p) && p in providers
    ensures Supplied(providers, groups)
  {
  }

  lemma OneStructured(groups: seq<Group>, providers: map<string, Provider>, rules: seq<Rule>, r: string, p: string)
    requires Five(groups, r, p) && p in providers && Filled(providers) && rules == [Rule("MATCH", "", PUBLIC, [])]
    ensures Structured(providers, groups, map[], rules)
  {
    OneSupplied(groups, providers, r, p);
    OneRule(groups, rules, r, p);
    FiveStacked(groups, r, p);
    StackedResolved(groups, Tier(Stable(r), p), Tier(Reserve(r), p), RegionGroup(r), Auto(r), Public(r), "DIRECT");
  }

  // ----- liveness -----

  lemma StackedNames(groups: seq<Group>, s: Group, t: Group, d: Group, a: Group, u: Group, b: string)
    requires Stacked(groups, s, t, d, a, u, b)
    ensures GroupNames(groups) == {s.name, t.name, d.name, a.name, u.name}
  {
    assert s in groups && t in groups && d in groups && a in groups && u in groups;
  }

  /** A group comes after its members. */
  lemma StackedAcyclic(groups: seq<Group>, s: Group, t: Group, d: Group, a: Group, u: Group, b: string)
    requires Stacked(groups, s, t, d, a, u, b)
    ensures GroupCycles.Acyclic(GroupGraph(groups))
  {
    StackedNames(groups, s, t, d, a, u, b);
    assert b !in GroupNames(groups);
    assert MemberGroups(groups, s.name) == {} && MemberGroups(groups, t.name) == {} && MemberGroups(groups, d.name) <= {s.name, t.name};
    assert MemberGroups(groups, a.name) <= {d.name} && MemberGroups(groups, u.name) <= {a.name, d.name};
    OrderedAcyclic(GroupGraph(groups), s.name, t.name, d.name, a.name, u.name);
  }

  lemma OrderedAcyclic(g: GroupCycles.Graph, s: string, t: string, d: string, a: string, u: string)
    requires g.Keys == {s, t, d, a, u} && NoDuplicates([s, t, d, a, u]) && GroupCycles.Closed(g)
    requires g[s] == {} && g[t] == {} && g[d] <= {s, t} && g[a] <= {d} && g[u] <= {a, d}
    ensures GroupCycles.Acyclic(g)
  {
    var order := [s, t, d, a, u];
    assert order[..2] == [s, t] && order[..3] == [s, t, d] && order[..4] == [s, t, d, a];
    forall i | 0 <= i < 5 ensures order[i] in g && forall y :: y in g[order[i]] ==> y in order[..i] {
      assert i == 0 || i == 1 || i == 2 || i == 3 || i == 4;
    }
    GroupCycles.TopologicalIsAcyclic(g, order);
  }

  lemma TierHasNode(search: Search, providers: map<string, Provider>, groups: seq<Group>, g: Group, p: string)
    requires g.name !in BUILTINS && At(groups, g) && g.uses == [p] && g.filter.None? && p in providers && PayloadNames(providers[p]) != {}
    ensures HasNode(search, providers, groups, g.name)
  {
    UnfilteredOffers(search, providers, g, p);
    OfferIsNode(search, providers, groups, g);
  }

  lemma StackedPopulated(search: Search, providers: map<string, Provider>, groups: seq<Group>, s: Group, t: Group, d: Group, a: Group, u: Group, b: string, p: string)
    requires Stacked(groups, s, t, d, a, u, b) && {s.name, t.name, d.name, a.name} !! BUILTINS && !Measured(u)
    requires s.uses == [p] && t.uses == [p] && s.filter.None? && t.filter.None? && p in providers && PayloadNames(providers[p]) != {}
    ensures Populated(search, providers, groups)
  {
    TierHasNode(search, providers, groups, s, p);
    TierHasNode(search, providers, groups, t, p);
    MemberIsNode(search, providers, groups, d, s.name);
    MemberIsNode(search, providers, groups, a, d.name);
  }

  lemma OneLive(search: Search, providers: map<string, Provider>, groups: seq<Group>, r: string, p: string)
    requires Five(groups, r, p) && p in providers && PayloadNames(providers[p]) != {}
    ensures Live(search, providers, groups)
  {
    InternalNames(r);
    FiveStacked(groups, r, p);
    StackedAcyclic(groups, Tier(Stable(r), p), Tier(Reserve(r), p), RegionGroup(r), Auto(r), Public(r), "DIRECT");
    StackedPopulated(search, providers, groups, Tier(Stable(r), p), Tier(Reserve(r), p), RegionGroup(r), Auto(r), Public(r), "DIRECT", p);
  }

  // ----- regions -----

  lemma UsesOfOne(groups: seq<Group>, r: string, p: string, g: Group)
    requires Five(groups, r, p) && g in groups
    ensures g.uses != [] ==> g.name in TierNames(r)
    ensures g.name in {AUTO, PUBLIC} || g.name in RegionGroups(r)
  {
  }

  lemma OneWired(groups: seq<Group>, payloads: Payloads, r: string, p: string, qualified: set<string>)
    requires Five(groups, r, p)
    ensures ProvidersWired(groups, payloads, [r], qualified) && RegionsWired(groups, payloads, [r], qualified)
  {
    forall g | g in groups ensures (g.uses != [] ==> g.name in TierNames(r)) && (g.name in {AUTO, PUBLIC} || g.name in RegionGroups(r)) {
      UsesOfOne(groups, r, p, g);
    }
    WiredTogether(groups, payloads, r, qualified);
  }

  lemma WiredTogether(groups: seq<Group>, payloads: Payloads, r: string, qualified: set<string>)
    requires forall g :: g in groups ==> (g.uses != [] ==> g.name in TierNames(r)) && (g.name in {AUTO, PUBLIC} || g.name in RegionGroups(r))
    ensures ProvidersWired(groups, payloads, [r], qualified) && RegionsWired(groups, payloads, [r], qualified)
  {
  }

  lemma OneStays(payloads: Payloads, rules: seq<Rule>, r: string, qualified: set<string>)
    requires rules == [Rule("MATCH", "", PUBLIC, [])]
    ensures RulesStay(rules, GoneWith(payloads, [r], qualified))
  {
    BrowsingQualification.RouteNamesApart(r);
  }

  lemma FiveReady(groups: seq<Group>, providers: map<string, Provider>, rules: seq<Rule>, r: string, p: string, qualified: set<string>, texts: Texts)
    requires Five(groups, r, p) && RuntimeRegions(groups, texts.fold) == [r] && KeepsRegions(texts.fold)
    requires Surfaced(groups, providers, texts) && Validated(texts.search, providers, groups, map[], rules) && rules == [Rule("MATCH", "", PUBLIC, [])]
    ensures Ready(groups, providers, map[], rules, qualified, texts)
  {
    OneWired(groups, InventoryOf(providers, texts.upper), r, p, qualified);
    OneStays(InventoryOf(providers, texts.upper), rules, r, qualified);
  }

  lemma OneFilled(providers: map<string, Provider>, p: string, x: Proxy)
    requires providers == map[p := Provider("inline", map[], Some([x]), map[])]
    ensures Filled(providers) && providers.Keys == {p} && PayloadNames(providers[p]) != {}
  {
    FilledNames(providers[p]);
  }

  /** Whatever qualified, the candidate is ready. */
  lemma OneReady(groups: seq<Group>, providers: map<string, Provider>, rules: seq<Rule>, r: string, p: string, x: Proxy, qualified: set<string>, texts: Texts)
    requires OneRegion(groups, providers, rules, r, p, x, texts)
    ensures Ready(groups, providers, map[], rules, qualified, texts)
  {
    FoundFive(groups, r, p);
    OneFilled(providers, p, x);
    OneStructured(groups, providers, rules, r, p);
    OneLive(texts.search, providers, groups, r, p);
    OneSurfaced(groups, providers, r, p, texts);
    OneRuntimeRegion(groups, r, p, texts.fold);
    FiveReady(groups, providers, rules, r, p, qualified, texts);
  }
}
