/** The browsing rewrite keeps names, references, providers and rules in order. */
module BrowsingValid {
  import opened Ordering
  import opened Routing
  import opened BrowsingRegions
  import opened BrowsingTiers
  import opened BrowsingRewrite
  import opened BrowsingSurface
  import opened BrowsingQualification
  import opened BrowsingReady
  import ExactFilter

  // ----- what the pass carries over -----

  /** The names that disappear with the regions that keep no node. */
  function GoneWith(payloads: Payloads, order: seq<string>, qualified: set<string>): (r: set<string>)
    ensures forall n :: n in r <==> exists k :: 0 <= k < |order| && Vanishes(payloads, order[k], qualified) && n in RegionGroups(order[k])
  {
    set k, n | 0 <= k < |order| && Vanishes(payloads, order[k], qualified) && n in RegionGroups(order[k]) :: n
  }

  lemma GoneNext(payloads: Payloads, order: seq<string>, qualified: set<string>)
    requires order != []
    ensures var k := |order| - 1;
            GoneWith(payloads, order, qualified)
            == GoneWith(payloads, order[..k], qualified) + if Vanishes(payloads, order[k], qualified) then RegionGroups(order[k]) else {}
  {
    var k := |order| - 1;
    forall n | n in GoneWith(payloads, order, qualified)
      ensures n in GoneWith(payloads, order[..k], qualified) || (Vanishes(payloads, order[k], qualified) && n in RegionGroups(order[k]))
    {
      var j :| 0 <= j < |order| && Vanishes(payloads, order[j], qualified) && n in RegionGroups(order[j]);
      if j < k { assert order[..k][j] == order[j]; }
    }
    forall n | n in GoneWith(payloads, order[..k], qualified) ensures n in GoneWith(payloads, order, qualified) {
      var j :| 0 <= j < k && Vanishes(payloads, order[..k][j], qualified) && n in RegionGroups(order[..k][j]);
      assert order[..k][j] == order[j];
    }
  }

  /** `h` is `g` with some members dropped, none of them left in `gone`. */
  ghost predicate From(g: Group, h: Group, gone: set<string>) {
    h.name == g.name && h.uses == g.uses && h.name !in gone && forall m :: m in h.proxies ==> m in g.proxies && m !in gone
  }

  ghost predicate HasOrigin(before: seq<Group>, h: Group, gone: set<string>) { exists g :: g in before && From(g, h, gone) }

  /** Nothing new, nothing of `gone`, and every other name still there. */
  ghost predicate Carried(before: seq<Group>, after: seq<Group>, gone: set<string>) {
    && UniqueNames(after) && (forall h :: h in after ==> HasOrigin(before, h, gone))
    && forall n :: n !in gone && Find(before, n).Some? ==> Find(after, n).Some?
  }

  lemma {:induction false} RemovedHas(groups: seq<Group>, names: set<string>, g: Group)
    requires g in groups && g.name !in names
    ensures BrowsingTiers.Pruned(g, names) in Removed(groups, names)
  {
    var k := |groups| - 1;
    assert groups == groups[..k] + [groups[k]];
    if g in groups[..k] { RemovedHas(groups[..k], names, g); }
  }

  lemma {:induction false} RemovedUnique(groups: seq<Group>, names: set<string>)
    requires UniqueNames(groups)
    ensures UniqueNames(Removed(groups, names))
  {
    if groups != [] {
      var k := |groups| - 1;
      RemovedUnique(groups[..k], names);
      forall g | g in Removed(groups[..k], names) ensures g.name != groups[k].name {
        RemovedFrom(groups[..k], names, g);
        var h :| h in groups[..k] && g == BrowsingTiers.Pruned(h, names);
      }
    }
  }

  lemma CarriedRemoved(before: seq<Group>, now: seq<Group>, gone: set<string>, names: set<string>)
    requires Carried(before, now, gone)
    ensures Carried(before, Removed(now, names), gone + names)
  {
    RemovedUnique(now, names);
    forall h | h in Removed(now, names) ensures HasOrigin(before, h, gone + names) {
      RemovedFrom(now, names, h);
      var x :| x in now && h == BrowsingTiers.Pruned(x, names);
      assert HasOrigin(before, x, gone);
      var g :| g in before && From(g, x, gone);
      assert From(g, h, gone + names);
    }
    forall n | n !in gone + names && Find(before, n).Some? ensures Find(Removed(now, names), n).Some? {
      RemovedHas(now, names, Find(now, n).value);
    }
  }

  lemma {:induction false} EditNames(groups: seq<Group>, name: string, f: Group -> Group)
    requires forall g :: f(g).name == g.name
    ensures forall i :: 0 <= i < |groups| ==> Edit(groups, name, f)[i].name == groups[i].name
  {
    if groups != [] { EditNames(groups[..|groups| - 1], name, f); }
  }

  lemma SameNamesFound(a: seq<Group>, b: seq<Group>, n: string)
    requires |a| == |b| && (forall i :: 0 <= i < |a| ==> b[i].name == a[i].name) && Find(a, n).Some?
    ensures Find(b, n).Some?
  {
    var i :| 0 <= i < |a| && a[i] == Find(a, n).value;
    assert b[i] in b;
  }

  lemma CarriedFiltered(before: seq<Group>, now: seq<Group>, gone: set<string>, name: string, text: string)
    requires Carried(before, now, gone)
    ensures Carried(before, Edit(now, name, Filtered(text)), gone)
  {
    var after := Edit(now, name, Filtered(text));
    EditNames(now, name, Filtered(text));
    forall h | h in after ensures HasOrigin(before, h, gone) {
      EditedFrom(now, name, Filtered(text), h);
      var x :| x in now && (h == x || h == Filtered(text)(x));
      assert HasOrigin(before, x, gone);
      var g :| g in before && From(g, x, gone);
      assert From(g, h, gone);
    }
    forall n | n !in gone && Find(before, n).Some? ensures Find(after, n).Some? { SameNamesFound(now, after, n); }
  }

  lemma CarriedTiers(before: seq<Group>, now: seq<Group>, gone: set<string>, region: string, t: Tiers)
    requires Carried(before, now, gone) && t.stable != {} && t.reserve != {}
    ensures Carried(before, TierEdits(now, region, t), gone)
  {
    var f := ExactFilter.Text(t.stable).value;
    CarriedFiltered(before, now, gone, Stable(region), f);
    CarriedFiltered(before, Edit(now, Stable(region), Filtered(f)), gone, Reserve(region), ExactFilter.Text(t.reserve).value);
  }

  lemma CarriedSelf(groups: seq<Group>)
    requires UniqueNames(groups)
    ensures Carried(groups, groups, {})
  {
    forall h | h in groups ensures HasOrigin(groups, h, {}) { assert From(h, h, {}); }
  }

  /** The pass drops the vanished regions with every reference to them, and nothing else. */
  lemma {:induction false} PassCarries(groups: seq<Group>, payloads: Payloads, order: seq<string>, qualified: set<string>, stable: set<string>)
    requires UniqueNames(groups)
    ensures Carried(groups, GroupsAfter(groups, payloads, order, qualified, stable), GoneWith(payloads, order, qualified))
  {
    if order == [] {
      CarriedSelf(groups);
      assert GoneWith(payloads, order, qualified) == {};
    } else {
      var k := |order| - 1;
      PassCarries(groups, payloads, order[..k], qualified, stable);
      GoneNext(payloads, order, qualified);
      var now, gone := GroupsAfter(groups, payloads, order[..k], qualified, stable), GoneWith(payloads, order[..k], qualified);
      if order[k] in payloads {
        var q := QualifiedIn(payloads[order[k]], qualified);
        if q == {} { CarriedRemoved(groups, now, gone, RegionGroups(order[k])); }
        else { SplitCovers(q, stable); CarriedTiers(groups, now, gone, order[k], SplitTiers(q, stable)); }
      }
    }
  }

  /** A reference that was resolved still is. */
  lemma CarriedResolved(before: seq<Group>, after: seq<Group>, gone: set<string>)
    requires Carried(before, after, gone) && Resolved(before)
    ensures Resolved(after)
  {
    forall h, m | h in after && m in h.proxies ensures Defined(after, m) {
      assert HasOrigin(before, h, gone);
      var g :| g in before && From(g, h, gone);
      assert Defined(before, m);
    }
  }

  // ----- the validator accepts -----

  /** No group outside a vanishing region uses its provider. */
  ghost predicate NoStranger(groups: seq<Group>, payloads: Payloads, order: seq<string>, qualified: set<string>) {
    forall g, r :: g in groups && r in order && Vanishes(payloads, r, qualified) && payloads[r].provider in g.uses ==> g.name in RegionGroups(r)
  }

  predicate RulesStay(rules: seq<Rule>, gone: set<string>) { forall r :: r in rules ==> r.target in BUILTINS || r.target !in gone }

  lemma {:induction false} ProvidersGone(providers: map<string, Provider>, payloads: Payloads, order: seq<string>, qualified: set<string>, p: string)
    requires p in providers && p !in ProvidersAfter(providers, payloads, order, qualified)
    ensures exists r :: r in order && Vanishes(payloads, r, qualified) && payloads[r].provider == p
  {
    if order != [] {
      var k := |order| - 1;
      assert order == order[..k] + [order[k]];
      if p !in ProvidersAfter(providers, payloads, order[..k], qualified) { ProvidersGone(providers, payloads, order[..k], qualified, p); }
    }
  }

  lemma {:induction false} ProvidersFilled(providers: map<string, Provider>, payloads: Payloads, order: seq<string>, qualified: set<string>)
    requires Filled(providers)
    ensures Filled(ProvidersAfter(providers, payloads, order, qualified))
  {
    if order != [] {
      var k := |order| - 1;
      ProvidersFilled(providers, payloads, order[..k], qualified);
      if order[k] in payloads { KeptNames(payloads[order[k]].payload, qualified); }
    }
  }

  /** A group over a provider that disappears disappears with its region. */
  lemma StrangersOut(groups: seq<Group>, providers: map<string, Provider>, payloads: Payloads, order: seq<string>, qualified: set<string>, g: Group, p: string)
    requires NoStranger(groups, payloads, order, qualified) && g in groups && p in g.uses
    requires p in providers && p !in ProvidersAfter(providers, payloads, order, qualified)
    ensures g.name in GoneWith(payloads, order, qualified)
  {
    ProvidersGone(providers, payloads, order, qualified, p);
    var r :| r in order && Vanishes(payloads, r, qualified) && payloads[r].provider == p;
    var k :| 0 <= k < |order| && order[k] == r;
  }

  lemma PassSupplied(groups: seq<Group>, providers: map<string, Provider>, payloads: Payloads, order: seq<string>, qualified: set<string>, stable: set<string>)
    requires UniqueNames(groups) && Supplied(providers, groups) && NoStranger(groups, payloads, order, qualified)
    ensures Supplied(ProvidersAfter(providers, payloads, order, qualified), GroupsAfter(groups, payloads, order, qualified, stable))
  {
    PassCarries(groups, payloads, order, qualified, stable);
    var gone := GoneWith(payloads, order, qualified);
    forall h, p | h in GroupsAfter(groups, payloads, order, qualified, stable) && p in h.uses
      ensures p in ProvidersAfter(providers, payloads, order, qualified)
    {
      assert HasOrigin(groups, h, gone);
      var g :| g in groups && From(g, h, gone);
      if p !in ProvidersAfter(providers, payloads, order, qualified) { StrangersOut(groups, providers, payloads, order, qualified, g, p); }
    }
  }

  /** New members that exist keep everything resolved. */
  lemma RoutedResolved(groups: seq<Group>, name: string, members: seq<string>)
    requires UniqueNames(groups) && Resolved(groups) && forall m :: m in members ==> Defined(groups, m)
    ensures var after := Edit(groups, name, Routed(members));
            UniqueNames(after) && Resolved(after) && forall n :: Defined(groups, n) ==> Defined(after, n)
  {
    var after := Edit(groups, name, Routed(members));
    EditNames(groups, name, Routed(members));
    forall n | Defined(groups, n) ensures Defined(after, n) { if n !in BUILTINS { SameNamesFound(groups, after, n); } }
    forall h, m | h in after && m in h.proxies ensures Defined(after, m) {
      EditedFrom(groups, name, Routed(members), h);
      assert Defined(groups, m);
    }
  }

  lemma RoutedSupplied(providers: map<string, Provider>, groups: seq<Group>, name: string, members: seq<string>)
    requires Supplied(providers, groups)
    ensures Supplied(providers, Edit(groups, name, Routed(members)))
  {
    forall h, p | h in Edit(groups, name, Routed(members)) && p in h.uses ensures p in providers { EditedFrom(groups, name, Routed(members), h); }
  }

  lemma LastDefined(groups: seq<Group>, name: string)
    requires FindLast(groups, name).Some?
    ensures Defined(groups, name)
  {
    assert FindLast(groups, name).value in groups;
  }

  /** The refreshed routes list the automatic group and regions that exist. */
  lemma RefreshedSound(groups: seq<Group>, available: seq<string>)
    requires UniqueNames(groups) && Resolved(groups) && FindLast(groups, AUTO).Some?
    requires forall r :: r in available ==> FindLast(groups, Display(r)).Some?
    ensures UniqueNames(RefreshedGroups(groups, available)) && Resolved(RefreshedGroups(groups, available))
    ensures forall n :: Defined(groups, n) ==> Defined(RefreshedGroups(groups, available), n)
  {
    forall m | m in Displays(available) ensures Defined(groups, m) {
      var i :| 0 <= i < |available| && Display(available[i]) == m;
      assert available[i] in available;
      LastDefined(groups, m);
    }
    LastDefined(groups, AUTO);
    RoutedResolved(groups, AUTO, Displays(available));
    RoutedResolved(Edit(groups, AUTO, Routed(Displays(available))), PUBLIC, [AUTO] + Displays(available) + ["DIRECT"]);
  }

  lemma RefreshedSupplied(providers: map<string, Provider>, groups: seq<Group>, available: seq<string>)
    requires Supplied(providers, groups)
    ensures Supplied(providers, RefreshedGroups(groups, available))
  {
    RoutedSupplied(providers, groups, AUTO, Displays(available));
    RoutedSupplied(providers, Edit(groups, AUTO, Routed(Displays(available))), PUBLIC, [AUTO] + Displays(available) + ["DIRECT"]);
  }

  // ----- the rewrite goes through -----

  lemma {:induction false} PayloadsOk(providers: map<string, Provider>, names: seq<string>, upper: string -> string)
    requires Filled(providers) && forall n :: n in names ==> n in providers
    ensures PayloadsOf(providers, names, upper).Ok?
  {
    if names != [] { PayloadsOk(providers, names[..|names| - 1], upper); }
  }

  function InventoryOf(providers: map<string, Provider>, upper: string -> string): Payloads {
    var read := PayloadsOf(providers, Sorted(providers.Keys), upper);
    if read.Ok? then read.value else map[]
  }

  /** What the pass needs of the regions: each has its shape and its payload. */
  ghost predicate RegionsReady(groups: seq<Group>, providers: map<string, Provider>, payloads: Payloads, order: seq<string>, upper: string -> string) {
    && Inventoried(providers, payloads, upper)
    && forall r :: r in order ==> IsRegion(r) && RegionShape(groups, providers, r, upper)
  }

  lemma StrangersGone(groups: seq<Group>, payloads: Payloads, done: seq<string>, order: seq<string>, region: string, qualified: set<string>, stable: set<string>)
    requires UniqueNames(groups) && NoStranger(groups, payloads, order, qualified) && region in order && Vanishes(payloads, region, qualified)
    ensures !UsedBy(Removed(GroupsAfter(groups, payloads, done, qualified, stable), RegionGroups(region)), payloads[region].provider)
  {
    PassCarries(groups, payloads, done, qualified, stable);
    var now, gone := GroupsAfter(groups, payloads, done, qualified, stable), GoneWith(payloads, done, qualified);
    forall h | h in Removed(now, RegionGroups(region)) ensures payloads[region].provider !in h.uses {
      RemovedFrom(now, RegionGroups(region), h);
      var x :| x in now && h == BrowsingTiers.Pruned(x, RegionGroups(region));
      assert HasOrigin(groups, x, gone);
      var g :| g in groups && From(g, x, gone);
    }
  }

  lemma SurvivorGoes(groups: seq<Group>, providers: map<string, Provider>, payloads: Payloads, done: seq<string>, region: string,
                     qualified: set<string>, stable: set<string>, upper: string -> string)
    requires Inventoried(providers, payloads, upper) && RegionShape(groups, providers, region, upper) && IsRegion(region)
    requires Survives(payloads, region, qualified) && forall r :: r in done ==> IsRegion(r)
    ensures payloads[region].provider in ProvidersAfter(providers, payloads, done, qualified)
    ensures HasTiers(GroupsAfter(groups, payloads, done, qualified, stable), region)
  {
    var p := ShapeParts(groups, providers, region, upper);
    ShapeAfter(groups, payloads, done, qualified, stable, region, p);
    ProviderAfter(providers, payloads, done, qualified, upper, region);
  }

  lemma {:induction false} AllStepsGo(groups: seq<Group>, providers: map<string, Provider>, payloads: Payloads, order: seq<string>, n: nat,
                                      qualified: set<string>, stable: set<string>, upper: string -> string)
    requires n <= |order| && UniqueNames(groups) && RegionsReady(groups, providers, payloads, order, upper)
    requires NoStranger(groups, payloads, order, qualified)
    ensures StepsGo(groups, providers, payloads, order[..n], qualified, stable)
  {
    if n > 0 {
      var k := n - 1;
      var done, region := order[..k], order[k];
      TakeStep(order, k);
      assert forall r :: r in done ==> r in order;
      assert region in order;
      AllStepsGo(groups, providers, payloads, order, k, qualified, stable, upper);
      StepNext(groups, providers, payloads, order, k, qualified, stable);
      if region in payloads {
        if Vanishes(payloads, region, qualified) { StrangersGone(groups, payloads, done, order, region, qualified, stable); }
        else { SurvivorGoes(groups, providers, payloads, done, region, qualified, stable, upper); }
      }
    }
  }

  lemma SurvivorsShown(groups: seq<Group>, providers: map<string, Provider>, payloads: Payloads, order: seq<string>,
                       qualified: set<string>, stable: set<string>, upper: string -> string, region: string)
    requires RegionsReady(groups, providers, payloads, order, upper) && region in Surviving(payloads, order, qualified)
    ensures FindLast(GroupsAfter(groups, payloads, order, qualified, stable), Display(region)).Some?
  {
    var p := ShapeParts(groups, providers, region, upper);
    ShapeAfter(groups, payloads, order, qualified, stable, region, p);
  }

  lemma FinalStructured(groups: seq<Group>, providers: map<string, Provider>, ruleProviders: map<string, RuleProvider>, rules: seq<Rule>,
                   payloads: Payloads, order: seq<string>, qualified: set<string>, stable: set<string>, upper: string -> string)
    requires Structured(providers, groups, ruleProviders, rules) && RegionsReady(groups, providers, payloads, order, upper)
    requires NoStranger(groups, payloads, order, qualified) && RulesStay(rules, GoneWith(payloads, order, qualified))
    requires FindLast(GroupsAfter(groups, payloads, order, qualified, stable), AUTO).Some?
    ensures Structured(ProvidersAfter(providers, payloads, order, qualified), FinalGroups(groups, payloads, order, qualified, stable), ruleProviders, rules)
  {
    var now, gone := GroupsAfter(groups, payloads, order, qualified, stable), GoneWith(payloads, order, qualified);
    var available := Surviving(payloads, order, qualified);
    PassCarries(groups, payloads, order, qualified, stable);
    CarriedResolved(groups, now, gone);
    forall r | r in available ensures FindLast(now, Display(r)).Some? { SurvivorsShown(groups, providers, payloads, order, qualified, stable, upper, r); }
    RefreshedSound(now, available);
    PassSupplied(groups, providers, payloads, order, qualified, stable);
    RefreshedSupplied(ProvidersAfter(providers, payloads, order, qualified), now, available);
    ProvidersFilled(providers, payloads, order, qualified);
    forall r | r in rules ensures Defined(RefreshedGroups(now, available), r.target) {
      assert Defined(groups, r.target);
      assert Defined(now, r.target);
    }
  }

  lemma RegionsAreReady(groups: seq<Group>, providers: map<string, Provider>, texts: Texts)
    requires Filled(providers) && Surfaced(groups, providers, texts)
    ensures var payloads, order := InventoryOf(providers, texts.upper), RuntimeRegions(groups, texts.fold);
            RegionsReady(groups, providers, payloads, order, texts.upper) && payloads != map[]
  {
    var payloads, order := InventoryOf(providers, texts.upper), RuntimeRegions(groups, texts.fold);
    PayloadsOk(providers, Sorted(providers.Keys), texts.upper);
    PayloadsRead(providers, Sorted(providers.Keys), texts.upper);
    assert Displays(order) != [] && order[0] in order;
    var p := ShapeParts(groups, providers, order[0], texts.upper);
    RegionRead(providers, payloads, texts.upper, order[0], p);
  }

  lemma RefreshGoes(groups: seq<Group>, providers: map<string, Provider>, payloads: Payloads, order: seq<string>, qualified: set<string>, stable: set<string>,
                    texts: Texts)
    requires Surfaced(groups, providers, texts)
    ensures var now := GroupsAfter(groups, payloads, order, qualified, stable); FindLast(now, AUTO).Some? && FindLast(now, PUBLIC).Some?
  {
    assert PUBLIC in CANONICAL;
    CanonicalApart(PUBLIC);
    CanonicalApart(AUTO);
    OtherRemains(groups, payloads, order, qualified, stable, PUBLIC);
    OtherRemains(groups, payloads, order, qualified, stable, AUTO);
  }
}
