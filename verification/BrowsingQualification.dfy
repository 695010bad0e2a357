/** The rewrite of a candidate to its qualified browsing nodes, then the history step and its counts. */
module BrowsingQualification {
  import opened Ordering
  import opened Results
  import opened Routing
  import opened Validator
  import opened BrowsingRegions
  import opened BrowsingTiers
  import opened BrowsingRewrite
  import opened BrowsingSurface

  datatype Report = Report(available: seq<string>, removed: seq<string>, regions: map<string, Counts>)

  // ----- the public routes -----

  function RefreshedGroups(groups: seq<Group>, available: seq<string>): seq<Group> {
    Edit(Edit(groups, AUTO, Routed(Displays(available))), PUBLIC, Routed([AUTO] + Displays(available) + ["DIRECT"]))
  }

  method RefreshRegionalRoutes(config: Config, available: seq<string>) returns (r: Result<()>)
    modifies config`groups
    ensures r.Ok? <==> Refreshable(old(config.groups), available)
    ensures r.Ok? ==> config.groups == RefreshedGroups(old(config.groups), available)
  {
    if FindLast(config.groups, AUTO).None? || FindLast(config.groups, PUBLIC).None? { return Raised("hardened browsing route groups are missing"); }
    var shown := Displays(available);
    if shown == [] { return Raised("no browsing region retained a qualified node"); }
    config.groups := Edit(config.groups, AUTO, Routed(shown));
    config.groups := Edit(config.groups, PUBLIC, Routed([AUTO] + shown + ["DIRECT"]));
    return Ok(());
  }

  lemma RouteNamesApart(region: string)
    ensures AUTO != PUBLIC && AUTO !in RegionGroups(region) && PUBLIC !in RegionGroups(region) && "DIRECT" !in RegionGroups(region)
  {
    assert AUTO[2] == '自' && PUBLIC[2] == '浏' && DISPLAY_PREFIX[2] == ' ';
    assert Display(region)[2] == ' ' && Display(region)[0] == '网';
    assert Stable(region)[0] == '_' && Reserve(region)[0] == '_' && Scaffold(region)[0] == '_' && "DIRECT"[0] == 'D';
  }

  lemma RefreshElsewhere(groups: seq<Group>, available: seq<string>, name: string)
    requires name != AUTO && name != PUBLIC
    ensures FindLast(RefreshedGroups(groups, available), name) == FindLast(groups, name)
  {
    var f := Routed(Displays(available));
    FindEdited(groups, AUTO, f, name);
    FindEdited(Edit(groups, AUTO, f), PUBLIC, Routed([AUTO] + Displays(available) + ["DIRECT"]), name);
  }

  /** The automatic group lists the surviving regions, and reads back as them. */
  lemma RefreshedRegions(groups: seq<Group>, available: seq<string>, fold: string -> string)
    requires KeepsRegions(fold) && FindLast(groups, AUTO).Some? && forall r :: r in available ==> IsRegion(r)
    ensures RuntimeRegions(RefreshedGroups(groups, available), fold) == available
  {
    RouteNamesApart("");
    var f := Routed(Displays(available));
    FindEdited(groups, AUTO, f, AUTO);
    FindEdited(Edit(groups, AUTO, f), PUBLIC, Routed([AUTO] + Displays(available) + ["DIRECT"]), AUTO);
    RegionsReadBack(available, fold);
  }

  lemma RefreshClear(groups: seq<Group>, available: seq<string>, region: string)
    requires Clear(groups, RegionGroups(region)) && IsRegion(region) && region !in available && forall r :: r in available ==> IsRegion(r)
    ensures Clear(RefreshedGroups(groups, available), RegionGroups(region))
  {
    RouteNamesApart(region);
    forall m | m in Displays(available) ensures m !in RegionGroups(region) {
      var i :| 0 <= i < |available| && Display(available[i]) == m;
      assert available[i] in available;
      RegionGroupsApart(available[i], region);
      assert m in RegionGroups(available[i]);
    }
    var f, g := Routed(Displays(available)), Routed([AUTO] + Displays(available) + ["DIRECT"]);
    ClearEdited(groups, RegionGroups(region), AUTO, f);
    ClearEdited(Edit(groups, AUTO, f), RegionGroups(region), PUBLIC, g);
  }

  lemma RefreshDone(groups: seq<Group>, payloads: Payloads, order: seq<string>, qualified: set<string>, stable: set<string>)
    requires AllDone(groups, payloads, order, qualified, stable) && forall r :: r in order ==> IsRegion(r)
    ensures AllDone(RefreshedGroups(groups, Surviving(payloads, order, qualified)), payloads, order, qualified, stable)
  {
    var available := Surviving(payloads, order, qualified);
    forall r | r in order ensures RegionDone(RefreshedGroups(groups, available), payloads, r, qualified, stable) {
      assert RegionDone(groups, payloads, r, qualified, stable);
      RouteNamesApart(r);
      assert Stable(r) in RegionGroups(r) && Reserve(r) in RegionGroups(r);
      RefreshElsewhere(groups, available, Stable(r));
      RefreshElsewhere(groups, available, Reserve(r));
      if Vanishes(payloads, r, qualified) { RefreshClear(groups, available, r); }
    }
  }

  lemma RefreshBare(groups: seq<Group>, available: seq<string>)
    requires BareTiers(groups)
    ensures BareTiers(RefreshedGroups(groups, available))
  {
    forall r ensures AUTO != Stable(r) && AUTO != Reserve(r) && PUBLIC != Stable(r) && PUBLIC != Reserve(r) { RouteNamesApart(r); }
    var f := Routed(Displays(available));
    BareEdited(groups, AUTO, f);
    BareEdited(Edit(groups, AUTO, f), PUBLIC, Routed([AUTO] + Displays(available) + ["DIRECT"]));
  }

  // ----- providers -----

  /** What becomes of the provider of one region. */
  lemma {:induction false} ProviderAfter(providers: map<string, Provider>, payloads: Payloads, order: seq<string>, qualified: set<string>,
                                         upper: string -> string, region: string)
    requires Reads(providers, payloads, upper) && region in payloads
    ensures var after, p := ProvidersAfter(providers, payloads, order, qualified), payloads[region].provider;
            && (region in order && Vanishes(payloads, region, qualified) ==> p !in after)
            && (region in order && Survives(payloads, region, qualified) ==>
                  p in after && after[p].payload == Some(KeptProxies(payloads[region].payload, qualified)))
            && (region !in order ==> p in after && after[p].payload == Some(payloads[region].payload))
  {
    assert EntryReads(providers, region, payloads[region], upper);
    if order != [] {
      var k := |order| - 1;
      assert order == order[..k] + [order[k]];
      ProviderAfter(providers, payloads, order[..k], qualified, upper, region);
      if order[k] in payloads {
        assert EntryReads(providers, order[k], payloads[order[k]], upper);
      }
    }
  }

  lemma {:induction false} ProvidersOnlyShrink(providers: map<string, Provider>, payloads: Payloads, order: seq<string>, qualified: set<string>)
    ensures ProvidersAfter(providers, payloads, order, qualified).Keys <= providers.Keys
  {
    if order != [] { ProvidersOnlyShrink(providers, payloads, order[..|order| - 1], qualified); }
  }

  // ----- the rewrite -----

  /** What the rewrite promises of the configuration it leaves. */
  ghost predicate Rewritten(config: Config, before: seq<Group>, providers: map<string, Provider>, payloads: Payloads, report: Report,
                            qualified: set<string>, stable: set<string>, texts: Texts)
    reads config
  {
    var order := RuntimeRegions(before, texts.fold);
    && PayloadsOf(providers, Sorted(providers.Keys), texts.upper) == Ok(payloads) && Reads(providers, payloads, texts.upper)
    && report.available == Surviving(payloads, order, qualified) && report.removed == Vanishing(payloads, order, qualified)
    && RuntimeRegions(config.groups, texts.fold) == report.available
    && AllDone(config.groups, payloads, order, qualified, stable)
    && config.providers == ProvidersAfter(providers, payloads, order, qualified)
    && Counted(report.regions, payloads, order, qualified, stable)
    && (BareTiers(before) ==> BareTiers(config.groups))
    && SurfaceValid(config.groups, config.providers, texts)
    && Validated(texts.search, config.providers, config.groups, config.ruleProviders, config.rules)
  }

  ghost predicate Counted(regions: map<string, Counts>, payloads: Payloads, order: seq<string>, qualified: set<string>, stable: set<string>) {
    (forall r :: r in regions <==> r in order && r in payloads)
    && forall r :: r in regions ==> regions[r] == CountsFor(payloads[r], qualified, stable)
  }

  lemma CountedStep(regions: map<string, Counts>, payloads: Payloads, order: seq<string>, region: string, qualified: set<string>, stable: set<string>)
    requires Counted(regions, payloads, order, qualified, stable) && region in payloads
    ensures Counted(regions[region := CountsFor(payloads[region], qualified, stable)], payloads, order + [region], qualified, stable)
  {
  }

  /** One more region: the whole pass needs it to go through. */
  lemma StepNext(groups: seq<Group>, providers: map<string, Provider>, payloads: Payloads, order: seq<string>, k: nat,
                 qualified: set<string>, stable: set<string>)
    requires k < |order| && StepsGo(groups, providers, payloads, order[..k], qualified, stable)
    ensures var now, there := GroupsAfter(groups, payloads, order[..k], qualified, stable), ProvidersAfter(providers, payloads, order[..k], qualified);
            if order[k] !in payloads then
              StepsGo(groups, providers, payloads, order[..k + 1], qualified, stable)
              && GroupsAfter(groups, payloads, order[..k + 1], qualified, stable) == now
            else
              && (StepsGo(groups, providers, payloads, order[..k + 1], qualified, stable) <==> StepGoes(now, there, payloads[order[k]], order[k], qualified))
              && GroupsAfter(groups, payloads, order[..k + 1], qualified, stable) == GroupsStep(now, payloads[order[k]], order[k], qualified, stable)
    ensures StepsGo(groups, providers, payloads, order, qualified, stable) ==> StepsGo(groups, providers, payloads, order[..k + 1], qualified, stable)
  {
    TakeStep(order, k);
    if StepsGo(groups, providers, payloads, order, qualified, stable) {
      StepsGoPrefix(groups, providers, payloads, order, k + 1, qualified, stable);
    }
  }

  ghost predicate Listed(available: seq<string>, removed: seq<string>, payloads: Payloads, done: seq<string>, qualified: set<string>) {
    available == Surviving(payloads, done, qualified) && removed == Vanishing(payloads, done, qualified)
  }

  lemma ListedNext(available: seq<string>, removed: seq<string>, payloads: Payloads, order: seq<string>, k: nat, qualified: set<string>)
    requires k < |order| && Listed(available, removed, payloads, order[..k], qualified)
    ensures order[k] !in payloads ==> Listed(available, removed, payloads, order[..k + 1], qualified)
    ensures Vanishes(payloads, order[k], qualified) ==> Listed(available, removed + [order[k]], payloads, order[..k + 1], qualified)
    ensures Survives(payloads, order[k], qualified) ==> Listed(available + [order[k]], removed, payloads, order[..k + 1], qualified)
  {
    TakeStep(order, k);
  }

  method RewriteRegions(config: Config, payloads: Payloads, order: seq<string>, qualified: set<string>, stable: set<string>)
    returns (r: Result<Report>)
    requires forall x :: x in order ==> IsRegion(x)
    modifies config`groups, config`providers
    ensures r.Ok? <==> StepsGo(old(config.groups), old(config.providers), payloads, order, qualified, stable)
    ensures r.Ok? ==> config.groups == GroupsAfter(old(config.groups), payloads, order, qualified, stable)
    ensures r.Ok? ==> AllDone(config.groups, payloads, order, qualified, stable)
    ensures r.Ok? && BareTiers(old(config.groups)) ==> BareTiers(config.groups)
    ensures r.Ok? ==> config.providers == ProvidersAfter(old(config.providers), payloads, order, qualified)
    ensures r.Ok? ==> r.value.available == Surviving(payloads, order, qualified) && r.value.removed == Vanishing(payloads, order, qualified)
    ensures r.Ok? ==> Counted(r.value.regions, payloads, order, qualified, stable)
  {
    ghost var before, providers := config.groups, config.providers;
    var available: seq<string>, removed: seq<string> := [], [];
    var regions: map<string, Counts> := map[];
    assert order[..0] == [];
    for k := 0 to |order|
      invariant StepsGo(before, providers, payloads, order[..k], qualified, stable)
      invariant config.groups == GroupsAfter(before, payloads, order[..k], qualified, stable)
      invariant config.providers == ProvidersAfter(providers, payloads, order[..k], qualified)
      invariant Listed(available, removed, payloads, order[..k], qualified)
      invariant Counted(regions, payloads, order[..k], qualified, stable)
    {
      TakeStep(order, k);
      var region := order[k];
      StepNext(before, providers, payloads, order, k, qualified, stable);
      ListedNext(available, removed, payloads, order, k, qualified);
      if region in payloads {
        var counts := RewriteRegion(config, payloads[region], region, qualified, stable);
        if counts.Raised? { return Raised(counts.reason); }
        CountedStep(regions, payloads, order[..k], region, qualified, stable);
        regions := regions[region := counts.value];
        if QualifiedIn(payloads[region], qualified) == {} { removed := removed + [region]; } else { available := available + [region]; }
      }
    }
    assert order[..|order|] == order;
    GroupsAfterDone(before, providers, payloads, order, qualified, stable);
    return Ok(Report(available, removed, regions));
  }

  /** The groups of the rewritten candidate. */
  function FinalGroups(groups: seq<Group>, payloads: Payloads, order: seq<string>, qualified: set<string>, stable: set<string>): seq<Group> {
    RefreshedGroups(GroupsAfter(groups, payloads, order, qualified, stable), Surviving(payloads, order, qualified))
  }

  /** What a candidate has to pass. */
  ghost predicate Goes(groups: seq<Group>, providers: map<string, Provider>, ruleProviders: map<string, RuleProvider>, rules: seq<Rule>,
                 qualified: set<string>, stable: set<string>, texts: Texts) {
    var read := PayloadsOf(providers, Sorted(providers.Keys), texts.upper);
    && read.Ok? && read.value != map[]
    && var order := RuntimeRegions(groups, texts.fold);
       && StepsGo(groups, providers, read.value, order, qualified, stable)
       && Finishes(groups, providers, read.value, order, qualified, stable, texts)
       && Validated(texts.search, ProvidersAfter(providers, read.value, order, qualified), FinalGroups(groups, read.value, order, qualified, stable), ruleProviders, rules)
  }

  /** The routes can be refreshed, and the public surface is valid afterwards. */
  predicate Finishes(groups: seq<Group>, providers: map<string, Provider>, payloads: Payloads, order: seq<string>,
                     qualified: set<string>, stable: set<string>, texts: Texts) {
    && Refreshable(GroupsAfter(groups, payloads, order, qualified, stable), Surviving(payloads, order, qualified))
    && SurfaceValid(FinalGroups(groups, payloads, order, qualified, stable), ProvidersAfter(providers, payloads, order, qualified), texts)
  }

  predicate Refreshable(groups: seq<Group>, available: seq<string>) {
    FindLast(groups, AUTO).Some? && FindLast(groups, PUBLIC).Some? && available != []
  }

  method RewriteQualifiedCandidate(config: Config, qualified: set<string>, stable: set<string>, texts: Texts)
    returns (r: Result<Report>, ghost payloads: Payloads)
    requires KeepsRegions(texts.fold)
    modifies config`groups, config`providers
    ensures r.Ok? <==> Goes(old(config.groups), old(config.providers), config.ruleProviders, config.rules, qualified, stable, texts)
    ensures r.Ok? ==> config.groups == FinalGroups(old(config.groups), payloads, RuntimeRegions(old(config.groups), texts.fold), qualified, stable)
    ensures r.Ok? ==> Rewritten(config, old(config.groups), old(config.providers), payloads, r.value, qualified, stable, texts)
  {
    payloads := map[];
    var order := RuntimeRegions(config.groups, texts.fold);
    var read := RegionProviderPayloads(config.providers, texts.upper);
    if read.Raised? { return Raised(read.reason), payloads; }
    payloads := read.value;
    r := RewriteRegions(config, read.value, order, qualified, stable);
    if r.Raised? { return; }
    RefreshDone(config.groups, payloads, order, qualified, stable);
    ghost var groups := config.groups;
    var refreshed := RefreshRegionalRoutes(config, r.value.available);
    if refreshed.Raised? { return Raised(refreshed.reason), payloads; }
    RefreshedRegions(groups, r.value.available, texts.fold);
    if BareTiers(groups) { RefreshBare(groups, r.value.available); }
    if !SurfaceValid(config.groups, config.providers, texts) { return Raised("browsing public surface is invalid"), payloads; }
    var valid := ValidateGenerated(texts.search, config.providers, config.groups, config.ruleProviders, config.rules);
    if !valid { return Raised("generated configuration is invalid"), payloads; }
  }
}
