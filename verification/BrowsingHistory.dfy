/** The history step after the rewrite, the counts it reports, and what both steps leave reachable. */
module BrowsingHistory {
  import opened Ordering
  import opened Results
  import opened Routing
  import opened Validator
  import opened BrowsingRegions
  import opened BrowsingTiers
  import opened BrowsingRewrite
  import opened BrowsingSurface
  import opened BrowsingQualification

  // ----- what the rewrite leaves reachable -----

  /** The one provider a surviving region keeps holds exactly the region's qualified nodes. */
  lemma SurvivorHolds(providers: map<string, Provider>, payloads: Payloads, order: seq<string>, qualified: set<string>,
                      upper: string -> string, region: string, p: string)
    requires Reads(providers, payloads, upper) && region in order && Survives(payloads, region, qualified)
    requires ProvidersOf(ProvidersAfter(providers, payloads, order, qualified), region, upper) == {p}
    ensures p == payloads[region].provider && Holds(ProvidersAfter(providers, payloads, order, qualified), region, upper, QualifiedIn(payloads[region], qualified))
  {
    var after := ProvidersAfter(providers, payloads, order, qualified);
    ProviderAfter(providers, payloads, order, qualified, upper, region);
    assert EntryReads(providers, region, payloads[region], upper);
    assert payloads[region].provider in ProvidersOf(after, region, upper);
    KeptNames(payloads[region].payload, qualified);
    assert PayloadNames(after[p]) == Names(KeptProxies(payloads[region].payload, qualified));
  }

  lemma SoleProvider(groups: seq<Group>, providers: map<string, Provider>, region: string, upper: string -> string) returns (p: string)
    requires RegionShape(groups, providers, region, upper)
    ensures ProvidersOf(providers, region, upper) == {p}
  {
    p :| p in providers && ProvidersOf(providers, region, upper) == {p}
         && TierShape(groups, Stable(region), p) && TierShape(groups, Reserve(region), p);
  }

  /** Every surviving region reaches exactly its qualified nodes, whatever tiers cover them. */
  lemma SurvivorLeaves(providers: map<string, Provider>, payloads: Payloads, order: seq<string>, groups: seq<Group>, qualified: set<string>,
                       texts: Texts, region: string, t: Tiers, leaf: Leaf)
    requires Reads(providers, payloads, texts.upper) && region in order && Survives(payloads, region, qualified)
    requires UniqueNames(groups) && BareTiers(groups)
    requires RegionShape(groups, ProvidersAfter(providers, payloads, order, qualified), region, texts.upper)
    requires Tiered(groups, region, t) && Covers(t, QualifiedIn(payloads[region], qualified))
    ensures IsLeaf(ProvidersAfter(providers, payloads, order, qualified), groups, Display(region), leaf)
            <==> leaf.Node? && leaf.name in QualifiedIn(payloads[region], qualified)
  {
    var after := ProvidersAfter(providers, payloads, order, qualified);
    var p := SoleProvider(groups, after, region, texts.upper);
    SurvivorHolds(providers, payloads, order, qualified, texts.upper, region, p);
    RegionLeaves(after, groups, region, texts.upper, t, QualifiedIn(payloads[region], qualified), leaf);
  }

  lemma AvailableLeaves(config: Config, before: seq<Group>, providers: map<string, Provider>, payloads: Payloads, report: Report,
                        qualified: set<string>, stable: set<string>, texts: Texts, region: string, leaf: Leaf)
    requires Rewritten(config, before, providers, payloads, report, qualified, stable, texts) && BareTiers(before)
    requires FindLast(config.groups, PUBLIC).Some? && region in report.available
    ensures region in payloads
    ensures IsLeaf(config.providers, config.groups, Display(region), leaf) <==> leaf.Node? && leaf.name in QualifiedIn(payloads[region], qualified)
  {
    var order := RuntimeRegions(before, texts.fold);
    assert RegionDone(config.groups, payloads, region, qualified, stable);
    assert RegionShape(config.groups, config.providers, region, texts.upper);
    SplitCovers(QualifiedIn(payloads[region], qualified), stable);
    SurvivorLeaves(providers, payloads, order, config.groups, qualified, texts, region, SplitTiers(QualifiedIn(payloads[region], qualified), stable), leaf);
  }

  /** A group that lists regions and nothing else reaches what they reach. */
  lemma ListedLeaves(providers: map<string, Provider>, groups: seq<Group>, name: string, regions: seq<string>, leaf: Leaf)
    requires name !in BUILTINS && Find(groups, name).Some?
    requires Find(groups, name).value.uses == [] && Find(groups, name).value.proxies == Displays(regions)
    ensures IsLeaf(providers, groups, name, leaf) <==> exists r :: r in regions && IsLeaf(providers, groups, Display(r), leaf)
  {
    LeafStep(providers, groups, name, leaf);
    ShownRegions(regions);
    if r :| r in regions && IsLeaf(providers, groups, Display(r), leaf) { assert Display(r) in Displays(regions); }
  }

  /** A node reachable from the automatic group is a qualified node of a surviving region, and every such node is reachable. */
  lemma AutomaticLeaves(config: Config, before: seq<Group>, providers: map<string, Provider>, payloads: Payloads, report: Report,
                        qualified: set<string>, stable: set<string>, texts: Texts, leaf: Leaf)
    requires Rewritten(config, before, providers, payloads, report, qualified, stable, texts) && BareTiers(before)
    requires FindLast(config.groups, PUBLIC).Some?
    ensures IsLeaf(config.providers, config.groups, AUTO, leaf)
            <==> leaf.Node? && exists r :: r in report.available && r in payloads && leaf.name in QualifiedIn(payloads[r], qualified)
  {
    AutomaticLists(config.groups, config.providers, report.available, texts);
    ListedLeaves(config.providers, config.groups, AUTO, report.available, leaf);
    forall r | r in report.available
      ensures r in payloads && (IsLeaf(config.providers, config.groups, Display(r), leaf) <==> leaf.Node? && leaf.name in QualifiedIn(payloads[r], qualified))
    {
      AvailableLeaves(config, before, providers, payloads, report, qualified, stable, texts, r, leaf);
    }
  }

  lemma AutomaticLists(groups: seq<Group>, providers: map<string, Provider>, regions: seq<string>, texts: Texts)
    requires UniqueNames(groups) && SurfaceValid(groups, providers, texts) && FindLast(groups, PUBLIC).Some?
    requires RuntimeRegions(groups, texts.fold) == regions
    ensures AUTO !in BUILTINS && Find(groups, AUTO).Some?
    ensures Find(groups, AUTO).value.uses == [] && Find(groups, AUTO).value.proxies == Displays(regions)
  {
    InternalNames("");
    FindEither(groups, AUTO);
  }

  lemma ShownRegions(regions: seq<string>)
    ensures forall m :: m in Displays(regions) <==> exists r :: r in regions && m == Display(r)
  {
    forall r | r in regions ensures Display(r) in Displays(regions) {
      var i :| 0 <= i < |regions| && regions[i] == r;
      assert Displays(regions)[i] == Display(r);
    }
    forall m | m in Displays(regions) ensures exists r :: r in regions && m == Display(r) {
      var i :| 0 <= i < |regions| && Displays(regions)[i] == m;
      assert regions[i] in regions;
    }
  }

  // ----- the history step -----

  /** Enough preferred stable nodes: the tiers are rewritten; otherwise they stay. */
  ghost predicate HistoryDone(groups: seq<Group>, before: seq<Group>, payloads: Payloads, region: string,
                              qualified: set<string>, stable: set<string>, preferred: set<string>)
    requires region in payloads
  {
    var q := QualifiedIn(payloads[region], qualified);
    if |Preferred(q, stable, preferred)| >= MIN_PREFERRED then Tiered(groups, region, HistoryTiers(q, stable, preferred))
    else FindLast(groups, Stable(region)) == FindLast(before, Stable(region)) && FindLast(groups, Reserve(region)) == FindLast(before, Reserve(region))
  }

  ghost predicate HistoryAll(groups: seq<Group>, before: seq<Group>, payloads: Payloads, order: seq<string>, todo: seq<string>,
                             qualified: set<string>, stable: set<string>, preferred: set<string>)
  {
    && (forall r :: r in order && r in payloads ==> HistoryDone(groups, before, payloads, r, qualified, stable, preferred))
    && (forall r :: r in todo && r !in order ==>
          FindLast(groups, Stable(r)) == FindLast(before, Stable(r)) && FindLast(groups, Reserve(r)) == FindLast(before, Reserve(r)))
    && (BareTiers(before) ==> BareTiers(groups))
  }

  lemma HistoryStep(groups: seq<Group>, before: seq<Group>, payloads: Payloads, order: seq<string>, todo: seq<string>, region: string,
                    qualified: set<string>, stable: set<string>, preferred: set<string>)
    requires HistoryAll(groups, before, payloads, order, todo, qualified, stable, preferred)
    requires region in payloads && IsRegion(region) && (forall r :: r in order ==> IsRegion(r)) && forall r :: r in todo ==> IsRegion(r)
    requires var q := QualifiedIn(payloads[region], qualified); |Preferred(q, stable, preferred)| >= MIN_PREFERRED && HasTiers(groups, region)
    requires var t := HistoryTiers(QualifiedIn(payloads[region], qualified), stable, preferred); t.stable != {} && t.reserve != {}
    ensures HistoryAll(TierEdits(groups, region, HistoryTiers(QualifiedIn(payloads[region], qualified), stable, preferred)), before, payloads,
                       order + [region], todo, qualified, stable, preferred)
  {
    var t := HistoryTiers(QualifiedIn(payloads[region], qualified), stable, preferred);
    var after := TierEdits(groups, region, t);
    EditsTier(groups, region, t);
    forall r | r in order + [region] && r in payloads ensures HistoryDone(after, before, payloads, r, qualified, stable, preferred) {
      if r != region {
        TiersUntouched(groups, region, t, r);
        assert HistoryDone(groups, before, payloads, r, qualified, stable, preferred);
      }
    }
    forall r | r in todo && r !in order + [region]
      ensures FindLast(after, Stable(r)) == FindLast(before, Stable(r)) && FindLast(after, Reserve(r)) == FindLast(before, Reserve(r))
    {
      TiersUntouched(groups, region, t, r);
    }
    if BareTiers(groups) { BareTierEdits(groups, region, t); }
  }

  /** A region without enough preferred nodes keeps the tiers it had. */
  lemma NotTouched(groups: seq<Group>, before: seq<Group>, payloads: Payloads, order: seq<string>, todo: seq<string>, region: string,
                   qualified: set<string>, stable: set<string>, preferred: set<string>)
    requires HistoryAll(groups, before, payloads, order, todo, qualified, stable, preferred) && region in todo
    requires region in payloads ==> |Preferred(QualifiedIn(payloads[region], qualified), stable, preferred)| < MIN_PREFERRED
    ensures HistoryAll(groups, before, payloads, order + [region], todo, qualified, stable, preferred)
  {
    forall r | r in order + [region] && r in payloads ensures HistoryDone(groups, before, payloads, r, qualified, stable, preferred) {
      if r in order { assert HistoryDone(groups, before, payloads, r, qualified, stable, preferred); }
    }
  }

  lemma TiersUntouched(groups: seq<Group>, region: string, t: Tiers, r: string)
    requires IsRegion(r) && IsRegion(region) && r != region && t.stable != {} && t.reserve != {}
    ensures FindLast(TierEdits(groups, region, t), Stable(r)) == FindLast(groups, Stable(r))
    ensures FindLast(TierEdits(groups, region, t), Reserve(r)) == FindLast(groups, Reserve(r))
  {
    OtherTierNames(r, region);
    EditsElsewhere(groups, region, t, Stable(r));
    EditsElsewhere(groups, region, t, Reserve(r));
  }

  lemma OtherTierNames(r: string, region: string)
    requires IsRegion(r) && IsRegion(region) && r != region
    ensures Stable(r) != Stable(region) && Stable(r) != Reserve(region) && Reserve(r) != Stable(region) && Reserve(r) != Reserve(region)
  {
    SameKind(r, region);
    StableNotReserve(r, region);
    StableNotReserve(region, r);
  }

  // ----- the groups after the step -----

  predicate Enough(e: Inventory, qualified: set<string>, stable: set<string>, preferred: set<string>) {
    |Preferred(QualifiedIn(e, qualified), stable, preferred)| >= MIN_PREFERRED
  }

  function HistoryRegion(groups: seq<Group>, e: Inventory, region: string, qualified: set<string>, stable: set<string>, preferred: set<string>): seq<Group> {
    if !Enough(e, qualified, stable, preferred) then groups
    else
      var q := QualifiedIn(e, qualified);
      SomePreferred(q, stable, preferred);
      TiersCover(q, stable, preferred);
      TierEdits(groups, region, HistoryTiers(q, stable, preferred))
  }

  lemma SomePreferred(q: set<string>, stable: set<string>, preferred: set<string>)
    requires |Preferred(q, stable, preferred)| >= MIN_PREFERRED
    ensures q != {}
  {
    var p :| p in Preferred(q, stable, preferred);
  }

  function HistoryGroups(groups: seq<Group>, payloads: Payloads, order: seq<string>, qualified: set<string>, stable: set<string>, preferred: set<string>): seq<Group> {
    if order == [] then groups
    else
      var k := |order| - 1;
      var init := HistoryGroups(groups, payloads, order[..k], qualified, stable, preferred);
      if order[k] !in payloads then init else HistoryRegion(init, payloads[order[k]], order[k], qualified, stable, preferred)
  }

  /** The regions whose tiers are rewritten. */
  function Preferring(payloads: Payloads, order: seq<string>, qualified: set<string>, stable: set<string>, preferred: set<string>): (r: seq<string>)
    ensures forall x :: x in r <==> x in order && x in payloads && Enough(payloads[x], qualified, stable, preferred)
  {
    if order == [] then []
    else
      var k := |order| - 1;
      assert order == order[..k] + [order[k]];
      Preferring(payloads, order[..k], qualified, stable, preferred)
      + if order[k] in payloads && Enough(payloads[order[k]], qualified, stable, preferred) then [order[k]] else []
  }

  /** Every region to rewrite has its tier groups. */
  predicate AllTiered(groups: seq<Group>, regions: seq<string>) { forall r :: r in regions ==> HasTiers(groups, r) }

  lemma EditKeepsNames(groups: seq<Group>, name: string, f: Group -> Group, n: string)
    requires forall g :: f(g).name == g.name
    ensures FindLast(Edit(groups, name, f), n).Some? <==> FindLast(groups, n).Some?
  {
    FindEdited(groups, name, f, n);
  }

  lemma TiersKeepNames(groups: seq<Group>, region: string, t: Tiers, n: string)
    requires t.stable != {} && t.reserve != {}
    ensures FindLast(TierEdits(groups, region, t), n).Some? <==> FindLast(groups, n).Some?
  {
    var f, g := Filtered(ExactFilter.Text(t.stable).value), Filtered(ExactFilter.Text(t.reserve).value);
    EditKeepsNames(groups, Stable(region), f, n);
    EditKeepsNames(Edit(groups, Stable(region), f), Reserve(region), g, n);
  }

  lemma {:induction false} HistoryKeepsNames(groups: seq<Group>, payloads: Payloads, order: seq<string>, qualified: set<string>, stable: set<string>,
                                             preferred: set<string>, n: string)
    ensures FindLast(HistoryGroups(groups, payloads, order, qualified, stable, preferred), n).Some? <==> FindLast(groups, n).Some?
  {
    if order != [] {
      var k := |order| - 1;
      HistoryKeepsNames(groups, payloads, order[..k], qualified, stable, preferred, n);
      if order[k] in payloads && Enough(payloads[order[k]], qualified, stable, preferred) {
        var q := QualifiedIn(payloads[order[k]], qualified);
        SomePreferred(q, stable, preferred);
        TiersCover(q, stable, preferred);
        TiersKeepNames(HistoryGroups(groups, payloads, order[..k], qualified, stable, preferred), order[k], HistoryTiers(q, stable, preferred), n);
      }
    }
  }

  lemma HistoryTiered(groups: seq<Group>, payloads: Payloads, order: seq<string>, qualified: set<string>, stable: set<string>, preferred: set<string>, region: string)
    ensures HasTiers(HistoryGroups(groups, payloads, order, qualified, stable, preferred), region) <==> HasTiers(groups, region)
  {
    HistoryKeepsNames(groups, payloads, order, qualified, stable, preferred, Stable(region));
    HistoryKeepsNames(groups, payloads, order, qualified, stable, preferred, Reserve(region));
  }

  lemma {:induction false} HistoryIsDone(groups: seq<Group>, payloads: Payloads, order: seq<string>, todo: seq<string>,
                                         qualified: set<string>, stable: set<string>, preferred: set<string>)
    requires (forall r :: r in order ==> r in todo) && forall r :: r in todo ==> IsRegion(r)
    requires AllTiered(groups, Preferring(payloads, order, qualified, stable, preferred))
    ensures HistoryAll(HistoryGroups(groups, payloads, order, qualified, stable, preferred), groups, payloads, order, todo, qualified, stable, preferred)
  {
    if order != [] {
      var k := |order| - 1;
      var init, region := order[..k], order[k];
      assert order == init + [region];
      HistoryIsDone(groups, payloads, init, todo, qualified, stable, preferred);
      HistoryTiered(groups, payloads, init, qualified, stable, preferred, region);
      assert region in payloads && Enough(payloads[region], qualified, stable, preferred) ==> region in Preferring(payloads, order, qualified, stable, preferred);
      OneMoreDone(HistoryGroups(groups, payloads, init, qualified, stable, preferred), groups, payloads, init, todo, region, qualified, stable, preferred);
    }
  }

  lemma OneMoreDone(now: seq<Group>, groups: seq<Group>, payloads: Payloads, init: seq<string>, todo: seq<string>, region: string,
                    qualified: set<string>, stable: set<string>, preferred: set<string>)
    requires HistoryAll(now, groups, payloads, init, todo, qualified, stable, preferred)
    requires region in todo && (forall r :: r in init ==> r in todo) && forall r :: r in todo ==> IsRegion(r)
    requires region in payloads && Enough(payloads[region], qualified, stable, preferred) ==> HasTiers(now, region)
    ensures HistoryAll(if region in payloads then HistoryRegion(now, payloads[region], region, qualified, stable, preferred) else now,
                       groups, payloads, init + [region], todo, qualified, stable, preferred)
  {
    if region in payloads && Enough(payloads[region], qualified, stable, preferred) {
      var q := QualifiedIn(payloads[region], qualified);
      SomePreferred(q, stable, preferred);
      TiersCover(q, stable, preferred);
      HistoryStep(now, groups, payloads, init, todo, region, qualified, stable, preferred);
    } else {
      NotTouched(now, groups, payloads, init, todo, region, qualified, stable, preferred);
    }
  }

  // ----- what the step leaves alone -----

  /** Only filters of tiers are written, each group staying where it is. */
  ghost predicate Refiltered(before: seq<Group>, after: seq<Group>, regions: seq<string>) {
    && |after| == |before|
    && forall i :: 0 <= i < |before| ==> OnlyTier(before[i], after[i], regions)
  }

  ghost predicate OnlyTier(g: Group, h: Group, regions: seq<string>) {
    h == g.(filter := h.filter) && (h.filter != g.filter ==> exists r :: r in regions && (g.name == Stable(r) || g.name == Reserve(r)))
  }

  lemma TierEditsOnly(before: seq<Group>, now: seq<Group>, regions: seq<string>, region: string, t: Tiers)
    requires Refiltered(before, now, regions) && t.stable != {} && t.reserve != {}
    ensures Refiltered(before, TierEdits(now, region, t), regions + [region])
  {
    var f, g := Filtered(ExactFilter.Text(t.stable).value), Filtered(ExactFilter.Text(t.reserve).value);
    FilterOnly(before, now, regions, region, ExactFilter.Text(t.stable).value, Stable(region));
    FilterOnly(before, Edit(now, Stable(region), f), regions + [region], region, ExactFilter.Text(t.reserve).value, Reserve(region));
    SameRegions(before, Edit(Edit(now, Stable(region), f), Reserve(region), g), regions + [region] + [region], regions + [region]);
  }

  lemma SameRegions(before: seq<Group>, after: seq<Group>, regions: seq<string>, same: seq<string>)
    requires Refiltered(before, after, regions) && forall r :: r in regions ==> r in same
    ensures Refiltered(before, after, same)
  {
    forall i | 0 <= i < |before| ensures OnlyTier(before[i], after[i], same) { assert OnlyTier(before[i], after[i], regions); }
  }

  lemma FilterOnly(before: seq<Group>, now: seq<Group>, regions: seq<string>, region: string, text: string, name: string)
    requires Refiltered(before, now, regions) && (name == Stable(region) || name == Reserve(region))
    ensures Refiltered(before, Edit(now, name, Filtered(text)), regions + [region])
  {
    EditExactly(now, name, Filtered(text));
    var after := Edit(now, name, Filtered(text));
    forall i | 0 <= i < |before| ensures OnlyTier(before[i], after[i], regions + [region]) {
      assert OnlyTier(before[i], now[i], regions);
      assert after[i] == now[i] || (now[i].name == name && after[i] == now[i].(filter := Some(text)));
      assert region in regions + [region];
    }
  }

  /** Besides the filters in the tiers of the regions it rewrites, the step leaves every group as it was. */
  lemma {:induction false} HistoryLeavesRest(groups: seq<Group>, payloads: Payloads, order: seq<string>, qualified: set<string>, stable: set<string>,
                                             preferred: set<string>)
    ensures Refiltered(groups, HistoryGroups(groups, payloads, order, qualified, stable, preferred), Preferring(payloads, order, qualified, stable, preferred))
  {
    if order != [] {
      var k := |order| - 1;
      HistoryLeavesRest(groups, payloads, order[..k], qualified, stable, preferred);
      if order[k] in payloads && Enough(payloads[order[k]], qualified, stable, preferred) {
        var q := QualifiedIn(payloads[order[k]], qualified);
        SomePreferred(q, stable, preferred);
        TiersCover(q, stable, preferred);
        TierEditsOnly(groups, HistoryGroups(groups, payloads, order[..k], qualified, stable, preferred),
                      Preferring(payloads, order[..k], qualified, stable, preferred), order[k], HistoryTiers(q, stable, preferred));
      }
    }
  }

  /** What the step has to pass: tier groups for every region it rewrites, and both checks once it rewrites any. */
  ghost predicate Prefers(groups: seq<Group>, providers: map<string, Provider>, ruleProviders: map<string, RuleProvider>, rules: seq<Rule>,
                          qualified: set<string>, stable: set<string>, preferred: set<string>, texts: Texts) {
    var read, order := PayloadsOf(providers, Sorted(providers.Keys), texts.upper), RuntimeRegions(groups, texts.fold);
    && read.Ok? && read.value != map[]
    && var regions, after := Preferring(read.value, order, qualified, stable, preferred), HistoryGroups(groups, read.value, order, qualified, stable, preferred);
       && AllTiered(groups, regions)
       && (regions != [] ==> SurfaceValid(after, providers, texts) && Validated(texts.search, providers, after, ruleProviders, rules))
  }

  method ApplyHistoryPreference(config: Config, preferred: set<string>, stable: set<string>, qualified: set<string>, texts: Texts)
    returns (r: Result<nat>, ghost payloads: Payloads)
    modifies config`groups
    ensures r.Ok? <==> Prefers(old(config.groups), config.providers, config.ruleProviders, config.rules, qualified, stable, preferred, texts)
    ensures r.Ok? ==> PayloadsOf(config.providers, Sorted(config.providers.Keys), texts.upper) == Ok(payloads) && Reads(config.providers, payloads, texts.upper)
    ensures r.Ok? ==> var order := RuntimeRegions(old(config.groups), texts.fold);
                      && config.groups == HistoryGroups(old(config.groups), payloads, order, qualified, stable, preferred)
                      && HistoryAll(config.groups, old(config.groups), payloads, order, order, qualified, stable, preferred)
                      && r.value == 2 * |Preferring(payloads, order, qualified, stable, preferred)|
                      && Refiltered(old(config.groups), config.groups, Preferring(payloads, order, qualified, stable, preferred))
    ensures r.Ok? && r.value == 0 ==> config.groups == old(config.groups)
    ensures r.Ok? && r.value > 0 ==> SurfaceValid(config.groups, config.providers, texts)
                                     && Validated(texts.search, config.providers, config.groups, config.ruleProviders, config.rules)
  {
    payloads := map[];
    var read := RegionProviderPayloads(config.providers, texts.upper);
    if read.Raised? { return Raised(read.reason), payloads; }
    payloads := read.value;
    var order := RuntimeRegions(config.groups, texts.fold);
    var rewrites := PreferRegions(config, read.value, order, preferred, stable, qualified);
    if rewrites.Raised? { return Raised(rewrites.reason), payloads; }
    HistoryLeavesRest(old(config.groups), read.value, order, qualified, stable, preferred);
    if rewrites.value > 0 {
      if !SurfaceValid(config.groups, config.providers, texts) { return Raised("browsing public surface is invalid"), payloads; }
      var valid := ValidateGenerated(texts.search, config.providers, config.groups, config.ruleProviders, config.rules);
      if !valid { return Raised("generated configuration is invalid"), payloads; }
    }
    r := rewrites;
  }

  method PreferRegions(config: Config, payloads: Payloads, order: seq<string>, preferred: set<string>, stable: set<string>, qualified: set<string>)
    returns (r: Result<nat>)
    requires forall x :: x in order ==> IsRegion(x)
    modifies config`groups
    ensures r.Ok? <==> AllTiered(old(config.groups), Preferring(payloads, order, qualified, stable, preferred))
    ensures r.Ok? ==> config.groups == HistoryGroups(old(config.groups), payloads, order, qualified, stable, preferred)
    ensures r.Ok? ==> HistoryAll(config.groups, old(config.groups), payloads, order, order, qualified, stable, preferred)
    ensures r.Ok? ==> r.value == 2 * |Preferring(payloads, order, qualified, stable, preferred)|
    ensures r.Ok? && r.value == 0 ==> config.groups == old(config.groups)
  {
    ghost var before := config.groups;
    var rewrites := 0;
    assert order[..0] == [];
    for k := 0 to |order|
      invariant AllTiered(before, Preferring(payloads, order[..k], qualified, stable, preferred))
      invariant config.groups == HistoryGroups(before, payloads, order[..k], qualified, stable, preferred)
      invariant rewrites == 2 * |Preferring(payloads, order[..k], qualified, stable, preferred)|
      invariant rewrites == 0 ==> config.groups == before
    {
      TakeStep(order, k);
      var region := order[k];
      if region in payloads {
        HistoryTiered(before, payloads, order[..k], qualified, stable, preferred, region);
        var written := PreferRegion(config, payloads[region], region, preferred, stable, qualified);
        if written.Raised? {
          assert region in Preferring(payloads, order, qualified, stable, preferred);
          return Raised(written.reason);
        }
        rewrites := rewrites + written.value;
      }
    }
    assert order[..|order|] == order;
    HistoryIsDone(before, payloads, order, order, qualified, stable, preferred);
    return Ok(rewrites);
  }

  method PreferRegion(config: Config, e: Inventory, region: string, preferred: set<string>, stable: set<string>, qualified: set<string>) returns (r: Result<nat>)
    modifies config`groups
    ensures r.Ok? <==> (Enough(e, qualified, stable, preferred) ==> HasTiers(old(config.groups), region))
    ensures r.Ok? ==> config.groups == HistoryRegion(old(config.groups), e, region, qualified, stable, preferred)
    ensures r.Ok? ==> r.value == if Enough(e, qualified, stable, preferred) then 2 else 0
  {
    var q := Names(e.payload) * qualified;
    var effective := preferred * (stable * q);
    if |effective| < MIN_PREFERRED { return Ok(0); }
    var reserve := q - effective;
    if reserve == {} { reserve := q; }
    assert Tiers(effective, reserve) == HistoryTiers(q, stable, preferred);
    SomePreferred(q, stable, preferred);
    TiersCover(q, stable, preferred);
    r := SetRegionTierFilters(config, region, Tiers(effective, reserve));
  }

  // ----- the two steps together -----

  /** Reading the inventory finds every region that has a provider. */
  lemma {:induction false} PayloadsHave(providers: map<string, Provider>, names: seq<string>, upper: string -> string, n: string)
    requires (forall x :: x in names ==> x in providers) && n in names && ProviderRegion(n, upper).Some?
    requires PayloadsOf(providers, names, upper).Ok?
    ensures ProviderRegion(n, upper).value in PayloadsOf(providers, names, upper).value
  {
    var k := |names| - 1;
    assert names == names[..k] + [names[k]];
    if n != names[k] { PayloadsHave(providers, names[..k], upper, n); }
  }

  /** After the rewrite the inventory of a surviving region is exactly its qualified nodes. */
  lemma SurvivorPayload(providers: map<string, Provider>, payloads: Payloads, order: seq<string>, groups: seq<Group>, qualified: set<string>,
                        upper: string -> string, region: string, later: Payloads)
    requires Reads(providers, payloads, upper) && region in order && Survives(payloads, region, qualified)
    requires var after := ProvidersAfter(providers, payloads, order, qualified);
             && RegionShape(groups, after, region, upper)
             && PayloadsOf(after, Sorted(after.Keys), upper) == Ok(later) && Reads(after, later, upper)
    ensures region in later && Names(later[region].payload) == QualifiedIn(payloads[region], qualified)
    ensures QualifiedIn(later[region], qualified) == QualifiedIn(payloads[region], qualified)
  {
    var after := ProvidersAfter(providers, payloads, order, qualified);
    var p := SoleProvider(groups, after, region, upper);
    assert p in ProvidersOf(after, region, upper);
    SurvivorHolds(providers, payloads, order, qualified, upper, region, p);
    assert p in Sorted(after.Keys);
    PayloadsHave(after, Sorted(after.Keys), upper, p);
    assert EntryReads(after, region, later[region], upper);
    assert later[region].provider in ProvidersOf(after, region, upper);
  }

  /**
   After the rewrite and the history step, the tiers of a surviving region are those the history calls for. Their
   union is still exactly its qualified nodes, and the region still reaches exactly those.
   */
  lemma HistoryKeepsUnion(providers: map<string, Provider>, payloads: Payloads, order: seq<string>, groups: seq<Group>, later: Payloads, final: seq<Group>,
                          qualified: set<string>, stable: set<string>, preferred: set<string>, texts: Texts, region: string)
    requires Reads(providers, payloads, texts.upper) && region in order && Survives(payloads, region, qualified)
    requires region in RuntimeRegions(groups, texts.fold)
    requires var after := ProvidersAfter(providers, payloads, order, qualified);
             && RegionShape(groups, after, region, texts.upper)
             && PayloadsOf(after, Sorted(after.Keys), texts.upper) == Ok(later) && Reads(after, later, texts.upper)
    requires Tiered(groups, region, SplitTiers(QualifiedIn(payloads[region], qualified), stable))
    requires var listed := RuntimeRegions(groups, texts.fold); HistoryAll(final, groups, later, listed, listed, qualified, stable, preferred)
    ensures var q := QualifiedIn(payloads[region], qualified);
            Tiered(final, region, HistoryTiers(q, stable, preferred)) && Covers(HistoryTiers(q, stable, preferred), q)
  {
    var q := QualifiedIn(payloads[region], qualified);
    SurvivorPayload(providers, payloads, order, groups, qualified, texts.upper, region, later);
    TiersCover(q, stable, preferred);
    assert HistoryDone(final, groups, later, region, qualified, stable, preferred);
  }

  // ----- the reported counts -----

  /** `_apply_history_counts` for one region. */
  function HistoryCounts(c: Counts, q: set<string>, stable: set<string>, preferred: set<string>): Counts {
    var stableRegion := stable * q;
    var p := preferred * stableRegion;
    var effective := if |p| >= MIN_PREFERRED then p else if stableRegion != {} then stableRegion else q;
    var reserve := q - effective;
    c.(stableAuto := |effective|, reserveAuto := if q != {} && reserve == {} then |q| else |reserve|)
  }

  ghost function Totals(regions: map<string, Counts>, names: seq<string>, size: Counts -> nat): nat {
    if names == [] then 0
    else
      var k := |names| - 1;
      Totals(regions, names[..k], size) + if names[k] in regions then size(regions[names[k]]) else 0
  }

  method CountRegion(c: Counts, q: set<string>, stable: set<string>, preferred: set<string>) returns (r: Counts)
    ensures r == HistoryCounts(c, q, stable, preferred)
  {
    var stableRegion := stable * q;
    var p := preferred * stableRegion;
    var effective := if |p| >= MIN_PREFERRED then p else if stableRegion != {} then stableRegion else q;
    var reserve := q - effective;
    if q != {} && reserve == {} { reserve := q; }
    r := c.(stableAuto := |effective|, reserveAuto := |reserve|);
  }

  function StableSize(c: Counts): nat { c.stableAuto }

  function ReserveSize(c: Counts): nat { c.reserveAuto }

  method ApplyHistoryCounts(regions: map<string, Counts>, inventory: map<string, set<string>>, qualified: set<string>, stable: set<string>, preferred: set<string>)
    returns (updated: map<string, Counts>, stableTotal: nat, reserveTotal: nat)
    ensures updated.Keys == regions.Keys
    ensures forall r :: r in regions ==>
              updated[r] == if r in inventory then HistoryCounts(regions[r], qualified * inventory[r], stable, preferred) else regions[r]
    ensures stableTotal == Totals(updated, Sorted(inventory.Keys), StableSize)
    ensures reserveTotal == Totals(updated, Sorted(inventory.Keys), ReserveSize)
  {
    updated, stableTotal, reserveTotal := CountRegions(regions, inventory, Sorted(inventory.Keys), qualified, stable, preferred);
  }

  method CountRegions(regions: map<string, Counts>, inventory: map<string, set<string>>, names: seq<string>,
                      qualified: set<string>, stable: set<string>, preferred: set<string>)
    returns (updated: map<string, Counts>, stableTotal: nat, reserveTotal: nat)
    requires NoDuplicates(names) && forall n :: n in names <==> n in inventory
    ensures Applied(regions, updated, inventory, names, qualified, stable, preferred)
    ensures stableTotal == Totals(updated, names, StableSize) && reserveTotal == Totals(updated, names, ReserveSize)
  {
    updated := regions;
    stableTotal, reserveTotal := 0, 0;
    for k := 0 to |names|
      invariant Applied(regions, updated, inventory, names[..k], qualified, stable, preferred)
      invariant stableTotal == Totals(updated, names[..k], StableSize) && reserveTotal == Totals(updated, names[..k], ReserveSize)
    {
      var region := names[k];
      TotalsStep(updated, names, k, StableSize);
      TotalsStep(updated, names, k, ReserveSize);
      if region in regions {
        var counts := CountRegion(updated[region], qualified * inventory[region], stable, preferred);
        AppliedStep(regions, updated, inventory, names, k, qualified, stable, preferred);
        updated := updated[region := counts];
        stableTotal, reserveTotal := stableTotal + counts.stableAuto, reserveTotal + counts.reserveAuto;
      } else {
        TakeStep(names, k);
      }
    }
    assert names[..|names|] == names;
  }

  lemma AppliedStep(regions: map<string, Counts>, updated: map<string, Counts>, inventory: map<string, set<string>>, names: seq<string>, k: nat,
                    qualified: set<string>, stable: set<string>, preferred: set<string>)
    requires k < |names| && NoDuplicates(names) && names[k] in inventory && names[k] in regions
    requires Applied(regions, updated, inventory, names[..k], qualified, stable, preferred)
    ensures updated[names[k]] == regions[names[k]]
    ensures Applied(regions, updated[names[k] := HistoryCounts(updated[names[k]], qualified * inventory[names[k]], stable, preferred)],
                    inventory, names[..k + 1], qualified, stable, preferred)
  {
    TakeStep(names, k);
    assert names[k] !in names[..k];
  }

  /** One more region counted, whether or not its counts have just been replaced. */
  lemma TotalsStep(regions: map<string, Counts>, names: seq<string>, k: nat, size: Counts -> nat)
    requires k < |names| && NoDuplicates(names)
    ensures names[k] !in regions ==> Totals(regions, names[..k + 1], size) == Totals(regions, names[..k], size)
    ensures forall c :: names[k] in regions ==> Totals(regions[names[k] := c], names[..k + 1], size) == Totals(regions, names[..k], size) + size(c)
  {
    TakeStep(names, k);
    assert names[k] !in names[..k];
    forall c | names[k] in regions ensures Totals(regions[names[k] := c], names[..k + 1], size) == Totals(regions, names[..k], size) + size(c) {
      TotalsElsewhere(regions, names[..k], names[k], c, size);
    }
  }

  ghost predicate Applied(regions: map<string, Counts>, updated: map<string, Counts>, inventory: map<string, set<string>>, done: seq<string>,
                          qualified: set<string>, stable: set<string>, preferred: set<string>) {
    && updated.Keys == regions.Keys
    && forall r :: r in regions ==>
         updated[r] == if r in done && r in inventory then HistoryCounts(regions[r], qualified * inventory[r], stable, preferred) else regions[r]
  }

  lemma {:induction false} TotalsElsewhere(regions: map<string, Counts>, names: seq<string>, region: string, counts: Counts, size: Counts -> nat)
    requires region !in names
    ensures Totals(regions[region := counts], names, size) == Totals(regions, names, size)
  {
    if names != [] { TotalsElsewhere(regions, names[..|names| - 1], region, counts, size); }
  }

  /** The counts reported for a region are the sizes of the sets its filters name. */
  lemma CountsMatchFilters(c: Counts, e: Inventory, qualified: set<string>, stable: set<string>, preferred: set<string>)
    ensures var q, counts := QualifiedIn(e, qualified), HistoryCounts(c, qualified * Names(e.payload), stable, preferred);
            && (q != {} ==> counts.stableAuto == |HistoryTiers(q, stable, preferred).stable| && counts.reserveAuto == |HistoryTiers(q, stable, preferred).reserve|)
            && (q == {} ==> counts.stableAuto == 0 && counts.reserveAuto == 0)
  {
    assert qualified * Names(e.payload) == QualifiedIn(e, qualified);
    var q := QualifiedIn(e, qualified);
    assert Preferred(q, stable, preferred) == preferred * (stable * q);
  }
}
