/** The qualified rewrite of the regional browsing runtime, its history step, and what both leave reachable. */
module BrowsingRewrite {
  import opened Ordering
  import opened Results
  import opened Routing
  import opened Sifting
  import opened Validator
  import opened BrowsingRegions
  import opened BrowsingTiers

  /** Python's `upper`, `strip` followed by `upper`, and `re.search` outside the modelled fragment. */
  datatype Texts = Texts(upper: string -> string, fold: string -> string, search: Search)

  // ----- reading the inventory -----

  datatype Inventory = Inventory(provider: string, payload: seq<Proxy>)

  type Payloads = map<string, Inventory>

  function PayloadsOf(providers: map<string, Provider>, names: seq<string>, upper: string -> string): Result<Payloads>
    requires forall n :: n in names ==> n in providers
  {
    if names == [] then Ok(map[])
    else
      var k := |names| - 1;
      var init := PayloadsOf(providers, names[..k], upper);
      var region := ProviderRegion(names[k], upper);
      if init.Raised? || region.None? then init
      else if providers[names[k]].payload.None? then Raised("browsing provider payload is invalid")
      else Ok(init.value[region.value := Inventory(names[k], providers[names[k]].payload.value)])
  }

  /** Every entry is a provider of that region with its payload. */
  ghost predicate Reads(providers: map<string, Provider>, payloads: Payloads, upper: string -> string) {
    forall r :: r in payloads ==> EntryReads(providers, r, payloads[r], upper)
  }

  ghost predicate EntryReads(providers: map<string, Provider>, region: string, e: Inventory, upper: string -> string) {
    IsRegion(region) && e.provider in providers && ProviderRegion(e.provider, upper) == Some(region)
    && providers[e.provider].payload == Some(e.payload)
  }

  lemma {:induction false} PayloadsRead(providers: map<string, Provider>, names: seq<string>, upper: string -> string)
    requires forall n :: n in names ==> n in providers
    ensures PayloadsOf(providers, names, upper).Ok? ==> Reads(providers, PayloadsOf(providers, names, upper).value, upper)
  {
    if names != [] { PayloadsRead(providers, names[..|names| - 1], upper); }
  }

  method RegionProviderPayloads(providers: map<string, Provider>, upper: string -> string) returns (r: Result<Payloads>)
    ensures r.Ok? <==> var all := PayloadsOf(providers, Sorted(providers.Keys), upper); all.Ok? && all.value != map[]
    ensures r.Ok? ==> PayloadsOf(providers, Sorted(providers.Keys), upper) == r
    ensures r.Ok? ==> Reads(providers, r.value, upper)
  {
    r := ReadInOrder(providers, Sorted(providers.Keys), upper);
    PayloadsRead(providers, Sorted(providers.Keys), upper);
    if r.Ok? && r.value == map[] { return Raised("candidate contains no browsing providers"); }
  }

  /** The loop over the provider names. */
  method ReadInOrder(providers: map<string, Provider>, names: seq<string>, upper: string -> string) returns (r: Result<Payloads>)
    requires forall n :: n in names ==> n in providers
    ensures r.Ok? <==> PayloadsOf(providers, names, upper).Ok?
    ensures r.Ok? ==> PayloadsOf(providers, names, upper) == r
  {
    var result: Payloads := map[];
    assert names[..0] == [];
    for k := 0 to |names|
      invariant PayloadsOf(providers, names[..k], upper) == Ok(result)
    {
      PayloadsNext(providers, names, k, upper);
      var region := ProviderRegion(names[k], upper);
      if region.Some? {
        if providers[names[k]].payload.None? { return Raised("browsing provider payload is invalid"); }
        result := result[region.value := Inventory(names[k], providers[names[k]].payload.value)];
      }
    }
    assert names[..|names|] == names;
    return Ok(result);
  }

  /** One more provider name. */
  lemma PayloadsNext(providers: map<string, Provider>, names: seq<string>, k: nat, upper: string -> string)
    requires k < |names| && (forall x :: x in names ==> x in providers) && PayloadsOf(providers, names[..k], upper).Ok?
    ensures var region, now := ProviderRegion(names[k], upper), PayloadsOf(providers, names[..k], upper).value;
            if region.None? then PayloadsOf(providers, names[..k + 1], upper) == Ok(now)
            else if providers[names[k]].payload.None? then PayloadsOf(providers, names, upper).Raised?
            else PayloadsOf(providers, names[..k + 1], upper) == Ok(now[region.value := Inventory(names[k], providers[names[k]].payload.value)])
  {
    TakeStep(names, k);
    if PayloadsOf(providers, names[..k + 1], upper).Raised? { PayloadsPrefix(providers, names, k + 1, upper); }
  }

  lemma {:induction false} PayloadsPrefix(providers: map<string, Provider>, names: seq<string>, n: nat, upper: string -> string)
    requires n <= |names| && (forall x :: x in names ==> x in providers) && PayloadsOf(providers, names[..n], upper).Raised?
    ensures PayloadsOf(providers, names, upper).Raised?
  {
    if n < |names| {
      assert names[..|names| - 1][..n] == names[..n];
      PayloadsPrefix(providers, names[..|names| - 1], n, upper);
    } else {
      assert names[..n] == names;
    }
  }

  /** The regions the automatic group lists, in its order. */
  function RegionsIn(refs: seq<string>, fold: string -> string): (r: seq<string>)
    ensures forall x :: x in r ==> IsRegion(x)
  {
    if refs == [] then []
    else
      LabelledIsGood();
      var region := RegionFromDisplay(refs[0], fold);
      (if region.Some? then (RegionFromDisplayIsRegion(refs[0], fold); [region.value]) else []) + RegionsIn(refs[1..], fold)
  }

  lemma RegionFromDisplayIsRegion(name: string, fold: string -> string)
    ensures RegionFromDisplay(name, fold).Some? ==> IsRegion(RegionFromDisplay(name, fold).value)
  {
    LabelledIsGood();
    if DISPLAY_PREFIX <= name { TableRegion(LABELLED, name[|DISPLAY_PREFIX|..]); }
  }

  lemma {:induction false} TableRegion(table: seq<(string, string)>, text: string)
    requires GoodTable(table)
    ensures RegionIn(table, text).Some? ==> IsRegion(RegionIn(table, text).value)
  {
    if table != [] && table[0].1 != text {
      TableRegion(table[1..], text);
    }
  }

  function RuntimeRegions(groups: seq<Group>, fold: string -> string): (r: seq<string>)
    ensures forall x :: x in r ==> IsRegion(x)
  {
    if FindLast(groups, AUTO).None? then [] else RegionsIn(FindLast(groups, AUTO).value.proxies, fold)
  }

  function Displays(regions: seq<string>): seq<string> {
    seq(|regions|, i requires 0 <= i < |regions| => Display(regions[i]))
  }

  /** A list of display names reads back as its regions. */
  lemma {:induction false} RegionsReadBack(regions: seq<string>, fold: string -> string)
    requires KeepsRegions(fold) && forall r :: r in regions ==> IsRegion(r)
    ensures RegionsIn(Displays(regions), fold) == regions
  {
    if regions != [] {
      assert Displays(regions)[1..] == Displays(regions[1..]);
      DisplayRoundTrip(regions[0], fold);
      RegionsReadBack(regions[1..], fold);
    }
  }

  // ----- one region of the rewrite -----

  function Names(payload: seq<Proxy>): set<string> { set p | p in payload :: p.name }

  lemma KeptNames(payload: seq<Proxy>, qualified: set<string>)
    ensures Names(KeptProxies(payload, qualified)) == Names(payload) * qualified
    ensures KeptProxies(payload, qualified) == [] <==> Names(payload) * qualified == {}
  {
    var kept := KeptProxies(payload, qualified);
    forall x | x in Names(payload) * qualified ensures x in Names(kept) {
      var p :| p in payload && p.name == x;
      assert p in kept;
    }
    if kept != [] {
      assert kept[0] in kept;
      assert kept[0].name in Names(payload) * qualified;
    }
  }

  function QualifiedIn(e: Inventory, qualified: set<string>): set<string> { Names(e.payload) * qualified }

  predicate Survives(payloads: Payloads, region: string, qualified: set<string>) {
    region in payloads && QualifiedIn(payloads[region], qualified) != {}
  }

  predicate Vanishes(payloads: Payloads, region: string, qualified: set<string>) {
    region in payloads && QualifiedIn(payloads[region], qualified) == {}
  }

  /** The regions that keep a node, in their old order. */
  function Surviving(payloads: Payloads, order: seq<string>, qualified: set<string>): (r: seq<string>)
    ensures forall x :: x in r <==> x in order && Survives(payloads, x, qualified)
  {
    if order == [] then []
    else
      var k := |order| - 1;
      assert order == order[..k] + [order[k]];
      Surviving(payloads, order[..k], qualified) + if Survives(payloads, order[k], qualified) then [order[k]] else []
  }

  /** The regions that lose all their nodes, in their old order. */
  function Vanishing(payloads: Payloads, order: seq<string>, qualified: set<string>): (r: seq<string>)
    ensures forall x :: x in r <==> x in order && Vanishes(payloads, x, qualified)
  {
    if order == [] then []
    else
      var k := |order| - 1;
      assert order == order[..k] + [order[k]];
      Vanishing(payloads, order[..k], qualified) + if Vanishes(payloads, order[k], qualified) then [order[k]] else []
  }

  /** Both lists keep the old order. */
  lemma {:induction false} ListsInOrder(payloads: Payloads, order: seq<string>, qualified: set<string>)
    ensures Sifted(order, (x: string) => Survives(payloads, x, qualified), Surviving(payloads, order, qualified))
    ensures Sifted(order, (x: string) => Vanishes(payloads, x, qualified), Vanishing(payloads, order, qualified))
  {
    var survives, vanishes := (x: string) => Survives(payloads, x, qualified), (x: string) => Vanishes(payloads, x, qualified);
    if order == [] {
      SiftedEmpty(survives);
      SiftedEmpty(vanishes);
    } else {
      var k := |order| - 1;
      assert order == order[..k] + [order[k]];
      ListsInOrder(payloads, order[..k], qualified);
      SiftedSnoc(order[..k], order[k], survives, Surviving(payloads, order[..k], qualified));
      SiftedSnoc(order[..k], order[k], vanishes, Vanishing(payloads, order[..k], qualified));
    }
  }

  datatype Counts = Counts(tested: nat, qualified: nat, stable: nat, reserve: nat, stableAuto: nat, reserveAuto: nat)

  function CountsFor(e: Inventory, qualified: set<string>, stable: set<string>): Counts {
    var q := QualifiedIn(e, qualified);
    if q == {} then Counts(|e.payload|, 0, 0, 0, 0, 0)
    else Counts(|e.payload|, |q|, |stable * q|, |q - stable * q|, |SplitTiers(q, stable).stable|, |SplitTiers(q, stable).reserve|)
  }

  /** Providers of one region: gone without a qualified node, else with the qualified nodes only. */
  function ProvidersStep(providers: map<string, Provider>, e: Inventory, qualified: set<string>): map<string, Provider> {
    if QualifiedIn(e, qualified) == {} then providers - {e.provider}
    else if e.provider !in providers then providers
    else providers[e.provider := providers[e.provider].(payload := Some(KeptProxies(e.payload, qualified)))]
  }

  function ProvidersAfter(providers: map<string, Provider>, payloads: Payloads, order: seq<string>, qualified: set<string>): map<string, Provider> {
    if order == [] then providers
    else
      var k := |order| - 1;
      var init := ProvidersAfter(providers, payloads, order[..k], qualified);
      if order[k] !in payloads then init else ProvidersStep(init, payloads[order[k]], qualified)
  }

  /** The groups once a region is dealt with: removed without a qualified node, else split into tiers. */
  function GroupsStep(groups: seq<Group>, e: Inventory, region: string, qualified: set<string>, stable: set<string>): seq<Group> {
    var q := QualifiedIn(e, qualified);
    if q == {} then Removed(groups, RegionGroups(region))
    else
      SplitCovers(q, stable);
      TierEdits(groups, region, SplitTiers(q, stable))
  }

  function GroupsAfter(groups: seq<Group>, payloads: Payloads, order: seq<string>, qualified: set<string>, stable: set<string>): seq<Group> {
    if order == [] then groups
    else
      var k := |order| - 1;
      var init := GroupsAfter(groups, payloads, order[..k], qualified, stable);
      if order[k] !in payloads then init else GroupsStep(init, payloads[order[k]], order[k], qualified, stable)
  }

  /** A region can be removed when nothing else uses its provider, and tiered when its groups are there. */
  predicate StepGoes(groups: seq<Group>, providers: map<string, Provider>, e: Inventory, region: string, qualified: set<string>) {
    if QualifiedIn(e, qualified) == {} then !UsedBy(Removed(groups, RegionGroups(region)), e.provider)
    else e.provider in providers && HasTiers(groups, region)
  }

  predicate StepsGo(groups: seq<Group>, providers: map<string, Provider>, payloads: Payloads, order: seq<string>, qualified: set<string>, stable: set<string>) {
    order == []
    || var k := |order| - 1;
       StepsGo(groups, providers, payloads, order[..k], qualified, stable)
       && (order[k] in payloads ==> StepGoes(GroupsAfter(groups, payloads, order[..k], qualified, stable),
                                             ProvidersAfter(providers, payloads, order[..k], qualified), payloads[order[k]], order[k], qualified))
  }

  lemma {:induction false} StepsGoPrefix(groups: seq<Group>, providers: map<string, Provider>, payloads: Payloads, order: seq<string>, n: nat,
                                         qualified: set<string>, stable: set<string>)
    requires n <= |order| && StepsGo(groups, providers, payloads, order, qualified, stable)
    ensures StepsGo(groups, providers, payloads, order[..n], qualified, stable)
  {
    if n < |order| {
      StepsGoPrefix(groups, providers, payloads, order[..|order| - 1], n, qualified, stable);
      assert order[..|order| - 1][..n] == order[..n];
    } else {
      assert order[..n] == order;
    }
  }

  /** Where a region has got to: its tiers in place, or no trace of it. */
  ghost predicate RegionDone(groups: seq<Group>, payloads: Payloads, region: string, qualified: set<string>, stable: set<string>) {
    && (Survives(payloads, region, qualified) ==> Tiered(groups, region, SplitTiers(QualifiedIn(payloads[region], qualified), stable)))
    && (Vanishes(payloads, region, qualified) ==> Clear(groups, RegionGroups(region)))
  }

  ghost predicate AllDone(groups: seq<Group>, payloads: Payloads, order: seq<string>, qualified: set<string>, stable: set<string>) {
    forall r :: r in order ==> RegionDone(groups, payloads, r, qualified, stable)
  }

  lemma DoneAfterRemoval(groups: seq<Group>, payloads: Payloads, order: seq<string>, region: string, qualified: set<string>, stable: set<string>)
    requires AllDone(groups, payloads, order, qualified, stable) && (forall r :: r in order ==> IsRegion(r)) && IsRegion(region)
    requires Vanishes(payloads, region, qualified)
    ensures AllDone(Removed(groups, RegionGroups(region)), payloads, order + [region], qualified, stable)
  {
    RemovedIsClear(groups, RegionGroups(region));
    forall r | r in order + [region] ensures RegionDone(Removed(groups, RegionGroups(region)), payloads, r, qualified, stable) {
      if r != region {
        if Survives(payloads, r, qualified) {
          var t := SplitTiers(QualifiedIn(payloads[r], qualified), stable);
          TieredElsewhere(groups, r, t, region, t);
        }
        if Vanishes(payloads, r, qualified) { ClearStays(groups, RegionGroups(r), RegionGroups(region)); }
      }
    }
  }

  lemma DoneAfterTiers(groups: seq<Group>, payloads: Payloads, order: seq<string>, region: string, qualified: set<string>, stable: set<string>)
    requires AllDone(groups, payloads, order, qualified, stable) && (forall r :: r in order ==> IsRegion(r)) && IsRegion(region)
    requires Survives(payloads, region, qualified) && HasTiers(groups, region)
    requires var t := SplitTiers(QualifiedIn(payloads[region], qualified), stable); t.stable != {} && t.reserve != {}
    ensures AllDone(TierEdits(groups, region, SplitTiers(QualifiedIn(payloads[region], qualified), stable)), payloads, order + [region], qualified, stable)
  {
    var u := SplitTiers(QualifiedIn(payloads[region], qualified), stable);
    EditsTier(groups, region, u);
    forall r | r in order + [region] ensures RegionDone(TierEdits(groups, region, u), payloads, r, qualified, stable) {
      if r != region {
        if Survives(payloads, r, qualified) {
          TieredElsewhere(groups, r, SplitTiers(QualifiedIn(payloads[r], qualified), stable), region, u);
        }
        if Vanishes(payloads, r, qualified) { ClearTiered(groups, RegionGroups(r), region, u); }
      }
    }
  }

  /** What the steps of the pass leave: every region in its tiers or gone without a trace. */
  lemma {:induction false} GroupsAfterDone(groups: seq<Group>, providers: map<string, Provider>, payloads: Payloads, order: seq<string>,
                                           qualified: set<string>, stable: set<string>)
    requires StepsGo(groups, providers, payloads, order, qualified, stable) && forall r :: r in order ==> IsRegion(r)
    ensures AllDone(GroupsAfter(groups, payloads, order, qualified, stable), payloads, order, qualified, stable)
    ensures BareTiers(groups) ==> BareTiers(GroupsAfter(groups, payloads, order, qualified, stable))
  {
    if order != [] {
      var k := |order| - 1;
      var region := order[k];
      var now := GroupsAfter(groups, payloads, order[..k], qualified, stable);
      assert order == order[..k] + [region] && region in order && forall x :: x in order[..k] ==> x in order;
      GroupsAfterDone(groups, providers, payloads, order[..k], qualified, stable);
      if region in payloads {
        var q := QualifiedIn(payloads[region], qualified);
        if q == {} {
          DoneAfterRemoval(now, payloads, order[..k], region, qualified, stable);
          if BareTiers(groups) { BareRemoved(now, RegionGroups(region)); }
        } else {
          SplitCovers(q, stable);
          DoneAfterTiers(now, payloads, order[..k], region, qualified, stable);
          if BareTiers(groups) { BareTierEdits(now, region, SplitTiers(q, stable)); }
        }
      }
    }
  }

  method RewriteRegion(config: Config, e: Inventory, region: string, qualified: set<string>, stable: set<string>) returns (r: Result<Counts>)
    modifies config`groups, config`providers
    ensures r.Ok? <==> StepGoes(old(config.groups), old(config.providers), e, region, qualified)
    ensures r.Ok? ==> config.groups == GroupsStep(old(config.groups), e, region, qualified, stable)
    ensures r.Ok? ==> config.providers == ProvidersStep(old(config.providers), e, qualified)
    ensures r.Ok? ==> r.value == CountsFor(e, qualified, stable)
  {
    var kept := KeptProxies(e.payload, qualified);
    KeptNames(e.payload, qualified);
    if kept == [] {
      config.providers := config.providers - {e.provider};
      var removed := RemoveRegionRuntime(config, region, e.provider);
      if removed.Raised? { return Raised(removed.reason); }
      return Ok(Counts(|e.payload|, 0, 0, 0, 0, 0));
    }
    r := KeepRegion(config, e, kept, region, stable);
  }

  /** A region that keeps nodes: its payload is cut down and its tiers are written. */
  method KeepRegion(config: Config, e: Inventory, kept: seq<Proxy>, region: string, stable: set<string>) returns (r: Result<Counts>)
    requires Names(kept) != {}
    modifies config`groups, config`providers
    ensures r.Ok? <==> e.provider in old(config.providers) && HasTiers(old(config.groups), region)
    ensures SplitTiers(Names(kept), stable).stable != {} && SplitTiers(Names(kept), stable).reserve != {}
    ensures r.Ok? ==> config.groups == TierEdits(old(config.groups), region, SplitTiers(Names(kept), stable))
    ensures r.Ok? ==> config.providers == old(config.providers)[e.provider := old(config.providers)[e.provider].(payload := Some(kept))]
    ensures r.Ok? ==>
              var q, t := Names(kept), SplitTiers(Names(kept), stable);
              r.value == Counts(|e.payload|, |q|, |stable * q|, |q - stable * q|, |t.stable|, |t.reserve|)
  {
    SplitCovers(Names(kept), stable);
    if e.provider !in config.providers { return Raised("KeyError"); }
    config.providers := config.providers[e.provider := config.providers[e.provider].(payload := Some(kept))];
    r := RewriteTiers(config, region, Names(kept), stable, |e.payload|);
  }

  /** Splits the qualified nodes of one region and writes both filters. */
  method RewriteTiers(config: Config, region: string, q: set<string>, stable: set<string>, tested: nat) returns (r: Result<Counts>)
    requires q != {}
    modifies config`groups
    ensures r.Ok? <==> HasTiers(old(config.groups), region)
    ensures SplitTiers(q, stable).stable != {} && SplitTiers(q, stable).reserve != {}
    ensures r.Ok? ==> config.groups == TierEdits(old(config.groups), region, SplitTiers(q, stable))
    ensures r.Ok? ==> r.value == Counts(tested, |q|, |stable * q|, |q - stable * q|, |SplitTiers(q, stable).stable|, |SplitTiers(q, stable).reserve|)
  {
    var stableRegion := stable * q;
    var effective := if stableRegion != {} then stableRegion else q;
    var reserve := q - effective;
    if reserve == {} { reserve := q; }
    var t := Tiers(effective, reserve);
    assert t == SplitTiers(q, stable);
    TiersCover(q, stable, {});
    var written := SetRegionTierFilters(config, region, t);
    if written.Raised? { return Raised(written.reason); }
    return Ok(Counts(tested, |q|, |stableRegion|, |q - stableRegion|, |effective|, |reserve|));
  }
}
