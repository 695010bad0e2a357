/** When the browsing rewrite goes through: the public surface and the validator hold before, and a region survives. */
module BrowsingReady {
  import opened Ordering
  import opened Results
  import opened Routing
  import opened BrowsingRegions
  import opened BrowsingTiers
  import opened BrowsingRewrite
  import opened BrowsingSurface
  import opened BrowsingQualification
  import ExactFilter

  // ----- a region group through the pass -----

  /** The three groups of a region over its provider. */
  predicate RegionGroupsShape(groups: seq<Group>, region: string, p: string) {
    var g := FindLast(groups, Display(region));
    && g.Some? && g.value.kind == "fallback" && g.value.hidden && g.value.proxies == [Stable(region), Reserve(region)] && g.value.uses == []
    && TierShape(groups, Stable(region), p) && TierShape(groups, Reserve(region), p)
  }

  lemma ShapeParts(groups: seq<Group>, providers: map<string, Provider>, region: string, upper: string -> string) returns (p: string)
    requires RegionShape(groups, providers, region, upper)
    ensures p in providers && ProvidersOf(providers, region, upper) == {p} && RegionGroupsShape(groups, region, p)
  {
    p :| p in providers && ProvidersOf(providers, region, upper) == {p}
         && TierShape(groups, Stable(region), p) && TierShape(groups, Reserve(region), p);
  }

  /** Removing one region leaves the groups of another as they are. */
  lemma ShapeRemoved(groups: seq<Group>, region: string, p: string, other: string)
    requires IsRegion(region) && IsRegion(other) && region != other && RegionGroupsShape(groups, region, p)
    ensures RegionGroupsShape(Removed(groups, RegionGroups(other)), region, p)
  {
    RegionGroupsApart(region, other);
    assert Display(region) in RegionGroups(region) && Stable(region) in RegionGroups(region) && Reserve(region) in RegionGroups(region);
    FindRemoved(groups, RegionGroups(other), Display(region));
    FindRemoved(groups, RegionGroups(other), Stable(region));
    FindRemoved(groups, RegionGroups(other), Reserve(region));
    KeepAll([Stable(region), Reserve(region)], RegionGroups(other));
  }

  /** Writing a filter changes nothing else of a group. */
  lemma FilterOnly(groups: seq<Group>, name: string, text: string, other: string)
    ensures var a, b := FindLast(groups, other), FindLast(Edit(groups, name, Filtered(text)), other);
            (a.None? <==> b.None?) && (a.Some? ==> b.value == a.value.(filter := b.value.filter))
  {
    FindEdited(groups, name, Filtered(text), other);
  }

  lemma TiersOnly(groups: seq<Group>, region: string, t: Tiers, other: string)
    requires t.stable != {} && t.reserve != {}
    ensures var a, b := FindLast(groups, other), FindLast(TierEdits(groups, region, t), other);
            (a.None? <==> b.None?) && (a.Some? ==> b.value == a.value.(filter := b.value.filter))
  {
    var f := ExactFilter.Text(t.stable).value;
    FilterOnly(groups, Stable(region), f, other);
    FilterOnly(Edit(groups, Stable(region), Filtered(f)), Reserve(region), ExactFilter.Text(t.reserve).value, other);
  }

  lemma ShapeTiered(groups: seq<Group>, region: string, p: string, other: string, t: Tiers)
    requires t.stable != {} && t.reserve != {} && RegionGroupsShape(groups, region, p)
    ensures RegionGroupsShape(TierEdits(groups, other, t), region, p)
  {
    TiersOnly(groups, other, t, Display(region));
    TiersOnly(groups, other, t, Stable(region));
    TiersOnly(groups, other, t, Reserve(region));
  }

  /** The groups of a region that keeps a node come through the pass. */
  lemma {:induction false} ShapeAfter(groups: seq<Group>, payloads: Payloads, order: seq<string>, qualified: set<string>, stable: set<string>,
                                      region: string, p: string)
    requires IsRegion(region) && RegionGroupsShape(groups, region, p) && Survives(payloads, region, qualified)
    requires forall r :: r in order ==> IsRegion(r)
    ensures RegionGroupsShape(GroupsAfter(groups, payloads, order, qualified, stable), region, p)
  {
    if order != [] {
      var k := |order| - 1;
      var other := order[k];
      assert forall x :: x in order[..k] ==> x in order;
      ShapeAfter(groups, payloads, order[..k], qualified, stable, region, p);
      var now := GroupsAfter(groups, payloads, order[..k], qualified, stable);
      if other in payloads {
        var q := QualifiedIn(payloads[other], qualified);
        if q == {} { ShapeRemoved(now, region, p, other); } else { SplitCovers(q, stable); ShapeTiered(now, region, p, other, SplitTiers(q, stable)); }
      }
    }
  }

  // ----- a group outside the regions -----

  /** The group of that name keeps all but its members. */
  ghost predicate Unfiltered(a: Option<Group>, b: Option<Group>) {
    (a.None? <==> b.None?) && (a.Some? ==> b.value == a.value.(proxies := b.value.proxies))
  }

  ghost predicate OfNoRegion(name: string) { forall r :: name !in RegionGroups(r) }

  lemma {:induction false} OtherRemains(groups: seq<Group>, payloads: Payloads, order: seq<string>, qualified: set<string>, stable: set<string>, name: string)
    requires OfNoRegion(name)
    ensures Unfiltered(FindLast(groups, name), FindLast(GroupsAfter(groups, payloads, order, qualified, stable), name))
  {
    if order != [] {
      var k := |order| - 1;
      var other := order[k];
      OtherRemains(groups, payloads, order[..k], qualified, stable, name);
      var now := GroupsAfter(groups, payloads, order[..k], qualified, stable);
      if other in payloads {
        var q := QualifiedIn(payloads[other], qualified);
        assert name !in RegionGroups(other) && Stable(other) in RegionGroups(other) && Reserve(other) in RegionGroups(other);
        if q == {} { FindRemoved(now, RegionGroups(other), name); } else { SplitCovers(q, stable); EditsElsewhere(now, other, SplitTiers(q, stable), name); }
      }
    }
  }

  lemma CanonicalApart(name: string)
    requires name in CANONICAL || name == AUTO
    ensures OfNoRegion(name)
  {
    forall r ensures name !in RegionGroups(r) {
      assert Display(r)[0] == '网' && Display(r)[2] == ' ' && Stable(r)[0] == '_' && Reserve(r)[0] == '_' && Scaffold(r)[0] == '_';
      assert PUBLIC[0] == '网' && PUBLIC[2] == '浏' && AUTO[0] == '网' && AUTO[2] == '自' && AI_GROUP[0] == '人' && "代理选择"[0] == '代';
    }
  }

  // ----- the surface check passes -----

  lemma ShapeRefreshed(groups: seq<Group>, available: seq<string>, region: string, p: string)
    requires RegionGroupsShape(groups, region, p)
    ensures RegionGroupsShape(RefreshedGroups(groups, available), region, p)
  {
    RouteNamesApart(region);
    assert Display(region) in RegionGroups(region) && Stable(region) in RegionGroups(region) && Reserve(region) in RegionGroups(region);
    RefreshElsewhere(groups, available, Display(region));
    RefreshElsewhere(groups, available, Stable(region));
    RefreshElsewhere(groups, available, Reserve(region));
  }

  /** Only the automatic and the public group change when the routes are refreshed. */
  lemma RefreshedFind(groups: seq<Group>, available: seq<string>, name: string)
    ensures Unfiltered(FindLast(groups, name), FindLast(RefreshedGroups(groups, available), name))
    ensures name == AUTO && FindLast(groups, name).Some? ==>
              FindLast(RefreshedGroups(groups, available), name).value.proxies == Displays(available)
    ensures name == PUBLIC && FindLast(groups, name).Some? ==>
              FindLast(RefreshedGroups(groups, available), name).value.proxies == [AUTO] + Displays(available) + ["DIRECT"]
  {
    RouteNamesApart("");
    var f, g := Routed(Displays(available)), Routed([AUTO] + Displays(available) + ["DIRECT"]);
    FindEdited(groups, AUTO, f, name);
    FindEdited(Edit(groups, AUTO, f), PUBLIC, g, name);
  }

  lemma FinalFind(groups: seq<Group>, payloads: Payloads, order: seq<string>, qualified: set<string>, stable: set<string>, name: string)
    requires name in CANONICAL || name == AUTO
    ensures var a, b := FindLast(groups, name), FindLast(FinalGroups(groups, payloads, order, qualified, stable), name);
            && Unfiltered(a, b)
            && (name == AUTO && a.Some? ==> b.value.proxies == Displays(Surviving(payloads, order, qualified)))
            && (name == PUBLIC && a.Some? ==> b.value.proxies == [AUTO] + Displays(Surviving(payloads, order, qualified)) + ["DIRECT"])
  {
    CanonicalApart(name);
    OtherRemains(groups, payloads, order, qualified, stable, name);
    RefreshedFind(GroupsAfter(groups, payloads, order, qualified, stable), Surviving(payloads, order, qualified), name);
  }

  lemma FinalShape(groups: seq<Group>, payloads: Payloads, order: seq<string>, qualified: set<string>, stable: set<string>, region: string, p: string)
    requires IsRegion(region) && RegionGroupsShape(groups, region, p) && Survives(payloads, region, qualified)
    requires forall r :: r in order ==> IsRegion(r)
    ensures RegionGroupsShape(FinalGroups(groups, payloads, order, qualified, stable), region, p)
  {
    ShapeAfter(groups, payloads, order, qualified, stable, region, p);
    ShapeRefreshed(GroupsAfter(groups, payloads, order, qualified, stable), Surviving(payloads, order, qualified), region, p);
  }

  lemma {:induction false} PayloadsCover(providers: map<string, Provider>, names: seq<string>, upper: string -> string, p: string)
    requires (forall n :: n in names ==> n in providers) && PayloadsOf(providers, names, upper).Ok?
    requires p in names && ProviderRegion(p, upper).Some?
    ensures ProviderRegion(p, upper).value in PayloadsOf(providers, names, upper).value
  {
    var k := |names| - 1;
    assert names == names[..k] + [names[k]];
    if p in names[..k] { PayloadsCover(providers, names[..k], upper, p); }
  }

  /** The inventory as the rewrite reads it. */
  ghost predicate Inventoried(providers: map<string, Provider>, payloads: Payloads, upper: string -> string) {
    PayloadsOf(providers, Sorted(providers.Keys), upper) == Ok(payloads) && Reads(providers, payloads, upper)
  }

  /** A region with one provider has that provider's payload. */
  lemma RegionRead(providers: map<string, Provider>, payloads: Payloads, upper: string -> string, region: string, p: string)
    requires Inventoried(providers, payloads, upper) && p in providers && ProvidersOf(providers, region, upper) == {p}
    ensures region in payloads && payloads[region].provider == p
  {
    assert p in ProvidersOf(providers, region, upper) && p in Sorted(providers.Keys);
    PayloadsCover(providers, Sorted(providers.Keys), upper, p);
    assert EntryReads(providers, region, payloads[region], upper);
    assert payloads[region].provider in ProvidersOf(providers, region, upper);
  }

  lemma StillOne(providers: map<string, Provider>, after: map<string, Provider>, region: string, upper: string -> string, p: string)
    requires ProvidersOf(providers, region, upper) == {p} && after.Keys <= providers.Keys && p in after
    ensures ProvidersOf(after, region, upper) == {p}
  {
    assert p in ProvidersOf(providers, region, upper);
    forall q | q in ProvidersOf(after, region, upper) ensures q == p { assert q in ProvidersOf(providers, region, upper); }
  }

  /** A surviving region has its shape again. */
  lemma SurvivorShape(groups: seq<Group>, providers: map<string, Provider>, payloads: Payloads, order: seq<string>, qualified: set<string>, stable: set<string>,
                      upper: string -> string, region: string)
    requires Inventoried(providers, payloads, upper) && (forall r :: r in order ==> IsRegion(r))
    requires region in order && RegionShape(groups, providers, region, upper) && Survives(payloads, region, qualified)
    ensures RegionShape(FinalGroups(groups, payloads, order, qualified, stable), ProvidersAfter(providers, payloads, order, qualified), region, upper)
  {
    var p := ShapeParts(groups, providers, region, upper);
    RegionRead(providers, payloads, upper, region, p);
    ProviderAfter(providers, payloads, order, qualified, upper, region);
    ProvidersOnlyShrink(providers, payloads, order, qualified);
    StillOne(providers, ProvidersAfter(providers, payloads, order, qualified), region, upper, p);
    FinalShape(groups, payloads, order, qualified, stable, region, p);
  }

  /** A public surface that is there and valid. */
  ghost predicate Surfaced(groups: seq<Group>, providers: map<string, Provider>, texts: Texts) {
    FindLast(groups, PUBLIC).Some? && SurfaceValid(groups, providers, texts)
  }

  lemma NoRawNode(members: seq<string>, order: seq<string>, available: seq<string>)
    requires members == [AUTO] + Displays(order) + ["DIRECT"] && forall r :: r in available ==> r in order
    ensures forall m :: m in [AUTO] + Displays(available) + ["DIRECT"] ==> m in members
  {
    forall m | m in Displays(available) ensures m in Displays(order) {
      var i :| 0 <= i < |available| && Display(available[i]) == m;
      assert available[i] in order;
      var j :| 0 <= j < |order| && order[j] == available[i];
      assert Displays(order)[j] == m;
    }
  }

  /** The rewrite keeps the public surface: with a surviving region the later check finds nothing to report. */
  lemma SurfaceKept(groups: seq<Group>, providers: map<string, Provider>, payloads: Payloads, qualified: set<string>, stable: set<string>, texts: Texts)
    requires KeepsRegions(texts.fold) && Surfaced(groups, providers, texts) && Inventoried(providers, payloads, texts.upper)
    requires Surviving(payloads, RuntimeRegions(groups, texts.fold), qualified) != []
    ensures var order := RuntimeRegions(groups, texts.fold);
            Surfaced(FinalGroups(groups, payloads, order, qualified, stable), ProvidersAfter(providers, payloads, order, qualified), texts)
  {
    var order := RuntimeRegions(groups, texts.fold);
    var available := Surviving(payloads, order, qualified);
    var after := FinalGroups(groups, payloads, order, qualified, stable);
    assert PUBLIC in CANONICAL;
    FinalFind(groups, payloads, order, qualified, stable, PUBLIC);
    FinalFind(groups, payloads, order, qualified, stable, AUTO);
    CanonicalApart(AUTO);
    OtherRemains(groups, payloads, order, qualified, stable, AUTO);
    RefreshedRegions(GroupsAfter(groups, payloads, order, qualified, stable), available, texts.fold);
    forall n | n in CANONICAL && FindLast(after, n).Some? ensures CanonicalShape(FindLast(after, n).value) {
      FinalFind(groups, payloads, order, qualified, stable, n);
    }
    NoRawNode(FindLast(groups, PUBLIC).value.proxies, order, available);
    forall r | r in available ensures RegionShape(after, ProvidersAfter(providers, payloads, order, qualified), r, texts.upper) {
      SurvivorShape(groups, providers, payloads, order, qualified, stable, texts.upper, r);
    }
  }
}
