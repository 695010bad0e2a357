/** Pruning the browsing inventory to qualified nodes and splitting every surviving region into Stable and Reserve. */
module BrowsingTiers {
  import opened Ordering
  import opened Results
  import opened Routing
  import opened Sifting
  import opened BrowsingRegions
  import ExactFilter

  const PUBLIC := "网页浏览"
  const AUTO := "网页自动"

  // ----- editing a group in place -----

  /** The last group of that name with `f` applied; a dictionary built over the groups finds that one. */
  function Edit(groups: seq<Group>, name: string, f: Group -> Group): (r: seq<Group>)
    ensures |r| == |groups|
  {
    if groups == [] then []
    else
      var k := |groups| - 1;
      if groups[k].name == name then groups[..k] + [f(groups[k])] else Edit(groups[..k], name, f) + [groups[k]]
  }

  /** The last group of the name is edited where it stands. */
  ghost predicate EditedAt(groups: seq<Group>, name: string, f: Group -> Group, r: seq<Group>) {
    |r| == |groups| && forall i :: 0 <= i < |groups| ==> r[i] == if IsLast(groups, name, i) then f(groups[i]) else groups[i]
  }

  ghost predicate IsLast(groups: seq<Group>, name: string, i: nat) {
    i < |groups| && groups[i].name == name && forall j :: i < j < |groups| ==> groups[j].name != name
  }

  lemma {:induction false} EditExactly(groups: seq<Group>, name: string, f: Group -> Group)
    ensures EditedAt(groups, name, f, Edit(groups, name, f))
  {
    if groups != [] {
      var k := |groups| - 1;
      EditExactly(groups[..k], name, f);
      var r := Edit(groups, name, f);
      forall i | 0 <= i < |groups| ensures r[i] == if IsLast(groups, name, i) then f(groups[i]) else groups[i] {
        LastSnoc(groups, name, i);
        if i < k { assert groups[..k][i] == groups[i]; }
      }
    }
  }

  lemma LastSnoc(groups: seq<Group>, name: string, i: nat)
    requires i < |groups|
    ensures var k := |groups| - 1;
            IsLast(groups, name, i) <==> if i == k then groups[k].name == name else groups[k].name != name && IsLast(groups[..k], name, i)
  {
  }

  lemma {:induction false} FindEdited(groups: seq<Group>, name: string, f: Group -> Group, other: string)
    requires forall g :: f(g).name == g.name
    ensures FindLast(Edit(groups, name, f), other)
         == if other == name && FindLast(groups, name).Some? then Some(f(FindLast(groups, name).value)) else FindLast(groups, other)
  {
    if groups != [] {
      var k := |groups| - 1;
      FindEdited(groups[..k], name, f, other);
      var edited := Edit(groups, name, f);
      assert edited[..k] == if groups[k].name == name then groups[..k] else Edit(groups[..k], name, f);
    }
  }

  function Filtered(text: string): Group -> Group { (g: Group) => g.(filter := Some(text)) }

  function Routed(proxies: seq<string>): Group -> Group { (g: Group) => g.(proxies := proxies) }

  // ----- removing a region -----

  function Pruned(g: Group, names: set<string>): Group { g.(proxies := KeepMembers(g.proxies, names)) }

  /** The groups outside `names`, with every reference into `names` dropped. */
  function Removed(groups: seq<Group>, names: set<string>): (r: seq<Group>) {
    if groups == [] then []
    else
      var k := |groups| - 1;
      Removed(groups[..k], names) + if groups[k].name in names then [] else [Pruned(groups[k], names)]
  }

  lemma {:induction false} FindRemoved(groups: seq<Group>, names: set<string>, name: string)
    ensures FindLast(Removed(groups, names), name)
         == if name in names || FindLast(groups, name).None? then None else Some(Pruned(FindLast(groups, name).value, names))
  {
    if groups != [] {
      var k := |groups| - 1;
      FindRemoved(groups[..k], names, name);
      FindLastSnoc(Removed(groups[..k], names), Pruned(groups[k], names), name);
      assert groups[k].name in names ==> Removed(groups, names) == Removed(groups[..k], names);
    }
  }

  lemma {:induction false} RemovedFrom(groups: seq<Group>, names: set<string>, g: Group)
    requires g in Removed(groups, names)
    ensures g.name !in names && exists old_ :: old_ in groups && g == Pruned(old_, names)
  {
    var k := |groups| - 1;
    assert groups == groups[..k] + [groups[k]];
    if g in Removed(groups[..k], names) { RemovedFrom(groups[..k], names, g); }
  }

  /** What stays keeps its place, its fields and, in order, its other members. */
  ghost predicate KeptFrom(g: Group, h: Group, names: set<string>) {
    && h.name == g.name && h.kind == g.kind && h.hidden == g.hidden && h.uses == g.uses && h.filter == g.filter && h.test == g.test
    && Sifted(g.proxies, (m: string) => m !in names, h.proxies)
  }

  lemma {:induction false} RemovedExactly(groups: seq<Group>, names: set<string>) returns (kept: seq<Group>)
    ensures Sifted(groups, (g: Group) => g.name !in names, kept)
    ensures |Removed(groups, names)| == |kept| && forall i :: 0 <= i < |kept| ==> KeptFrom(kept[i], Removed(groups, names)[i], names)
  {
    var keep := (g: Group) => g.name !in names;
    if groups == [] {
      SiftedEmpty(keep);
      kept := [];
    } else {
      var k := |groups| - 1;
      assert groups == groups[..k] + [groups[k]];
      var init := RemovedExactly(groups[..k], names);
      SiftedSnoc(groups[..k], groups[k], keep, init);
      MembersInOrder(groups[k].proxies, names);
      kept := if groups[k].name in names then init else init + [groups[k]];
    }
  }

  predicate UsedBy(groups: seq<Group>, provider: string) { exists g :: g in groups && provider in g.uses }

  /** Raises when a group that stays still uses the provider. */
  method RemoveRegionRuntime(config: Config, region: string, provider: string) returns (r: Result<()>)
    modifies config`groups
    ensures r.Ok? <==> !UsedBy(Removed(old(config.groups), RegionGroups(region)), provider)
    ensures r.Ok? ==> config.groups == Removed(old(config.groups), RegionGroups(region))
  {
    var names := RegionGroups(region);
    var groups := config.groups;
    var kept: seq<Group> := [];
    assert groups[..0] == [];
    for k := 0 to |groups|
      invariant kept == Removed(groups[..k], names)
    {
      TakeStep(groups, k);
      if groups[k].name !in names { kept := kept + [Pruned(groups[k], names)]; }
    }
    assert groups[..|groups|] == groups;
    if exists g :: g in kept && provider in g.uses { return Raised("provider remains referenced after region removal"); }
    config.groups := kept;
    return Ok(());
  }

  // ----- tiers of one region -----

  datatype Tiers = Tiers(stable: set<string>, reserve: set<string>)

  /** Stable nodes in one tier and the rest in the other; a tier that would be empty takes the whole region. */
  function SplitTiers(qualified: set<string>, stable: set<string>): Tiers {
    var effective := if stable * qualified != {} then stable * qualified else qualified;
    var rest := qualified - effective;
    Tiers(effective, if rest != {} then rest else qualified)
  }

  /** History demotes outliers when at least three preferred stable nodes remain. */
  const MIN_PREFERRED: nat := 3

  function Preferred(qualified: set<string>, stable: set<string>, preferred: set<string>): set<string> { preferred * (stable * qualified) }

  function HistoryTiers(qualified: set<string>, stable: set<string>, preferred: set<string>): Tiers {
    var p := Preferred(qualified, stable, preferred);
    if |p| < MIN_PREFERRED then SplitTiers(qualified, stable)
    else
      var rest := qualified - p;
      Tiers(p, if rest != {} then rest else qualified)
  }

  ghost predicate Covers(t: Tiers, qualified: set<string>) { t.stable != {} && t.reserve != {} && t.stable + t.reserve == qualified }

  lemma SplitCovers(qualified: set<string>, stable: set<string>)
    requires qualified != {}
    ensures Covers(SplitTiers(qualified, stable), qualified)
  {
  }

  /** Both tiers are nonempty and together hold exactly the region's qualified nodes, before and after the history step. */
  lemma TiersCover(qualified: set<string>, stable: set<string>, preferred: set<string>)
    requires qualified != {}
    ensures Covers(SplitTiers(qualified, stable), qualified) && Covers(HistoryTiers(qualified, stable, preferred), qualified)
  {
    SplitCovers(qualified, stable);
    var p := Preferred(qualified, stable, preferred);
    if |p| >= MIN_PREFERRED {
      assert p <= qualified;
      CoverSplit(p, qualified);
    }
  }

  lemma CoverSplit(p: set<string>, qualified: set<string>)
    requires p != {} && p <= qualified
    ensures Covers(Tiers(p, if qualified - p != {} then qualified - p else qualified), qualified)
  {
  }

  function TierEdits(groups: seq<Group>, region: string, t: Tiers): seq<Group>
    requires t.stable != {} && t.reserve != {}
  {
    Edit(Edit(groups, Stable(region), Filtered(ExactFilter.Text(t.stable).value)), Reserve(region), Filtered(ExactFilter.Text(t.reserve).value))
  }

  predicate HasTiers(groups: seq<Group>, region: string) {
    FindLast(groups, Stable(region)).Some? && FindLast(groups, Reserve(region)).Some?
  }

  method SetRegionTierFilters(config: Config, region: string, t: Tiers) returns (r: Result<nat>)
    requires t.stable != {} && t.reserve != {}
    modifies config`groups
    ensures r.Ok? <==> HasTiers(old(config.groups), region)
    ensures r.Ok? ==> r.value == 2 && config.groups == TierEdits(old(config.groups), region, t)
  {
    if FindLast(config.groups, Stable(region)).None? || FindLast(config.groups, Reserve(region)).None? {
      return Raised("hardened browsing tier groups are missing");
    }
    config.groups := Edit(config.groups, Stable(region), Filtered(ExactFilter.Text(t.stable).value));
    config.groups := Edit(config.groups, Reserve(region), Filtered(ExactFilter.Text(t.reserve).value));
    return Ok(2);
  }

  /** The groups carry the tier filters of the region. */
  ghost predicate Tiered(groups: seq<Group>, region: string, t: Tiers) {
    && t.stable != {} && t.reserve != {} && HasTiers(groups, region)
    && FindLast(groups, Stable(region)).value.filter == Some(ExactFilter.Text(t.stable).value)
    && FindLast(groups, Reserve(region)).value.filter == Some(ExactFilter.Text(t.reserve).value)
  }

  lemma EditsTier(groups: seq<Group>, region: string, t: Tiers)
    requires t.stable != {} && t.reserve != {} && HasTiers(groups, region)
    ensures Tiered(TierEdits(groups, region, t), region, t)
  {
    var f, g := Filtered(ExactFilter.Text(t.stable).value), Filtered(ExactFilter.Text(t.reserve).value);
    var mid := Edit(groups, Stable(region), f);
    StableNotReserve(region, region);
    FindEdited(groups, Stable(region), f, Stable(region));
    FindEdited(groups, Stable(region), f, Reserve(region));
    FindEdited(mid, Reserve(region), g, Stable(region));
    FindEdited(mid, Reserve(region), g, Reserve(region));
  }

  lemma EditsElsewhere(groups: seq<Group>, region: string, t: Tiers, name: string)
    requires t.stable != {} && t.reserve != {} && name != Stable(region) && name != Reserve(region)
    ensures FindLast(TierEdits(groups, region, t), name) == FindLast(groups, name)
  {
    var f, g := Filtered(ExactFilter.Text(t.stable).value), Filtered(ExactFilter.Text(t.reserve).value);
    FindEdited(groups, Stable(region), f, name);
    FindEdited(Edit(groups, Stable(region), f), Reserve(region), g, name);
  }

  /** Tiers of one region survive whatever happens to another. */
  lemma TieredElsewhere(groups: seq<Group>, region: string, t: Tiers, other: string, u: Tiers)
    requires IsRegion(region) && IsRegion(other) && region != other && u.stable != {} && u.reserve != {} && Tiered(groups, region, t)
    ensures Tiered(TierEdits(groups, other, u), region, t) && Tiered(Removed(groups, RegionGroups(other)), region, t)
  {
    RegionGroupsApart(region, other);
    assert Stable(region) in RegionGroups(region) && Reserve(region) in RegionGroups(region);
    assert Stable(other) in RegionGroups(other) && Reserve(other) in RegionGroups(other);
    EditsElsewhere(groups, other, u, Stable(region));
    EditsElsewhere(groups, other, u, Reserve(region));
    FindRemoved(groups, RegionGroups(other), Stable(region));
    FindRemoved(groups, RegionGroups(other), Reserve(region));
  }

  // ----- no reference to a removed region -----

  ghost predicate Clear(groups: seq<Group>, names: set<string>) {
    forall g :: g in groups ==> g.name !in names && forall m :: m in g.proxies ==> m !in names
  }

  lemma RemovedIsClear(groups: seq<Group>, names: set<string>)
    ensures Clear(Removed(groups, names), names)
  {
    forall g | g in Removed(groups, names) ensures g.name !in names && forall m :: m in g.proxies ==> m !in names {
      RemovedFrom(groups, names, g);
    }
  }

  lemma ClearStays(groups: seq<Group>, names: set<string>, more: set<string>)
    requires Clear(groups, names)
    ensures Clear(Removed(groups, more), names)
  {
    forall g | g in Removed(groups, more) ensures g.name !in names && forall m :: m in g.proxies ==> m !in names {
      RemovedFrom(groups, more, g);
    }
  }

  lemma {:induction false} EditedFrom(groups: seq<Group>, name: string, f: Group -> Group, g: Group)
    requires g in Edit(groups, name, f)
    ensures g in groups || exists h :: h in groups && h.name == name && g == f(h)
  {
    var k := |groups| - 1;
    assert groups == groups[..k] + [groups[k]];
    if groups[k].name != name && g in Edit(groups[..k], name, f) { EditedFrom(groups[..k], name, f, g); }
  }

  lemma ClearEdited(groups: seq<Group>, names: set<string>, name: string, f: Group -> Group)
    requires Clear(groups, names) && forall h :: f(h).name == h.name && forall m :: m in f(h).proxies ==> m in h.proxies || m !in names
    ensures Clear(Edit(groups, name, f), names)
  {
    forall g | g in Edit(groups, name, f) ensures g.name !in names && forall m :: m in g.proxies ==> m !in names {
      EditedFrom(groups, name, f, g);
    }
  }

  lemma ClearTiered(groups: seq<Group>, names: set<string>, region: string, t: Tiers)
    requires Clear(groups, names) && t.stable != {} && t.reserve != {}
    ensures Clear(TierEdits(groups, region, t), names)
  {
    var f, g := Filtered(ExactFilter.Text(t.stable).value), Filtered(ExactFilter.Text(t.reserve).value);
    ClearEdited(groups, names, Stable(region), f);
    ClearEdited(Edit(groups, Stable(region), f), names, Reserve(region), g);
  }

  // ----- tiers without group members -----

  /** Tier groups take their nodes from a provider alone, as the generator makes them. */
  ghost predicate BareTiers(groups: seq<Group>) {
    forall g, r :: g in groups && (g.name == Stable(r) || g.name == Reserve(r)) ==> g.proxies == []
  }

  lemma BareRemoved(groups: seq<Group>, names: set<string>)
    requires BareTiers(groups)
    ensures BareTiers(Removed(groups, names))
  {
    forall g, r | g in Removed(groups, names) && (g.name == Stable(r) || g.name == Reserve(r)) ensures g.proxies == [] {
      RemovedFrom(groups, names, g);
    }
  }

  lemma BareEdited(groups: seq<Group>, name: string, f: Group -> Group)
    requires BareTiers(groups) && forall h :: f(h).name == h.name
    requires (forall h :: f(h).proxies == h.proxies) || forall r :: name != Stable(r) && name != Reserve(r)
    ensures BareTiers(Edit(groups, name, f))
  {
    forall g, r | g in Edit(groups, name, f) && (g.name == Stable(r) || g.name == Reserve(r)) ensures g.proxies == [] {
      EditedFrom(groups, name, f, g);
    }
  }

  lemma BareTierEdits(groups: seq<Group>, region: string, t: Tiers)
    requires BareTiers(groups) && t.stable != {} && t.reserve != {}
    ensures BareTiers(TierEdits(groups, region, t))
  {
    var f, g := Filtered(ExactFilter.Text(t.stable).value), Filtered(ExactFilter.Text(t.reserve).value);
    BareEdited(groups, Stable(region), f);
    BareEdited(Edit(groups, Stable(region), f), Reserve(region), g);
  }
}
