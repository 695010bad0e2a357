/** The browsing rewrite keeps a candidate live, and goes through exactly when some region keeps a node. */
module BrowsingLive {
  import opened Ordering
  import opened Results
  import opened Routing
  import opened Validator
  import opened GroupLiveness
  import opened BrowsingRegions
  import opened BrowsingTiers
  import opened BrowsingRewrite
  import opened BrowsingSurface
  import opened BrowsingQualification
  import opened BrowsingReady
  import opened BrowsingValid
  import ExactFilter
  import GroupCycles

  // ----- a group outside the surviving regions -----

  function TierNames(region: string): set<string> { {Stable(region), Reserve(region)} }

  /** The names whose filters are written. */
  function Written(payloads: Payloads, order: seq<string>, qualified: set<string>): (r: set<string>)
    ensures forall n :: n in r <==> exists k :: 0 <= k < |order| && Survives(payloads, order[k], qualified) && n in TierNames(order[k])
  {
    set k, n | 0 <= k < |order| && Survives(payloads, order[k], qualified) && n in TierNames(order[k]) :: n
  }

  lemma WrittenNext(payloads: Payloads, order: seq<string>, qualified: set<string>)
    requires order != []
    ensures var k := |order| - 1;
            Written(payloads, order, qualified)
            == Written(payloads, order[..k], qualified) + if Survives(payloads, order[k], qualified) then TierNames(order[k]) else {}
  {
    var k := |order| - 1;
    forall n | n in Written(payloads, order, qualified)
      ensures n in Written(payloads, order[..k], qualified) || (Survives(payloads, order[k], qualified) && n in TierNames(order[k]))
    {
      var j :| 0 <= j < |order| && Survives(payloads, order[j], qualified) && n in TierNames(order[j]);
      if j < k { assert order[..k][j] == order[j]; }
    }
    forall n | n in Written(payloads, order[..k], qualified) ensures n in Written(payloads, order, qualified) {
      var j :| 0 <= j < k && Survives(payloads, order[..k][j], qualified) && n in TierNames(order[..k][j]);
      assert order[..k][j] == order[j];
    }
  }

  /** The group stays as it is, without its members among `gone`. */
  ghost predicate Thinned(a: Option<Group>, b: Option<Group>, gone: set<string>) {
    (a.None? <==> b.None?) && (a.Some? ==> b.value == a.value.(proxies := KeepMembers(a.value.proxies, gone)))
  }

  lemma ThinnedMore(a: Option<Group>, b: Option<Group>, gone: set<string>, names: set<string>)
    requires Thinned(a, b, gone)
    ensures Thinned(a, if b.None? then None else Some(BrowsingTiers.Pruned(b.value, names)), gone + names)
  {
    if a.Some? { KeepTwice(a.value.proxies, gone, names); }
  }

  lemma {:induction false} OtherThinned(groups: seq<Group>, payloads: Payloads, order: seq<string>, qualified: set<string>, stable: set<string>, name: string)
    requires name !in GoneWith(payloads, order, qualified) && name !in Written(payloads, order, qualified)
    ensures Thinned(FindLast(groups, name), FindLast(GroupsAfter(groups, payloads, order, qualified, stable), name), GoneWith(payloads, order, qualified))
  {
    if order == [] {
      assert GoneWith(payloads, order, qualified) == {};
      if FindLast(groups, name).Some? { KeepAll(FindLast(groups, name).value.proxies, {}); }
    } else {
      var k := |order| - 1;
      var other, now := order[k], GroupsAfter(groups, payloads, order[..k], qualified, stable);
      GoneNext(payloads, order, qualified);
      WrittenNext(payloads, order, qualified);
      OtherThinned(groups, payloads, order[..k], qualified, stable, name);
      if other in payloads {
        var q := QualifiedIn(payloads[other], qualified);
        if q == {} {
          FindRemoved(now, RegionGroups(other), name);
          ThinnedMore(FindLast(groups, name), FindLast(now, name), GoneWith(payloads, order[..k], qualified), RegionGroups(other));
          assert GoneWith(payloads, order, qualified) == GoneWith(payloads, order[..k], qualified) + RegionGroups(other);
        } else {
          assert GoneWith(payloads, order, qualified) == GoneWith(payloads, order[..k], qualified);
          SplitCovers(q, stable);
          EditsElsewhere(now, other, SplitTiers(q, stable), name);
        }
      } else {
        assert GoneWith(payloads, order, qualified) == GoneWith(payloads, order[..k], qualified);
      }
    }
  }

  // ----- the conditions -----

  predicate Unfiltered(g: Group) { g.filter.None? || g.filter.value == "" }

  /** A vanishing provider is used in its region only; a surviving one by its tiers and by groups that take every node. */
  ghost predicate ProvidersWired(groups: seq<Group>, payloads: Payloads, order: seq<string>, qualified: set<string>) {
    forall g, r :: g in groups && r in order && r in payloads && payloads[r].provider in g.uses ==>
      if Vanishes(payloads, r, qualified) then g.name in RegionGroups(r) else g.name in TierNames(r) || Unfiltered(g)
  }

  /** The groups of a vanishing region are listed by each other, the automatic and the public group only. */
  ghost predicate RegionsWired(groups: seq<Group>, payloads: Payloads, order: seq<string>, qualified: set<string>) {
    forall g, r, m :: g in groups && r in order && Vanishes(payloads, r, qualified) && m in g.proxies && m in RegionGroups(r) ==>
      g.name in {AUTO, PUBLIC} || g.name in RegionGroups(r)
  }

  /** A candidate as the generator leaves it: valid, with a valid public surface, and regions that keep to themselves. */
  ghost predicate Ready(groups: seq<Group>, providers: map<string, Provider>, ruleProviders: map<string, RuleProvider>, rules: seq<Rule>,
                        qualified: set<string>, texts: Texts) {
    var payloads, order := InventoryOf(providers, texts.upper), RuntimeRegions(groups, texts.fold);
    && KeepsRegions(texts.fold) && Surfaced(groups, providers, texts) && Validated(texts.search, providers, groups, ruleProviders, rules)
    && ProvidersWired(groups, payloads, order, qualified) && RegionsWired(groups, payloads, order, qualified)
    && RulesStay(rules, GoneWith(payloads, order, qualified))
  }

  lemma WiredNoStranger(groups: seq<Group>, payloads: Payloads, order: seq<string>, qualified: set<string>)
    requires ProvidersWired(groups, payloads, order, qualified)
    ensures NoStranger(groups, payloads, order, qualified)
  {
  }

  // ----- cycles -----

  lemma FinalUnique(groups: seq<Group>, payloads: Payloads, order: seq<string>, qualified: set<string>, stable: set<string>)
    requires UniqueNames(groups)
    ensures UniqueNames(FinalGroups(groups, payloads, order, qualified, stable))
  {
    var now, available := GroupsAfter(groups, payloads, order, qualified, stable), Surviving(payloads, order, qualified);
    PassCarries(groups, payloads, order, qualified, stable);
    EditNames(now, AUTO, Routed(Displays(available)));
    EditNames(Edit(now, AUTO, Routed(Displays(available))), PUBLIC, Routed([AUTO] + Displays(available) + ["DIRECT"]));
  }

  /** The members of a group of the final list are members it had. */
  lemma FinalMembers(groups: seq<Group>, payloads: Payloads, order: seq<string>, qualified: set<string>, stable: set<string>, n: string, m: string)
    requires UniqueNames(groups) && ListedBefore(groups, order)
    requires Find(FinalGroups(groups, payloads, order, qualified, stable), n).Some? && m in Find(FinalGroups(groups, payloads, order, qualified, stable), n).value.proxies
    ensures Find(groups, n).Some? && m in Find(groups, n).value.proxies
  {
    var now, available := GroupsAfter(groups, payloads, order, qualified, stable), Surviving(payloads, order, qualified);
    FinalUnique(groups, payloads, order, qualified, stable);
    PassCarries(groups, payloads, order, qualified, stable);
    FindEither(RefreshedGroups(now, available), n);
    RefreshedFind(now, available, n);
    FindEither(now, n);
    FindEither(groups, n);
    var h := FindLast(now, n).value;
    assert h in now;
    assert HasOrigin(groups, h, GoneWith(payloads, order, qualified));
    var g :| g in groups && From(g, h, GoneWith(payloads, order, qualified));
    FoundOne(groups, g);
    RouteNamesApart("");
    if n == AUTO || n == PUBLIC {
      ListedStill(groups, order, available, n, m);
    } else {
      RefreshElsewhere(now, available, n);
    }
  }

  lemma FoundOne(groups: seq<Group>, g: Group)
    requires UniqueNames(groups) && g in groups
    ensures Find(groups, g.name) == Some(g)
  {
    var i :| 0 <= i < |groups| && groups[i] == g;
    FindUnique(groups, i);
  }

  /** The automatic and the public group list the regions of the order. */
  ghost predicate ListedBefore(groups: seq<Group>, order: seq<string>) {
    && (Find(groups, AUTO).Some? ==> Find(groups, AUTO).value.proxies == Displays(order))
    && (Find(groups, PUBLIC).Some? ==> Find(groups, PUBLIC).value.proxies == [AUTO] + Displays(order) + ["DIRECT"])
  }

  lemma ListedStill(groups: seq<Group>, order: seq<string>, available: seq<string>, n: string, m: string)
    requires ListedBefore(groups, order) && (n == AUTO || n == PUBLIC) && Find(groups, n).Some? && forall r :: r in available ==> r in order
    requires m in if n == AUTO then Displays(available) else [AUTO] + Displays(available) + ["DIRECT"]
    ensures m in Find(groups, n).value.proxies
  {
    RouteNamesApart("");
    DisplaysWithin(available, order);
  }

  lemma DisplaysWithin(available: seq<string>, order: seq<string>)
    requires forall r :: r in available ==> r in order
    ensures forall m :: m in Displays(available) ==> m in Displays(order)
  {
    forall m | m in Displays(available) ensures m in Displays(order) {
      var i :| 0 <= i < |available| && Display(available[i]) == m;
      assert available[i] in order;
      var j :| 0 <= j < |order| && order[j] == available[i];
      assert Displays(order)[j] == m;
    }
  }

  lemma FinalAcyclic(groups: seq<Group>, payloads: Payloads, order: seq<string>, qualified: set<string>, stable: set<string>)
    requires UniqueNames(groups) && ListedBefore(groups, order) && GroupCycles.Acyclic(GroupGraph(groups))
    ensures GroupCycles.Acyclic(GroupGraph(FinalGroups(groups, payloads, order, qualified, stable)))
  {
    var final := FinalGroups(groups, payloads, order, qualified, stable);
    forall n, m | n in GroupNames(final) && m in MemberGroups(final, n) ensures n in GroupNames(groups) && m in MemberGroups(groups, n) {
      NamedFound(final, n);
      NamedFound(final, m);
      FinalMembers(groups, payloads, order, qualified, stable, n, m);
      FinalNamed(groups, payloads, order, qualified, stable, m);
      NamedFound(groups, n);
      NamedFound(groups, m);
    }
    FewerReferences(groups, final);
  }

  /** No group of the final list is new. */
  lemma FinalNamed(groups: seq<Group>, payloads: Payloads, order: seq<string>, qualified: set<string>, stable: set<string>, n: string)
    requires UniqueNames(groups) && Find(FinalGroups(groups, payloads, order, qualified, stable), n).Some?
    ensures Find(groups, n).Some? && n !in GoneWith(payloads, order, qualified)
  {
    var now, available := GroupsAfter(groups, payloads, order, qualified, stable), Surviving(payloads, order, qualified);
    FinalUnique(groups, payloads, order, qualified, stable);
    PassCarries(groups, payloads, order, qualified, stable);
    FindEither(RefreshedGroups(now, available), n);
    RefreshedFind(now, available, n);
    FindEither(now, n);
    assert HasOrigin(groups, Find(now, n).value, GoneWith(payloads, order, qualified));
  }

  // ----- nodes behind the regions -----

  /** What the rewrite leaves, with everything a surviving region needs. */
  ghost predicate Left(groups: seq<Group>, providers: map<string, Provider>, payloads: Payloads, order: seq<string>, qualified: set<string>,
                       stable: set<string>, upper: string -> string) {
    && UniqueNames(groups) && RegionsReady(groups, providers, payloads, order, upper)
    && AllDone(FinalGroups(groups, payloads, order, qualified, stable), payloads, order, qualified, stable)
  }

  lemma TierHasNode(search: Search, after: map<string, Provider>, final: seq<Group>, name: string, p: string, names: set<string>)
    requires UniqueNames(final) && TierShape(final, name, p) && name !in BUILTINS
    requires names != {} && p in after && names <= PayloadNames(after[p])
    requires FindLast(final, name).value.filter == Some(ExactFilter.Text(names).value)
    ensures HasNode(search, after, final, name)
  {
    FindEither(final, name);
    var g := FindLast(final, name).value;
    assert p in g.uses;
    ExactOffers(search, after, g, p, names);
    OfferIsNode(search, after, final, g);
  }

  /** A region whose tiers cover nodes its provider holds has a node in all three groups. */
  lemma TiersHaveNode(search: Search, after: map<string, Provider>, final: seq<Group>, r: string, p: string, t: Tiers, q: set<string>)
    requires UniqueNames(final) && RegionGroupsShape(final, r, p) && Tiered(final, r, t) && Covers(t, q)
    requires p in after && q <= PayloadNames(after[p])
    ensures HasNode(search, after, final, Stable(r)) && HasNode(search, after, final, Reserve(r)) && HasNode(search, after, final, Display(r))
  {
    InternalNames(r);
    TierHasNode(search, after, final, Stable(r), p, t.stable);
    TierHasNode(search, after, final, Reserve(r), p, t.reserve);
    FindEither(final, Display(r));
    MemberIsNode(search, after, final, FindLast(final, Display(r)).value, Stable(r));
  }

  /** The provider of a surviving region holds its qualified nodes. */
  lemma KeptPayload(providers: map<string, Provider>, payloads: Payloads, order: seq<string>, qualified: set<string>, upper: string -> string, r: string)
    requires Reads(providers, payloads, upper) && r in order && Survives(payloads, r, qualified)
    ensures var p, after := payloads[r].provider, ProvidersAfter(providers, payloads, order, qualified);
            p in after && PayloadNames(after[p]) == QualifiedIn(payloads[r], qualified)
  {
    ProviderAfter(providers, payloads, order, qualified, upper, r);
    KeptNames(payloads[r].payload, qualified);
  }

  /** What a surviving region looks like afterwards. */
  lemma RegionLeft(groups: seq<Group>, providers: map<string, Provider>, payloads: Payloads, order: seq<string>, qualified: set<string>,
                   stable: set<string>, upper: string -> string, r: string) returns (p: string)
    requires Left(groups, providers, payloads, order, qualified, stable, upper) && r in Surviving(payloads, order, qualified)
    ensures RegionGroupsShape(FinalGroups(groups, payloads, order, qualified, stable), r, p)
    ensures Tiered(FinalGroups(groups, payloads, order, qualified, stable), r, SplitTiers(QualifiedIn(payloads[r], qualified), stable))
    ensures p in ProvidersAfter(providers, payloads, order, qualified)
    ensures QualifiedIn(payloads[r], qualified) != {}
    ensures PayloadNames(ProvidersAfter(providers, payloads, order, qualified)[p]) == QualifiedIn(payloads[r], qualified)
  {
    p := ShapeParts(groups, providers, r, upper);
    FinalShape(groups, payloads, order, qualified, stable, r, p);
    RegionRead(providers, payloads, upper, r, p);
    KeptPayload(providers, payloads, order, qualified, upper, r);
    assert RegionDone(FinalGroups(groups, payloads, order, qualified, stable), payloads, r, qualified, stable);
  }

  /** The groups of a surviving region have a node. */
  lemma RegionHasNode(search: Search, groups: seq<Group>, providers: map<string, Provider>, payloads: Payloads, order: seq<string>,
                      qualified: set<string>, stable: set<string>, upper: string -> string, r: string)
    requires Left(groups, providers, payloads, order, qualified, stable, upper) && r in Surviving(payloads, order, qualified)
    ensures var final, after := FinalGroups(groups, payloads, order, qualified, stable), ProvidersAfter(providers, payloads, order, qualified);
            HasNode(search, after, final, Stable(r)) && HasNode(search, after, final, Reserve(r)) && HasNode(search, after, final, Display(r))
  {
    var p := RegionLeft(groups, providers, payloads, order, qualified, stable, upper, r);
    var q := QualifiedIn(payloads[r], qualified);
    FinalUnique(groups, payloads, order, qualified, stable);
    SplitCovers(q, stable);
    TiersHaveNode(search, ProvidersAfter(providers, payloads, order, qualified), FinalGroups(groups, payloads, order, qualified, stable),
                  r, p, SplitTiers(q, stable), q);
  }

  lemma ListsHaveNode(search: Search, after: map<string, Provider>, final: seq<Group>, available: seq<string>)
    requires UniqueNames(final) && available != [] && HasNode(search, after, final, Display(available[0]))
    requires FindLast(final, AUTO).Some? && FindLast(final, AUTO).value.proxies == Displays(available)
    requires FindLast(final, PUBLIC).Some? && FindLast(final, PUBLIC).value.proxies == [AUTO] + Displays(available) + ["DIRECT"]
    ensures HasNode(search, after, final, AUTO) && HasNode(search, after, final, PUBLIC)
  {
    FindEither(final, AUTO);
    FindEither(final, PUBLIC);
    InternalNames("");
    assert Displays(available)[0] == Display(available[0]);
    MemberIsNode(search, after, final, FindLast(final, AUTO).value, Display(available[0]));
    MemberIsNode(search, after, final, FindLast(final, PUBLIC).value, AUTO);
  }

  /** The automatic and the public group have one through a surviving region. */
  lemma RoutesHaveNode(search: Search, groups: seq<Group>, providers: map<string, Provider>, payloads: Payloads, order: seq<string>,
                       qualified: set<string>, stable: set<string>, upper: string -> string)
    requires Left(groups, providers, payloads, order, qualified, stable, upper) && Surviving(payloads, order, qualified) != []
    requires FindLast(groups, AUTO).Some? && FindLast(groups, PUBLIC).Some?
    ensures var final, after := FinalGroups(groups, payloads, order, qualified, stable), ProvidersAfter(providers, payloads, order, qualified);
            HasNode(search, after, final, AUTO) && HasNode(search, after, final, PUBLIC)
  {
    var available := Surviving(payloads, order, qualified);
    assert available[0] in available;
    RegionHasNode(search, groups, providers, payloads, order, qualified, stable, upper, available[0]);
    FinalUnique(groups, payloads, order, qualified, stable);
    assert PUBLIC in CANONICAL;
    FinalFind(groups, payloads, order, qualified, stable, AUTO);
    FinalFind(groups, payloads, order, qualified, stable, PUBLIC);
    ListsHaveNode(search, ProvidersAfter(providers, payloads, order, qualified), FinalGroups(groups, payloads, order, qualified, stable), available);
  }

  // ----- nodes elsewhere -----

  /** The groups that have a node through a region. */
  ghost predicate Regional(payloads: Payloads, order: seq<string>, qualified: set<string>, x: string) {
    x == AUTO || x == PUBLIC || exists r :: r in Surviving(payloads, order, qualified) && x in {Stable(r), Reserve(r), Display(r)}
  }

  lemma RegionalHasNode(search: Search, groups: seq<Group>, providers: map<string, Provider>, payloads: Payloads, order: seq<string>,
                        qualified: set<string>, stable: set<string>, upper: string -> string, x: string)
    requires Left(groups, providers, payloads, order, qualified, stable, upper) && Surviving(payloads, order, qualified) != []
    requires FindLast(groups, AUTO).Some? && FindLast(groups, PUBLIC).Some? && Regional(payloads, order, qualified, x)
    ensures HasNode(search, ProvidersAfter(providers, payloads, order, qualified), FinalGroups(groups, payloads, order, qualified, stable), x)
  {
    if x == AUTO || x == PUBLIC {
      RoutesHaveNode(search, groups, providers, payloads, order, qualified, stable, upper);
    } else {
      var r :| r in Surviving(payloads, order, qualified) && x in {Stable(r), Reserve(r), Display(r)};
      RegionHasNode(search, groups, providers, payloads, order, qualified, stable, upper, r);
    }
  }

  /** Another group that stays is the one it was without its removed members. */
  lemma OtherFinal(groups: seq<Group>, payloads: Payloads, order: seq<string>, qualified: set<string>, stable: set<string>, x: string)
    requires UniqueNames(groups) && x !in GoneWith(payloads, order, qualified) && !Regional(payloads, order, qualified, x)
    ensures Thinned(Find(groups, x), Find(FinalGroups(groups, payloads, order, qualified, stable), x), GoneWith(payloads, order, qualified))
  {
    var now, available := GroupsAfter(groups, payloads, order, qualified, stable), Surviving(payloads, order, qualified);
    forall k | 0 <= k < |order| && Survives(payloads, order[k], qualified) ensures x !in TierNames(order[k]) { assert order[k] in available; }
    OtherThinned(groups, payloads, order, qualified, stable, x);
    FinalUnique(groups, payloads, order, qualified, stable);
    FindEither(RefreshedGroups(now, available), x);
    FindEither(groups, x);
    RefreshElsewhere(now, available, x);
  }

  lemma {:induction false} Untouched(providers: map<string, Provider>, payloads: Payloads, order: seq<string>, qualified: set<string>, p: string)
    requires p in providers && forall r :: r in order && r in payloads ==> payloads[r].provider != p
    ensures p in ProvidersAfter(providers, payloads, order, qualified) && ProvidersAfter(providers, payloads, order, qualified)[p] == providers[p]
  {
    if order != [] {
      var k := |order| - 1;
      assert order == order[..k] + [order[k]];
      Untouched(providers, payloads, order[..k], qualified, p);
    }
  }

  /** An unfiltered group over a surviving provider takes its nodes. */
  lemma OverSurvivor(search: Search, groups: seq<Group>, providers: map<string, Provider>, payloads: Payloads, order: seq<string>,
                     qualified: set<string>, upper: string -> string, final: seq<Group>, h: Group, r: string)
    requires RegionsReady(groups, providers, payloads, order, upper) && r in order && Survives(payloads, r, qualified)
    requires payloads[r].provider in h.uses && Unfiltered(h) && Find(final, h.name) == Some(h) && h.name !in BUILTINS
    ensures HasNode(search, ProvidersAfter(providers, payloads, order, qualified), final, h.name)
  {
    var after := ProvidersAfter(providers, payloads, order, qualified);
    KeptPayload(providers, payloads, order, qualified, upper, r);
    UnfilteredOffers(search, after, h, payloads[r].provider);
    OfferIsNode(search, after, final, h);
  }

  /** A group outside the regions keeps its members that have a node. */
  lemma OtherMember(search: Search, groups: seq<Group>, providers: map<string, Provider>, payloads: Payloads, order: seq<string>, qualified: set<string>,
                    g: Group, m: string)
    requires RegionsWired(groups, payloads, order, qualified) && g in groups && g.name !in GoneWith(payloads, order, qualified)
    requires g.name != AUTO && g.name != PUBLIC && m in g.proxies && HasNode(search, providers, groups, m)
    ensures m in GroupNames(groups) - GoneWith(payloads, order, qualified)
  {
    NodeIsGroup(search, providers, groups, m);
    forall k | 0 <= k < |order| && Vanishes(payloads, order[k], qualified) ensures m !in RegionGroups(order[k]) {
      assert order[k] in order;
    }
  }

  /** A provider of a group outside the regions is untouched, or the group takes all it has left. */
  lemma OtherProviders(groups: seq<Group>, providers: map<string, Provider>, payloads: Payloads, order: seq<string>, qualified: set<string>, g: Group)
    requires ProvidersWired(groups, payloads, order, qualified) && g in groups && g.name !in GoneWith(payloads, order, qualified)
    requires !Regional(payloads, order, qualified, g.name)
    ensures forall r :: r in order && r in payloads && payloads[r].provider in g.uses ==> Survives(payloads, r, qualified) && Unfiltered(g)
  {
    forall r | r in order && r in payloads && payloads[r].provider in g.uses ensures Survives(payloads, r, qualified) && Unfiltered(g) {
      var k :| 0 <= k < |order| && order[k] == r;
      if Survives(payloads, r, qualified) { assert r in Surviving(payloads, order, qualified); }
    }
  }

  /** Every group that stays keeps its way to a node, or has a node at once. */
  lemma FinalWay(search: Search, groups: seq<Group>, providers: map<string, Provider>, payloads: Payloads, order: seq<string>,
                 qualified: set<string>, stable: set<string>, upper: string -> string, x: string)
    requires Left(groups, providers, payloads, order, qualified, stable, upper) && Surviving(payloads, order, qualified) != []
    requires FindLast(groups, AUTO).Some? && FindLast(groups, PUBLIC).Some?
    requires ProvidersWired(groups, payloads, order, qualified) && RegionsWired(groups, payloads, order, qualified)
    requires x in GroupNames(groups) - GoneWith(payloads, order, qualified) && IsGroup(groups, x)
    ensures WayKept(search, providers, groups, ProvidersAfter(providers, payloads, order, qualified), FinalGroups(groups, payloads, order, qualified, stable),
                    GroupNames(groups) - GoneWith(payloads, order, qualified), x)
  {
    var final, after := FinalGroups(groups, payloads, order, qualified, stable), ProvidersAfter(providers, payloads, order, qualified);
    var g := Find(groups, x).value;
    if Regional(payloads, order, qualified, x) {
      RegionalHasNode(search, groups, providers, payloads, order, qualified, stable, upper, x);
    } else {
      OtherFinal(groups, payloads, order, qualified, stable, x);
      OtherProviders(groups, providers, payloads, order, qualified, g);
      var h := Find(final, x).value;
      if r :| r in order && r in payloads && payloads[r].provider in g.uses {
        OverSurvivor(search, groups, providers, payloads, order, qualified, upper, final, h, r);
      } else {
        forall p | p in g.uses && p in providers ensures p in after && PayloadNames(providers[p]) <= PayloadNames(after[p]) {
          Untouched(providers, payloads, order, qualified, p);
        }
        OffersKept(search, providers, after, g);
        if NodesOffered(search, providers, g) != {} { ThinnedOffers(search, providers, after, g, h); OfferIsNode(search, after, final, h); }
        forall m | m in g.proxies && HasNode(search, providers, groups, m) ensures m in GroupNames(groups) - GoneWith(payloads, order, qualified) {
          OtherMember(search, groups, providers, payloads, order, qualified, g, m);
        }
      }
    }
  }

  lemma ThinnedOffers(search: Search, providers: map<string, Provider>, after: map<string, Provider>, g: Group, h: Group)
    requires h == g.(proxies := h.proxies) && NodesOffered(search, providers, g) <= NodesOffered(search, after, g) && NodesOffered(search, providers, g) != {}
    ensures NodesOffered(search, after, h) != {}
  {
  }

  lemma RejectStays(payloads: Payloads, order: seq<string>, qualified: set<string>)
    ensures "REJECT" !in GoneWith(payloads, order, qualified)
  {
    forall r ensures "REJECT" !in RegionGroups(r) {
      assert Display(r)[0] == '网' && Stable(r)[0] == '_' && Reserve(r)[0] == '_' && Scaffold(r)[0] == '_';
    }
  }

  lemma FinalPopulated(search: Search, groups: seq<Group>, providers: map<string, Provider>, payloads: Payloads, order: seq<string>,
                       qualified: set<string>, stable: set<string>, upper: string -> string)
    requires Left(groups, providers, payloads, order, qualified, stable, upper) && Surviving(payloads, order, qualified) != []
    requires FindLast(groups, AUTO).Some? && FindLast(groups, PUBLIC).Some? && Populated(search, providers, groups)
    requires ProvidersWired(groups, payloads, order, qualified) && RegionsWired(groups, payloads, order, qualified)
    ensures Populated(search, ProvidersAfter(providers, payloads, order, qualified), FinalGroups(groups, payloads, order, qualified, stable))
  {
    var final, after := FinalGroups(groups, payloads, order, qualified, stable), ProvidersAfter(providers, payloads, order, qualified);
    var kept := GroupNames(groups) - GoneWith(payloads, order, qualified);
    FinalUnique(groups, payloads, order, qualified, stable);
    RejectStays(payloads, order, qualified);
    forall x | x in kept && IsGroup(groups, x) ensures WayKept(search, providers, groups, after, final, kept, x) {
      FinalWay(search, groups, providers, payloads, order, qualified, stable, upper, x);
    }
    forall h | h in final && Measured(h) ensures EmptyStable(h) || HasNode(search, after, final, h.name) {
      FoundOne(final, h);
      FinalNamed(groups, payloads, order, qualified, stable, h.name);
      if Regional(payloads, order, qualified, h.name) {
        RegionalHasNode(search, groups, providers, payloads, order, qualified, stable, upper, h.name);
      } else {
        OtherFinal(groups, payloads, order, qualified, stable, h.name);
        var g := Find(groups, h.name).value;
        NamedFound(groups, h.name);
        if HasNode(search, providers, groups, g.name) {
          NodeKept(search, providers, groups, after, final, kept, g.name);
        } else {
          StillEmpty(g, h, GoneWith(payloads, order, qualified));
        }
      }
    }
  }

  /** An explicitly empty tier outside the regions stays one. */
  lemma StillEmpty(g: Group, h: Group, gone: set<string>)
    requires EmptyStable(g) && Thinned(Some(g), Some(h), gone) && "REJECT" !in gone
    ensures EmptyStable(h)
  {
    KeepAll(g.proxies, gone);
  }

  // ----- the rewrite goes through -----

  lemma SurfacedLists(groups: seq<Group>, providers: map<string, Provider>, texts: Texts)
    requires UniqueNames(groups) && Surfaced(groups, providers, texts)
    ensures ListedBefore(groups, RuntimeRegions(groups, texts.fold)) && FindLast(groups, AUTO).Some? && FindLast(groups, PUBLIC).Some?
  {
    FindEither(groups, AUTO);
    FindEither(groups, PUBLIC);
  }

  /** Before the routes are refreshed every region is dealt with, and afterwards it still is. */
  lemma FinalDone(groups: seq<Group>, providers: map<string, Provider>, payloads: Payloads, order: seq<string>, qualified: set<string>, stable: set<string>)
    requires StepsGo(groups, providers, payloads, order, qualified, stable) && forall r :: r in order ==> IsRegion(r)
    ensures AllDone(FinalGroups(groups, payloads, order, qualified, stable), payloads, order, qualified, stable)
  {
    GroupsAfterDone(groups, providers, payloads, order, qualified, stable);
    RefreshDone(GroupsAfter(groups, payloads, order, qualified, stable), payloads, order, qualified, stable);
  }

  lemma FinalLive(search: Search, groups: seq<Group>, providers: map<string, Provider>, payloads: Payloads, order: seq<string>,
                  qualified: set<string>, stable: set<string>, upper: string -> string)
    requires UniqueNames(groups) && RegionsReady(groups, providers, payloads, order, upper)
    requires StepsGo(groups, providers, payloads, order, qualified, stable) && Surviving(payloads, order, qualified) != []
    requires ListedBefore(groups, order) && FindLast(groups, AUTO).Some? && FindLast(groups, PUBLIC).Some? && Live(search, providers, groups)
    requires ProvidersWired(groups, payloads, order, qualified) && RegionsWired(groups, payloads, order, qualified)
    ensures Live(search, ProvidersAfter(providers, payloads, order, qualified), FinalGroups(groups, payloads, order, qualified, stable))
  {
    FinalDone(groups, providers, payloads, order, qualified, stable);
    FinalAcyclic(groups, payloads, order, qualified, stable);
    FinalPopulated(search, groups, providers, payloads, order, qualified, stable, upper);
  }

  lemma ReadyGoes(groups: seq<Group>, providers: map<string, Provider>, ruleProviders: map<string, RuleProvider>, rules: seq<Rule>,
                  payloads: Payloads, order: seq<string>, qualified: set<string>, stable: set<string>, texts: Texts)
    requires Ready(groups, providers, ruleProviders, rules, qualified, texts) && Surviving(payloads, order, qualified) != []
    requires payloads == InventoryOf(providers, texts.upper) && order == RuntimeRegions(groups, texts.fold)
    ensures payloads != map[] && PayloadsOf(providers, Sorted(providers.Keys), texts.upper) == Ok(payloads)
    ensures StepsGo(groups, providers, payloads, order, qualified, stable) && Finishes(groups, providers, payloads, order, qualified, stable, texts)
    ensures Structured(ProvidersAfter(providers, payloads, order, qualified), FinalGroups(groups, payloads, order, qualified, stable), ruleProviders, rules)
    ensures Live(texts.search, ProvidersAfter(providers, payloads, order, qualified), FinalGroups(groups, payloads, order, qualified, stable))
  {
    WiredNoStranger(groups, payloads, order, qualified);
    RegionsAreReady(groups, providers, texts);
    AllStepsGo(groups, providers, payloads, order, |order|, qualified, stable, texts.upper);
    assert order[..|order|] == order;
    RefreshGoes(groups, providers, payloads, order, qualified, stable, texts);
    SurfaceKept(groups, providers, payloads, qualified, stable, texts);
    FinalStructured(groups, providers, ruleProviders, rules, payloads, order, qualified, stable, texts.upper);
    SurfacedLists(groups, providers, texts);
    FinalLive(texts.search, groups, providers, payloads, order, qualified, stable, texts.upper);
  }

  lemma NoneSurvives(payloads: Payloads, order: seq<string>, qualified: set<string>)
    ensures Surviving(payloads, order, qualified) == [] <==> forall r :: r in order ==> !Survives(payloads, r, qualified)
  {
    var available := Surviving(payloads, order, qualified);
    if available != [] { assert available[0] in available; }
  }

  lemma GoesMeansOk(groups: seq<Group>, providers: map<string, Provider>, ruleProviders: map<string, RuleProvider>, rules: seq<Rule>,
                    qualified: set<string>, stable: set<string>, texts: Texts)
    requires Goes(groups, providers, ruleProviders, rules, qualified, stable, texts)
    ensures Surviving(InventoryOf(providers, texts.upper), RuntimeRegions(groups, texts.fold), qualified) != []
  {
  }

  /** The rewrite of a generated candidate goes through exactly when some region keeps a node. */
  lemma GoesExactly(groups: seq<Group>, providers: map<string, Provider>, ruleProviders: map<string, RuleProvider>, rules: seq<Rule>,
                    qualified: set<string>, stable: set<string>, texts: Texts)
    requires Ready(groups, providers, ruleProviders, rules, qualified, texts)
    ensures Goes(groups, providers, ruleProviders, rules, qualified, stable, texts)
            <==> exists r :: r in RuntimeRegions(groups, texts.fold) && Survives(InventoryOf(providers, texts.upper), r, qualified)
  {
    var payloads, order := InventoryOf(providers, texts.upper), RuntimeRegions(groups, texts.fold);
    NoneSurvives(payloads, order, qualified);
    if Surviving(payloads, order, qualified) != [] {
      ReadyGoes(groups, providers, ruleProviders, rules, payloads, order, qualified, stable, texts);
    } else if Goes(groups, providers, ruleProviders, rules, qualified, stable, texts) {
      GoesMeansOk(groups, providers, ruleProviders, rules, qualified, stable, texts);
    }
  }
}
