/** The public surface of regional browsing, and the nodes it reaches. */
module BrowsingSurface {
  import opened Results
  import opened Routing
  import opened BrowsingRegions
  import opened BrowsingTiers
  import opened BrowsingRewrite
  import ExactFilter

  const CANONICAL: set<string> := {"代理选择", PUBLIC, AI_GROUP}

  predicate Https(test: map<string, string>) { "url" in test && "https://" <= test["url"] }

  predicate PositiveNumber(s: string) { s != "" && (forall c :: c in s ==> '0' <= c <= '9') && exists c :: c in s && c != '0' }

  predicate CanonicalShape(g: Group) { !g.hidden && g.kind == "select" && g.uses == [] && g.filter.None? }

  predicate AutoShape(g: Group, shown: seq<string>) {
    && g.kind == "url-test" && g.hidden && "tolerance" in g.test && PositiveNumber(g.test["tolerance"])
    && g.uses == [] && shown != [] && g.proxies == shown && Https(g.test)
  }

  predicate TierShape(groups: seq<Group>, name: string, provider: string) {
    var g := FindLast(groups, name);
    g.Some? && g.value.kind == "url-test" && g.value.hidden && g.value.uses == [provider] && Https(g.value.test)
  }

  function ProvidersOf(providers: map<string, Provider>, region: string, upper: string -> string): set<string> {
    set p | p in providers && ProviderRegion(p, upper) == Some(region)
  }

  /** The region group stays inside its region, and its tiers use the one provider of the region. */
  predicate RegionShape(groups: seq<Group>, providers: map<string, Provider>, region: string, upper: string -> string) {
    var g := FindLast(groups, Display(region));
    && g.Some? && g.value.kind == "fallback" && g.value.hidden && g.value.proxies == [Stable(region), Reserve(region)] && g.value.uses == []
    && exists p :: p in providers && ProvidersOf(providers, region, upper) == {p}
                   && TierShape(groups, Stable(region), p) && TierShape(groups, Reserve(region), p)
  }

  /** `validate_browsing_public_surface` finds nothing to report. */
  predicate SurfaceValid(groups: seq<Group>, providers: map<string, Provider>, texts: Texts) {
    var public, auto := FindLast(groups, PUBLIC), FindLast(groups, AUTO);
    public.None? ||
    var regions := RuntimeRegions(groups, texts.fold);
    var shown := Displays(regions);
    && (forall n :: n in CANONICAL && FindLast(groups, n).Some? ==> CanonicalShape(FindLast(groups, n).value))
    && public.value.proxies == [AUTO] + shown + ["DIRECT"]
    && (forall m :: m in public.value.proxies ==> !("[BROWSING:" <= m))
    && auto.Some? && AutoShape(auto.value, shown)
    && forall r :: r in regions ==> RegionShape(groups, providers, r, texts.upper)
  }

  // ----- reachability -----

  lemma FindEither(groups: seq<Group>, name: string)
    requires UniqueNames(groups)
    ensures FindLast(groups, name) == Find(groups, name)
  {
    if Find(groups, name).Some? {
      var i :| 0 <= i < |groups| && groups[i] == Find(groups, name).value;
      FindLastUnique(groups, i);
    }
  }

  lemma NotBuiltin(name: string)
    requires name != "" && name[0] !in {'D', 'R', 'P', 'C'}
    ensures name !in BUILTINS
  {
  }

  lemma InternalNames(region: string)
    ensures Stable(region) !in BUILTINS && Reserve(region) !in BUILTINS && Display(region) !in BUILTINS
    ensures AUTO !in BUILTINS && PUBLIC !in BUILTINS
  {
    assert Stable(region)[0] == '_' && Reserve(region)[0] == '_' && Display(region)[0] == '网' && AUTO[0] == '网' && PUBLIC[0] == '网';
    NotBuiltin(Stable(region));
    NotBuiltin(Reserve(region));
    NotBuiltin(Display(region));
    NotBuiltin(AUTO);
    NotBuiltin(PUBLIC);
  }

  /** A tier with an exact filter reaches exactly the named nodes. */
  lemma TierLeaves(providers: map<string, Provider>, groups: seq<Group>, name: string, provider: string, nodes: set<string>, leaf: Leaf)
    requires name !in BUILTINS && Find(groups, name).Some? && provider in providers
    requires var g := Find(groups, name).value; g.proxies == [] && g.uses == [provider]
    requires nodes != {} && nodes <= PayloadNames(providers[provider])
    requires Find(groups, name).value.filter == Some(ExactFilter.Text(nodes).value)
    ensures IsLeaf(providers, groups, name, leaf) <==> leaf.Node? && leaf.name in nodes
  {
    ProviderOnlyLeaves(providers, groups, name, leaf);
    var g := Find(groups, name).value;
    assert leaf in ProviderLeaves(providers, g) <==>
           leaf.Node? && leaf.name in PayloadNames(providers[provider]) && Admits(g.filter, leaf.name);
    ExactFilter.SearchExact(nodes, leaf.name);
    ExactFilter.TextNonempty(nodes);
  }

  /** The region's provider holds exactly `qualified`. */
  ghost predicate Holds(providers: map<string, Provider>, region: string, upper: string -> string, qualified: set<string>) {
    forall p :: p in ProvidersOf(providers, region, upper) ==> PayloadNames(providers[p]) == qualified
  }

  /** A region whose tiers cover its qualified nodes reaches exactly those. */
  lemma RegionLeaves(providers: map<string, Provider>, groups: seq<Group>, region: string, upper: string -> string, t: Tiers, qualified: set<string>, leaf: Leaf)
    requires UniqueNames(groups) && RegionShape(groups, providers, region, upper) && BareTiers(groups)
    requires Tiered(groups, region, t) && Covers(t, qualified) && Holds(providers, region, upper, qualified)
    ensures IsLeaf(providers, groups, Display(region), leaf) <==> leaf.Node? && leaf.name in qualified
  {
    InternalNames(region);
    FindEither(groups, Display(region));
    FindEither(groups, Stable(region));
    FindEither(groups, Reserve(region));
    var p :| p in providers && ProvidersOf(providers, region, upper) == {p}
             && TierShape(groups, Stable(region), p) && TierShape(groups, Reserve(region), p);
    assert p in ProvidersOf(providers, region, upper);
    TierLeaves(providers, groups, Stable(region), p, t.stable, leaf);
    TierLeaves(providers, groups, Reserve(region), p, t.reserve, leaf);
    LeafStep(providers, groups, Display(region), leaf);
  }

  // ----- the checks, one by one -----

  ghost predicate IsPublicSelect(groups: seq<Group>, name: string) {
    var g := FindLast(groups, name);
    g.Some? ==> !g.value.hidden && g.value.kind == "select" && g.value.uses == [] && g.value.filter.None?
  }

  ghost predicate IsTier(g: Option<Group>, provider: string) {
    && g.Some? && g.value.kind == "url-test" && g.value.hidden && g.value.uses == [provider]
    && "url" in g.value.test && "https://" <= g.value.test["url"]
  }

  /** A hidden fallback over the two tiers, both over the one provider of the region. */
  ghost predicate IsRegionGroup(groups: seq<Group>, providers: map<string, Provider>, r: string, upper: string -> string) {
    && FindLast(groups, Display(r)).Some? && FindLast(groups, Display(r)).value.kind == "fallback" && FindLast(groups, Display(r)).value.hidden
    && FindLast(groups, Display(r)).value.proxies == ["__CR_BROWSING_" + r + "_STABLE_AUTO", "__CR_BROWSING_" + r + "_RESERVE_AUTO"]
    && FindLast(groups, Display(r)).value.uses == []
    && exists p :: p in providers && (forall q :: q in providers && ProviderRegion(q, upper) == Some(r) <==> q == p)
                   && IsTier(FindLast(groups, "__CR_BROWSING_" + r + "_STABLE_AUTO"), p) && IsTier(FindLast(groups, "__CR_BROWSING_" + r + "_RESERVE_AUTO"), p)
  }

  /** The hidden url-test over the regions. */
  ghost predicate IsAuto(g: Group, shown: seq<string>) {
    && g.kind == "url-test" && g.hidden && g.uses == [] && |shown| > 0 && g.proxies == shown
    && "tolerance" in g.test && PositiveNumber(g.test["tolerance"]) && "url" in g.test && "https://" <= g.test["url"]
  }

  lemma RegionExactly(groups: seq<Group>, providers: map<string, Provider>, r: string, upper: string -> string)
    ensures RegionShape(groups, providers, r, upper) <==> IsRegionGroup(groups, providers, r, upper)
  {
    forall p ensures ProvidersOf(providers, r, upper) == {p} <==> forall q :: q in providers && ProviderRegion(q, upper) == Some(r) <==> q == p {
      if forall q :: q in providers && ProviderRegion(q, upper) == Some(r) <==> q == p { assert ProvidersOf(providers, r, upper) == {p}; }
      if ProvidersOf(providers, r, upper) == {p} {
        forall q ensures q in providers && ProviderRegion(q, upper) == Some(r) <==> q == p { assert q in ProvidersOf(providers, r, upper) <==> q == p; }
      }
    }
  }

  /** The surface is valid without a public group; with one, exactly when the public names are plain selects and the routes as declared. */
  lemma SurfaceExactly(groups: seq<Group>, providers: map<string, Provider>, texts: Texts)
    ensures var public, auto, regions := FindLast(groups, "网页浏览"), FindLast(groups, "网页自动"), RuntimeRegions(groups, texts.fold);
            SurfaceValid(groups, providers, texts)
            <==> public.None?
                 || (&& IsPublicSelect(groups, "代理选择") && IsPublicSelect(groups, "网页浏览") && IsPublicSelect(groups, "人工智能")
                     && public.value.proxies == ["网页自动"] + Displays(regions) + ["DIRECT"]
                     && (forall m :: m in public.value.proxies ==> !("[BROWSING:" <= m))
                     && auto.Some? && IsAuto(auto.value, Displays(regions))
                     && forall r :: r in regions ==> IsRegionGroup(groups, providers, r, texts.upper))
  {
    assert PUBLIC == "网页浏览" && AUTO == "网页自动" && AI_GROUP == "人工智能";
    forall r ensures RegionShape(groups, providers, r, texts.upper) <==> IsRegionGroup(groups, providers, r, texts.upper) {
      RegionExactly(groups, providers, r, texts.upper);
    }
    PublicNames(groups);
  }

  lemma PublicNames(groups: seq<Group>)
    ensures (forall n :: n in CANONICAL && FindLast(groups, n).Some? ==> CanonicalShape(FindLast(groups, n).value))
            <==> IsPublicSelect(groups, "代理选择") && IsPublicSelect(groups, "网页浏览") && IsPublicSelect(groups, "人工智能")
  {
    assert forall n :: n in CANONICAL <==> n == "代理选择" || n == "网页浏览" || n == "人工智能";
  }
}
