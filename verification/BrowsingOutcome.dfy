/** What the browsing rewrite and the history step leave, read off the final configuration. */
module BrowsingOutcome {
  import Ordering
  import opened Results
  import opened Routing
  import opened Sifting
  import opened BrowsingRegions
  import opened BrowsingTiers
  import opened BrowsingRewrite
  import opened BrowsingSurface
  import opened BrowsingQualification
  import opened BrowsingHistory
  import opened BrowsingValid
  import opened BrowsingLive
  import ExactFilter

  // ----- which node is in which tier -----

  ghost predicate StableTakes(groups: seq<Group>, r: string, n: string) {
    var g := FindLast(groups, "__CR_BROWSING_" + r + "_STABLE_AUTO");
    g.Some? && g.value.filter.Some? && Admits(g.value.filter, n)
  }

  ghost predicate ReserveTakes(groups: seq<Group>, r: string, n: string) {
    var g := FindLast(groups, "__CR_BROWSING_" + r + "_RESERVE_AUTO");
    g.Some? && g.value.filter.Some? && Admits(g.value.filter, n)
  }

  /** The wanted nodes of `q` in the first tier and the others in the second; a tier without such a node takes all of `q`. */
  ghost predicate TiersBy(groups: seq<Group>, r: string, q: set<string>, wanted: set<string>) {
    && (forall n :: StableTakes(groups, r, n) <==> n in q && ((exists m :: m in q && m in wanted) ==> n in wanted))
    && (forall n :: ReserveTakes(groups, r, n) <==>
                    n in q && ((exists m :: m in q && m in wanted) && (exists m :: m in q && m !in wanted) ==> n !in wanted))
  }

  /** The qualified nodes of a region. */
  function Passing(e: Inventory, qualified: set<string>): set<string> { set x | x in e.payload && x.name in qualified :: x.name }

  lemma PassingIs(e: Inventory, qualified: set<string>)
    ensures QualifiedIn(e, qualified) == Passing(e, qualified)
  {
  }

  lemma TextAdmits(names: set<string>, n: string)
    requires names != {}
    ensures Admits(Some(ExactFilter.Text(names).value), n) <==> n in names
  {
    ExactFilter.SearchExact(names, n);
    ExactFilter.TextNonempty(names);
  }

  lemma TiersTake(groups: seq<Group>, r: string, t: Tiers, n: string)
    requires Tiered(groups, r, t)
    ensures StableTakes(groups, r, n) <==> n in t.stable
    ensures ReserveTakes(groups, r, n) <==> n in t.reserve
  {
    TextAdmits(t.stable, n);
    TextAdmits(t.reserve, n);
  }

  lemma SplitExactly(groups: seq<Group>, r: string, q: set<string>, stable: set<string>)
    requires Tiered(groups, r, SplitTiers(q, stable))
    ensures TiersBy(groups, r, q, stable)
  {
    forall n ensures StableTakes(groups, r, n) <==> n in SplitTiers(q, stable).stable { TiersTake(groups, r, SplitTiers(q, stable), n); }
    forall n ensures ReserveTakes(groups, r, n) <==> n in SplitTiers(q, stable).reserve { TiersTake(groups, r, SplitTiers(q, stable), n); }
    ChosenBy(q, stable);
  }

  lemma ChosenBy(q: set<string>, wanted: set<string>)
    ensures var some, others := exists m :: m in q && m in wanted, exists m :: m in q && m !in wanted;
            forall n :: && (n in SplitTiers(q, wanted).stable <==> n in q && (some ==> n in wanted))
                        && (n in SplitTiers(q, wanted).reserve <==> n in q && (some && others ==> n !in wanted))
  {
    var some := exists m :: m in q && m in wanted;
    assert some <==> wanted * q != {} by {
      if m :| m in q && m in wanted { assert m in wanted * q; }
      if wanted * q != {} { var m :| m in wanted * q; }
    }
    var effective := if wanted * q != {} then wanted * q else q;
    if some { RestBy(q, wanted); }
  }

  lemma RestBy(q: set<string>, wanted: set<string>)
    ensures q - wanted * q != {} <==> exists m :: m in q && m !in wanted
  {
    if m :| m in q && m !in wanted { assert m in q - wanted * q; }
    if q - wanted * q != {} { var m :| m in q - wanted * q; }
  }

  /** After the rewrite, a region with a stable node has its stable nodes in the first tier and the others, if any, in the second. */
  lemma RewrittenTiers(config: Config, before: seq<Group>, providers: map<string, Provider>, payloads: Payloads, report: Report,
                       qualified: set<string>, stable: set<string>, texts: Texts, r: string)
    requires Rewritten(config, before, providers, payloads, report, qualified, stable, texts) && r in report.available
    ensures r in payloads && TiersBy(config.groups, r, Passing(payloads[r], qualified), stable)
  {
    assert RegionDone(config.groups, payloads, r, qualified, stable);
    PassingIs(payloads[r], qualified);
    SplitExactly(config.groups, r, QualifiedIn(payloads[r], qualified), stable);
  }

  /** Three nodes at least that passed, are stable and are preferred. */
  ghost predicate ThreePreferred(q: set<string>, stable: set<string>, preferred: set<string>) {
    exists a, b, c :: a != b && a != c && b != c && {a, b, c} <= q && {a, b, c} <= stable && {a, b, c} <= preferred
  }

  lemma ThreeExactly(q: set<string>, stable: set<string>, preferred: set<string>)
    ensures |Preferred(q, stable, preferred)| >= MIN_PREFERRED <==> ThreePreferred(q, stable, preferred)
  {
    var p := Preferred(q, stable, preferred);
    if |p| >= MIN_PREFERRED {
      var a :| a in p;
      assert |p - {a}| == |p| - 1;
      var b :| b in p - {a};
      assert |p - {a} - {b}| == |p| - 2;
      var c :| c in p - {a} - {b};
      assert {a, b, c} <= p;
    }
    if a, b, c :| a != b && a != c && b != c && {a, b, c} <= q && {a, b, c} <= stable && {a, b, c} <= preferred {
      assert {a, b, c} <= p;
      AtMost({a, b, c}, p);
    }
  }

  lemma AtMost(s: set<string>, t: set<string>)
    requires s <= t
    ensures |s| <= |t|
  {
    assert t == s + (t - s);
  }

  lemma HistoryExactly(groups: seq<Group>, r: string, q: set<string>, stable: set<string>, preferred: set<string>)
    requires Tiered(groups, r, HistoryTiers(q, stable, preferred))
    ensures if ThreePreferred(q, stable, preferred) then TiersBy(groups, r, q, stable * preferred) else TiersBy(groups, r, q, stable)
  {
    ThreeExactly(q, stable, preferred);
    if ThreePreferred(q, stable, preferred) {
      var p := Preferred(q, stable, preferred);
      SomePreferred(q, stable, preferred);
      assert p == (stable * preferred) * q;
      assert p != {};
      assert HistoryTiers(q, stable, preferred) == SplitTiers(q, stable * preferred);
      SplitExactly(groups, r, q, stable * preferred);
    } else {
      SplitExactly(groups, r, q, stable);
    }
  }

  /**
   After the history step as well: with three preferred stable nodes the preferred stable ones are in the first tier and all
   others in the second; otherwise the tiers are by stability alone.
   */
  lemma PreferredTiers(providers: map<string, Provider>, payloads: Payloads, order: seq<string>, groups: seq<Group>, later: Payloads, final: seq<Group>,
                       qualified: set<string>, stable: set<string>, preferred: set<string>, texts: Texts, r: string)
    requires Reads(providers, payloads, texts.upper) && r in order && Survives(payloads, r, qualified) && r in RuntimeRegions(groups, texts.fold)
    requires var after := ProvidersAfter(providers, payloads, order, qualified);
             && RegionShape(groups, after, r, texts.upper)
             && PayloadsOf(after, Ordering.Sorted(after.Keys), texts.upper) == Ok(later) && Reads(after, later, texts.upper)
    requires RegionDone(groups, payloads, r, qualified, stable)
    requires var listed := RuntimeRegions(groups, texts.fold); HistoryAll(final, groups, later, listed, listed, qualified, stable, preferred)
    ensures var q := Passing(payloads[r], qualified);
            if ThreePreferred(q, stable, preferred) then TiersBy(final, r, q, stable * preferred) else TiersBy(final, r, q, stable)
  {
    HistoryKeepsUnion(providers, payloads, order, groups, later, final, qualified, stable, preferred, texts, r);
    PassingIs(payloads[r], qualified);
    HistoryExactly(final, r, QualifiedIn(payloads[r], qualified), stable, preferred);
  }

  // ----- the counts -----

  /** What the two filters of a region take. */
  ghost predicate Taken(groups: seq<Group>, r: string, first: set<string>, second: set<string>) {
    (forall n :: n in first <==> StableTakes(groups, r, n)) && (forall n :: n in second <==> ReserveTakes(groups, r, n))
  }

  /** The sizes of a region's nodes and of what its two filters take. */
  ghost predicate SizesOf(c: Counts, e: Inventory, q: set<string>, stable: set<string>, first: set<string>, second: set<string>) {
    && c.tested == |e.payload| && c.qualified == |q| && c.stable == |set n | n in q && n in stable| && c.reserve == |set n | n in q && n !in stable|
    && c.stableAuto == |first| && c.reserveAuto == |second|
  }

  lemma TiersCollect(groups: seq<Group>, r: string, t: Tiers, first: set<string>, second: set<string>)
    requires Tiered(groups, r, t) && Taken(groups, r, first, second)
    ensures first == t.stable && second == t.reserve
  {
    forall n ensures (n in first <==> n in t.stable) && (n in second <==> n in t.reserve) { TiersTake(groups, r, t, n); }
  }

  lemma SizesFor(e: Inventory, qualified: set<string>, stable: set<string>)
    requires QualifiedIn(e, qualified) != {}
    ensures var q, t := Passing(e, qualified), SplitTiers(QualifiedIn(e, qualified), stable);
            SizesOf(CountsFor(e, qualified, stable), e, q, stable, t.stable, t.reserve)
  {
    var q := Passing(e, qualified);
    PassingIs(e, qualified);
    assert (set n | n in q && n in stable) == stable * q && (set n | n in q && n !in stable) == q - stable * q;
  }

  lemma ReportedFor(config: Config, before: seq<Group>, providers: map<string, Provider>, payloads: Payloads, report: Report,
                    qualified: set<string>, stable: set<string>, texts: Texts)
    requires Rewritten(config, before, providers, payloads, report, qualified, stable, texts)
    ensures var order := RuntimeRegions(before, texts.fold);
            && report.available == Surviving(payloads, order, qualified) && report.removed == Vanishing(payloads, order, qualified)
            && Counted(report.regions, payloads, order, qualified, stable) && AllDone(config.groups, payloads, order, qualified, stable)
  {
  }

  /** The sizes a region reports are those of its payload, of its qualified and stable nodes, and of what its two filters take. */
  lemma CountsExactly(config: Config, before: seq<Group>, providers: map<string, Provider>, payloads: Payloads, report: Report,
                      qualified: set<string>, stable: set<string>, texts: Texts, r: string, first: set<string>, second: set<string>)
    requires Rewritten(config, before, providers, payloads, report, qualified, stable, texts) && r in report.available
    requires Taken(config.groups, r, first, second)
    ensures r in payloads && r in report.regions && SizesOf(report.regions[r], payloads[r], Passing(payloads[r], qualified), stable, first, second)
  {
    ReportedFor(config, before, providers, payloads, report, qualified, stable, texts);
    SurvivorCounts(config.groups, report, payloads, RuntimeRegions(before, texts.fold), qualified, stable, r, first, second);
  }

  lemma SurvivorCounts(groups: seq<Group>, report: Report, payloads: Payloads, order: seq<string>, qualified: set<string>, stable: set<string>,
                       r: string, first: set<string>, second: set<string>)
    requires report.available == Surviving(payloads, order, qualified) && r in report.available && Taken(groups, r, first, second)
    requires Counted(report.regions, payloads, order, qualified, stable) && AllDone(groups, payloads, order, qualified, stable)
    ensures r in payloads && r in report.regions && SizesOf(report.regions[r], payloads[r], Passing(payloads[r], qualified), stable, first, second)
  {
    assert RegionDone(groups, payloads, r, qualified, stable);
    TiersCollect(groups, r, SplitTiers(QualifiedIn(payloads[r], qualified), stable), first, second);
    SizesFor(payloads[r], qualified, stable);
  }

  /** The regions reported are those listed with a payload; one without a qualified node reports the size of its payload and nothing else. */
  lemma RemovedCounts(config: Config, before: seq<Group>, providers: map<string, Provider>, payloads: Payloads, report: Report,
                      qualified: set<string>, stable: set<string>, texts: Texts, r: string)
    requires Rewritten(config, before, providers, payloads, report, qualified, stable, texts)
    ensures r in report.regions <==> r in RuntimeRegions(before, texts.fold) && r in payloads
    ensures r in report.removed <==> r in report.regions && Passing(payloads[r], qualified) == {}
    ensures r in report.available <==> r in report.regions && Passing(payloads[r], qualified) != {}
    ensures r in report.removed ==> report.regions[r] == Counts(|payloads[r].payload|, 0, 0, 0, 0, 0)
  {
    ReportedFor(config, before, providers, payloads, report, qualified, stable, texts);
    ListedCounts(report, payloads, RuntimeRegions(before, texts.fold), qualified, stable, r);
  }

  lemma ListedCounts(report: Report, payloads: Payloads, order: seq<string>, qualified: set<string>, stable: set<string>, r: string)
    requires report.available == Surviving(payloads, order, qualified) && report.removed == Vanishing(payloads, order, qualified)
    requires Counted(report.regions, payloads, order, qualified, stable)
    ensures r in report.regions <==> r in order && r in payloads
    ensures r in report.removed <==> r in report.regions && Passing(payloads[r], qualified) == {}
    ensures r in report.available <==> r in report.regions && Passing(payloads[r], qualified) != {}
    ensures r in report.removed ==> report.regions[r] == Counts(|payloads[r].payload|, 0, 0, 0, 0, 0)
  {
    if r in payloads { PassingIs(payloads[r], qualified); }
  }

  // ----- providers -----

  /** The provider of a region, cut down to its qualified proxies, their order and everything else kept. */
  ghost predicate CutTo(before: Provider, after: Provider, qualified: set<string>) {
    && before.payload.Some? && after.payload.Some? && after == before.(payload := after.payload)
    && Sifted(before.payload.value, (x: Proxy) => x.name in qualified, after.payload.value)
  }

  lemma {:induction false} ProvidersExactly(providers: map<string, Provider>, payloads: Payloads, order: seq<string>, qualified: set<string>,
                                            upper: string -> string, p: string)
    requires BrowsingRewrite.Reads(providers, payloads, upper)
    ensures var after := ProvidersAfter(providers, payloads, order, qualified);
            && (p in after ==> p in providers)
            && (p in providers && (forall r :: r in order && r in payloads ==> payloads[r].provider != p) ==> p in after && after[p] == providers[p])
            && forall r :: r in order && r in payloads && payloads[r].provider == p ==>
                 if Passing(payloads[r], qualified) == {} then p !in after else p in after && CutTo(providers[p], after[p], qualified)
  {
    ProvidersOnlyShrink(providers, payloads, order, qualified);
    if p in providers && forall r :: r in order && r in payloads ==> payloads[r].provider != p { Untouched(providers, payloads, order, qualified, p); }
    forall r | r in order && r in payloads && payloads[r].provider == p
      ensures var after := ProvidersAfter(providers, payloads, order, qualified);
              if Passing(payloads[r], qualified) == {} then p !in after else p in after && CutTo(providers[p], after[p], qualified)
    {
      PassingIs(payloads[r], qualified);
      ProviderAfter(providers, payloads, order, qualified, upper, r);
      assert BrowsingRewrite.EntryReads(providers, r, payloads[r], upper);
      if Passing(payloads[r], qualified) != {} {
        RestKept(providers, payloads, order, qualified, p);
        ProxiesInOrder(payloads[r].payload, qualified);
      }
    }
  }

  lemma {:induction false} RestKept(providers: map<string, Provider>, payloads: Payloads, order: seq<string>, qualified: set<string>, p: string)
    requires p in ProvidersAfter(providers, payloads, order, qualified)
    ensures p in providers
    ensures ProvidersAfter(providers, payloads, order, qualified)[p] == providers[p].(payload := ProvidersAfter(providers, payloads, order, qualified)[p].payload)
  {
    if order != [] {
      var k := |order| - 1;
      RestKept(providers, payloads, order[..k], qualified, p);
    }
  }

  // ----- groups -----

  /** The group without its members among `gone`; a filter may have been written. */
  ghost predicate Carries(a: Option<Group>, b: Option<Group>, gone: set<string>) {
    (a.None? <==> b.None?)
    && (a.Some? ==> b.value == a.value.(proxies := KeepMembers(a.value.proxies, gone), filter := b.value.filter))
  }

  lemma CarriesMore(a: Option<Group>, b: Option<Group>, gone: set<string>, names: set<string>)
    requires Carries(a, b, gone)
    ensures Carries(a, if b.None? then None else Some(BrowsingTiers.Pruned(b.value, names)), gone + names)
  {
    if a.Some? { KeepTwice(a.value.proxies, gone, names); }
  }

  lemma FilterCarries(a: Option<Group>, groups: seq<Group>, name: string, text: string, n: string, gone: set<string>)
    requires Carries(a, FindLast(groups, n), gone)
    ensures Carries(a, FindLast(Edit(groups, name, Filtered(text)), n), gone)
  {
    FindEdited(groups, name, Filtered(text), n);
  }

  lemma {:induction false} PassKeeps(groups: seq<Group>, payloads: Payloads, order: seq<string>, qualified: set<string>, stable: set<string>, n: string)
    requires n !in GoneWith(payloads, order, qualified)
    ensures Carries(FindLast(groups, n), FindLast(GroupsAfter(groups, payloads, order, qualified, stable), n), GoneWith(payloads, order, qualified))
  {
    if order == [] {
      assert GoneWith(payloads, order, qualified) == {};
      if FindLast(groups, n).Some? { KeepAll(FindLast(groups, n).value.proxies, {}); }
    } else {
      var k := |order| - 1;
      var r, now, gone := order[k], GroupsAfter(groups, payloads, order[..k], qualified, stable), GoneWith(payloads, order[..k], qualified);
      GoneNext(payloads, order, qualified);
      PassKeeps(groups, payloads, order[..k], qualified, stable, n);
      if Vanishes(payloads, r, qualified) {
        assert GoneWith(payloads, order, qualified) == gone + RegionGroups(r);
        FindRemoved(now, RegionGroups(r), n);
        CarriesMore(FindLast(groups, n), FindLast(now, n), gone, RegionGroups(r));
      } else {
        assert GoneWith(payloads, order, qualified) == gone;
        if r in payloads { TiersCarry(FindLast(groups, n), now, r, QualifiedIn(payloads[r], qualified), stable, n, gone); }
      }
    }
  }

  lemma TiersCarry(a: Option<Group>, now: seq<Group>, r: string, q: set<string>, stable: set<string>, n: string, gone: set<string>)
    requires q != {} && Carries(a, FindLast(now, n), gone)
    ensures SplitTiers(q, stable).stable != {} && SplitTiers(q, stable).reserve != {}
    ensures Carries(a, FindLast(TierEdits(now, r, SplitTiers(q, stable)), n), gone)
  {
    SplitCovers(q, stable);
    var t := SplitTiers(q, stable);
    FilterCarries(a, now, Stable(r), ExactFilter.Text(t.stable).value, n, gone);
    FilterCarries(a, Edit(now, Stable(r), Filtered(ExactFilter.Text(t.stable).value)), Reserve(r), ExactFilter.Text(t.reserve).value, n, gone);
  }

  /** The names that go with a region that keeps no node. */
  ghost predicate Goes(payloads: Payloads, order: seq<string>, qualified: set<string>, n: string) {
    exists r :: r in order && r in payloads && Passing(payloads[r], qualified) == {}
             && n in {Display(r), "__CR_BROWSING_" + r + "_STABLE_AUTO", "__CR_BROWSING_" + r + "_RESERVE_AUTO", "__CR_AUTO_BROWSING_" + r}
  }

  lemma GoesExactly(payloads: Payloads, order: seq<string>, qualified: set<string>, n: string)
    ensures n in GoneWith(payloads, order, qualified) <==> Goes(payloads, order, qualified, n)
  {
    if n in GoneWith(payloads, order, qualified) {
      var k :| 0 <= k < |order| && Vanishes(payloads, order[k], qualified) && n in RegionGroups(order[k]);
      PassingIs(payloads[order[k]], qualified);
      assert order[k] in order;
    }
    if Goes(payloads, order, qualified, n) {
      var r :| r in order && r in payloads && Passing(payloads[r], qualified) == {}
               && n in {Display(r), "__CR_BROWSING_" + r + "_STABLE_AUTO", "__CR_BROWSING_" + r + "_RESERVE_AUTO", "__CR_AUTO_BROWSING_" + r};
      PassingIs(payloads[r], qualified);
      var k :| 0 <= k < |order| && order[k] == r;
      assert Vanishes(payloads, order[k], qualified) && n in RegionGroups(r);
    }
  }

  /** What a group that stays has become: new members for the two routes, else its own without those that go; a filter only in a surviving tier. */
  ghost predicate Reshaped(g: Group, h: Group, payloads: Payloads, order: seq<string>, qualified: set<string>, shown: seq<string>) {
    && h == g.(proxies := h.proxies, filter := h.filter)
    && (if g.name == "网页自动" then h.proxies == shown
        else if g.name == "网页浏览" then h.proxies == ["网页自动"] + shown + ["DIRECT"]
        else Sifted(g.proxies, (m: string) => !Goes(payloads, order, qualified, m), h.proxies))
    && (h.filter != g.filter ==> exists r :: r in order && r in payloads && Passing(payloads[r], qualified) != {} && g.name in TierNames(r))
  }

  lemma RefreshShape(groups: seq<Group>, available: seq<string>, n: string)
    ensures var now, g := FindLast(RefreshedGroups(groups, available), n), FindLast(groups, n);
            if g.None? then now.None?
            else now == Some(g.value.(proxies := if n == AUTO then Displays(available)
                                                 else if n == PUBLIC then [AUTO] + Displays(available) + ["DIRECT"] else g.value.proxies))
  {
    RouteNamesApart("");
    var f := Routed(Displays(available));
    FindEdited(groups, AUTO, f, n);
    FindEdited(Edit(groups, AUTO, f), PUBLIC, Routed([AUTO] + Displays(available) + ["DIRECT"]), n);
  }

  lemma {:induction false} FilterOnlyInTiers(groups: seq<Group>, payloads: Payloads, order: seq<string>, qualified: set<string>, stable: set<string>, n: string)
    requires n !in GoneWith(payloads, order, qualified) && FindLast(groups, n).Some?
    requires !exists r :: r in order && Survives(payloads, r, qualified) && n in TierNames(r)
    ensures var h := FindLast(GroupsAfter(groups, payloads, order, qualified, stable), n); h.Some? && h.value.filter == FindLast(groups, n).value.filter
  {
    forall k | 0 <= k < |order| && Survives(payloads, order[k], qualified) ensures n !in TierNames(order[k]) { assert order[k] in order; }
    OtherThinned(groups, payloads, order, qualified, stable, n);
  }

  /** The groups after the rewrite, name by name. */
  lemma GroupsExactly(groups: seq<Group>, payloads: Payloads, order: seq<string>, qualified: set<string>, stable: set<string>, n: string)
    requires !Goes(payloads, order, qualified, n)
    ensures var g, h := FindLast(groups, n), FindLast(FinalGroups(groups, payloads, order, qualified, stable), n);
            (g.None? <==> h.None?)
            && (g.Some? ==> Reshaped(g.value, h.value, payloads, order, qualified, Displays(Surviving(payloads, order, qualified))))
  {
    var gone, now := GoneWith(payloads, order, qualified), GroupsAfter(groups, payloads, order, qualified, stable);
    forall m ensures m in gone <==> Goes(payloads, order, qualified, m) { GoesExactly(payloads, order, qualified, m); }
    PassKeeps(groups, payloads, order, qualified, stable, n);
    RefreshShape(now, Surviving(payloads, order, qualified), n);
    if FindLast(groups, n).Some? {
      MembersInOrder(FindLast(groups, n).value.proxies, gone);
      SiftedAlike(FindLast(groups, n).value.proxies, (m: string) => m !in gone, (m: string) => !Goes(payloads, order, qualified, m),
                  KeepMembers(FindLast(groups, n).value.proxies, gone));
      if FindLast(now, n).value.filter != FindLast(groups, n).value.filter {
        if !exists r :: r in order && Survives(payloads, r, qualified) && n in TierNames(r) {
          FilterOnlyInTiers(groups, payloads, order, qualified, stable, n);
        }
        var r :| r in order && Survives(payloads, r, qualified) && n in TierNames(r);
        PassingIs(payloads[r], qualified);
      }
    }
  }

  /** No group of a region without a qualified node is left. */
  lemma GoneExactly(groups: seq<Group>, payloads: Payloads, order: seq<string>, qualified: set<string>, stable: set<string>, n: string)
    requires UniqueNames(groups) && Goes(payloads, order, qualified, n)
    ensures FindLast(FinalGroups(groups, payloads, order, qualified, stable), n).None?
  {
    GoesExactly(payloads, order, qualified, n);
    PassCarries(groups, payloads, order, qualified, stable);
    var now := GroupsAfter(groups, payloads, order, qualified, stable);
    RefreshShape(now, Surviving(payloads, order, qualified), n);
    NotCarried(groups, now, GoneWith(payloads, order, qualified), n);
  }

  lemma NotCarried(before: seq<Group>, after: seq<Group>, gone: set<string>, n: string)
    requires Carried(before, after, gone) && n in gone
    ensures FindLast(after, n).None?
  {
    forall h | h in after ensures h.name != n { assert HasOrigin(before, h, gone); }
  }

  // ----- the groups keep their places -----

  ghost function GroupNamesOf(groups: seq<Group>): seq<string> { seq(|groups|, i requires 0 <= i < |groups| => groups[i].name) }

  lemma NamesEdited(groups: seq<Group>, name: string, f: Group -> Group)
    requires forall g :: f(g).name == g.name
    ensures GroupNamesOf(Edit(groups, name, f)) == GroupNamesOf(groups)
  {
    EditExactly(groups, name, f);
  }

  lemma NamesTiered(groups: seq<Group>, region: string, t: Tiers)
    requires t.stable != {} && t.reserve != {}
    ensures GroupNamesOf(TierEdits(groups, region, t)) == GroupNamesOf(groups)
  {
    var f, g := Filtered(ExactFilter.Text(t.stable).value), Filtered(ExactFilter.Text(t.reserve).value);
    NamesEdited(groups, Stable(region), f);
    NamesEdited(Edit(groups, Stable(region), f), Reserve(region), g);
  }

  lemma KeepSnoc(members: seq<string>, m: string, removed: set<string>)
    ensures KeepMembers(members + [m], removed) == KeepMembers(members, removed) + if m in removed then [] else [m]
  {
    KeepJoined(members, [m], removed);
  }

  lemma {:induction false} KeepJoined(a: seq<string>, b: seq<string>, removed: set<string>)
    ensures KeepMembers(a + b, removed) == KeepMembers(a, removed) + KeepMembers(b, removed)
  {
    if a == [] {
      assert a + b == b;
    } else {
      assert (a + b)[1..] == a[1..] + b;
      KeepJoined(a[1..], b, removed);
    }
  }

  lemma {:induction false} NamesRemoved(groups: seq<Group>, names: set<string>)
    ensures GroupNamesOf(Removed(groups, names)) == KeepMembers(GroupNamesOf(groups), names)
  {
    if groups != [] {
      var k := |groups| - 1;
      NamesRemoved(groups[..k], names);
      assert GroupNamesOf(groups) == GroupNamesOf(groups[..k]) + [groups[k].name];
      KeepSnoc(GroupNamesOf(groups[..k]), groups[k].name, names);
      var kept := if groups[k].name in names then [] else [BrowsingTiers.Pruned(groups[k], names)];
      assert GroupNamesOf(Removed(groups[..k], names) + kept) == GroupNamesOf(Removed(groups[..k], names)) + GroupNamesOf(kept);
    }
  }

  lemma {:induction false} PassNames(groups: seq<Group>, payloads: Payloads, order: seq<string>, qualified: set<string>, stable: set<string>)
    ensures GroupNamesOf(GroupsAfter(groups, payloads, order, qualified, stable)) == KeepMembers(GroupNamesOf(groups), GoneWith(payloads, order, qualified))
  {
    if order == [] {
      assert GoneWith(payloads, order, qualified) == {};
      KeepAll(GroupNamesOf(groups), {});
    } else {
      var k := |order| - 1;
      var r, now, gone := order[k], GroupsAfter(groups, payloads, order[..k], qualified, stable), GoneWith(payloads, order[..k], qualified);
      GoneNext(payloads, order, qualified);
      PassNames(groups, payloads, order[..k], qualified, stable);
      if Vanishes(payloads, r, qualified) {
        NamesRemoved(now, RegionGroups(r));
        KeepTwice(GroupNamesOf(groups), gone, RegionGroups(r));
      } else {
        assert GoneWith(payloads, order, qualified) == gone;
        if r in payloads {
          var q := QualifiedIn(payloads[r], qualified);
          SplitCovers(q, stable);
          NamesTiered(now, r, SplitTiers(q, stable));
        }
      }
    }
  }

  /** The groups that stay stand in the order they stood in. */
  lemma PlacesKept(groups: seq<Group>, payloads: Payloads, order: seq<string>, qualified: set<string>, stable: set<string>)
    ensures Sifted(GroupNamesOf(groups), (n: string) => !Goes(payloads, order, qualified, n),
                   GroupNamesOf(FinalGroups(groups, payloads, order, qualified, stable)))
  {
    var now, shown := GroupsAfter(groups, payloads, order, qualified, stable), Surviving(payloads, order, qualified);
    var gone := GoneWith(payloads, order, qualified);
    PassNames(groups, payloads, order, qualified, stable);
    NamesEdited(now, AUTO, Routed(Displays(shown)));
    NamesEdited(Edit(now, AUTO, Routed(Displays(shown))), PUBLIC, Routed([AUTO] + Displays(shown) + ["DIRECT"]));
    MembersInOrder(GroupNamesOf(groups), gone);
    forall m ensures m in gone <==> Goes(payloads, order, qualified, m) { GoesExactly(payloads, order, qualified, m); }
    SiftedAlike(GroupNamesOf(groups), (m: string) => m !in gone, (m: string) => !Goes(payloads, order, qualified, m), KeepMembers(GroupNamesOf(groups), gone));
  }
}
